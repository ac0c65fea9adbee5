/** Which recipients a delivery result condemns (`_suppress_dead_recipients` in `emaild/worker.py`). */
module Casualties {
  import opened Prelude
  import opened Messages
  import opened Verdicts
  import opened Addresses

  datatype Candidate = Candidate(address: string, code: Option<int>, text: Option<string>)

  function OfRefusals(refused: seq<Refusal>): (r: seq<Candidate>)
    ensures |r| == |refused|
    ensures forall i :: 0 <= i < |refused| ==>
                          r[i] == Candidate(refused[i].address, Some(refused[i].code), Some(refused[i].text))
  {
    if refused == [] then []
    else [Candidate(refused[0].address, Some(refused[0].code), Some(refused[0].text))] + OfRefusals(refused[1..])
  }

  /**
    Each refused recipient; or, for a whole failure without refusals, the recipient of a message that
    has only one.
  */
  function Candidates(result: DeliveryResult, recipients: Recipients): seq<Candidate> {
    var visible := recipients.to + recipients.cc;
    if result.refused != [] then OfRefusals(result.refused)
    else if !result.success && |visible| == 1 && recipients.bcc == [] then
      [Candidate(visible[0], result.code, result.response)]
    else []
  }

  /**
    Exactly who is a candidate, and on what evidence: whoever was refused, on the reply about him; or, if
    the message failed as a whole, its one recipient, in the open, on the reply to it all.
  */
  lemma WhoIsACandidate(result: DeliveryResult, recipients: Recipients, c: Candidate)
    ensures c in Candidates(result, recipients) <==>
            || (c.code.Some? && c.text.Some? && Refusal(c.address, c.code.value, c.text.value) in result.refused)
            || (result.refused == [] && !result.success && c.code == result.code && c.text == result.response
                && recipients.bcc == [] && recipients.to + recipients.cc == [c.address])
  {
    var refused := result.refused;
    if refused != [] {
      var candidates := OfRefusals(refused);
      if c in candidates {
        var i :| 0 <= i < |candidates| && candidates[i] == c;
        assert refused[i] == Refusal(c.address, c.code.value, c.text.value);
      }
      if c.code.Some? && c.text.Some? && Refusal(c.address, c.code.value, c.text.value) in refused {
        var i :| 0 <= i < |refused| && refused[i] == Refusal(c.address, c.code.value, c.text.value);
        assert candidates[i] == c;
      }
    }
  }

  /** What the loop over the candidates does: the new list of suppressions, and the addresses it created, in order. */
  datatype Toll = Toll(suppressed: set<string>, created: seq<string>)

  /** The evidence test on a reply's code and text; the worker's is `Verdicts.Condemns`. */
  type Evidence = (Option<int>, Option<string>) -> bool

  predicate Creates(parse: Parser, dead: Evidence, suppressed: set<string>, candidate: Candidate) {
    && dead(candidate.code, candidate.text)
    && Normalise(parse, candidate.address).Some?
    && Normalise(parse, candidate.address).value !in suppressed
  }

  function Count(parse: Parser, dead: Evidence, suppressed: set<string>, candidates: seq<Candidate>): Toll {
    if candidates == [] then Toll(suppressed, [])
    else
      var before := Count(parse, dead, suppressed, candidates[..|candidates| - 1]);
      var last := candidates[|candidates| - 1];
      if Creates(parse, dead, before.suppressed, last) then
        Toll(before.suppressed + {Normalise(parse, last.address).value}, before.created + [last.address])
      else before
  }

  lemma CountOneMore(parse: Parser, dead: Evidence, suppressed: set<string>, candidates: seq<Candidate>, i: nat)
    requires i < |candidates|
    ensures var before := Count(parse, dead, suppressed, candidates[..i]);
            Count(parse, dead, suppressed, candidates[..i + 1]) ==
            if Creates(parse, dead, before.suppressed, candidates[i]) then
              Toll(before.suppressed + {Normalise(parse, candidates[i].address).value},
                   before.created + [candidates[i].address])
            else before
  {
    assert candidates[..i + 1][..i] == candidates[..i];
  }

  predicate Condemned(parse: Parser, dead: Evidence, candidate: Candidate, address: string) {
    dead(candidate.code, candidate.text) && Normalise(parse, candidate.address) == Some(address)
  }

  /** The list grows by exactly the normal forms of the condemned candidates. */
  lemma {:induction false} TollIsExact(
    parse: Parser, dead: Evidence, suppressed: set<string>, candidates: seq<Candidate>, address: string)
    ensures address in Count(parse, dead, suppressed, candidates).suppressed <==>
            || address in suppressed
            || exists i :: 0 <= i < |candidates| && Condemned(parse, dead, candidates[i], address)
  {
    if candidates != [] {
      var n := |candidates| - 1;
      TollIsExact(parse, dead, suppressed, candidates[..n], address);
      assert forall i :: 0 <= i < n ==> candidates[..n][i] == candidates[i];
      var before := Count(parse, dead, suppressed, candidates[..n]);
      if Condemned(parse, dead, candidates[n], address) {
        assert address in Count(parse, dead, suppressed, candidates).suppressed;
      }
    }
  }

  /** Candidate `i` is condemned for an address that was neither on the list nor condemned by an earlier one. */
  predicate Newly(parse: Parser, dead: Evidence, suppressed: set<string>, candidates: seq<Candidate>, i: nat) {
    && i < |candidates| && dead(candidates[i].code, candidates[i].text)
    && var address := Normalise(parse, candidates[i].address);
       && address.Some? && address.value !in suppressed
       && forall j :: 0 <= j < i ==> !Condemned(parse, dead, candidates[j], address.value)
  }

  /** `ids` are the newly condemned candidates, in their order. */
  ghost predicate AllNewly(
    parse: Parser, dead: Evidence, suppressed: set<string>, candidates: seq<Candidate>, ids: seq<nat>)
  {
    && (forall i: nat :: i in ids <==> Newly(parse, dead, suppressed, candidates, i))
    && (forall j, k :: 0 <= j < k < |ids| ==> ids[j] < ids[k])
  }

  predicate AddressesOf(candidates: seq<Candidate>, ids: seq<nat>, addresses: seq<string>) {
    && |addresses| == |ids|
    && forall j :: 0 <= j < |ids| ==> ids[j] < |candidates| && addresses[j] == candidates[ids[j]].address
  }

  /** What is created is just what is newly condemned, in the order of the candidates. */
  lemma {:induction false} CreatedInOrder(
    parse: Parser, dead: Evidence, suppressed: set<string>, candidates: seq<Candidate>) returns (ids: seq<nat>)
    ensures AllNewly(parse, dead, suppressed, candidates, ids)
    ensures AddressesOf(candidates, ids, Count(parse, dead, suppressed, candidates).created)
  {
    if candidates == [] {
      ids := [];
    } else {
      var n := |candidates| - 1;
      var earlier := CreatedInOrder(parse, dead, suppressed, candidates[..n]);
      LastIsNewly(parse, dead, suppressed, candidates);
      OneMoreNewly(parse, dead, suppressed, candidates, earlier);
      ids := if Newly(parse, dead, suppressed, candidates, n) then earlier + [n] else earlier;
    }
  }

  lemma NewlyBefore(parse: Parser, dead: Evidence, suppressed: set<string>, candidates: seq<Candidate>, i: nat)
    requires candidates != []
    ensures var n := |candidates| - 1;
            Newly(parse, dead, suppressed, candidates[..n], i) <==>
            i < n && Newly(parse, dead, suppressed, candidates, i)
  {
    assert forall j :: 0 <= j < |candidates| - 1 ==> candidates[..|candidates| - 1][j] == candidates[j];
  }

  lemma OneMoreNewly(
    parse: Parser, dead: Evidence, suppressed: set<string>, candidates: seq<Candidate>, earlier: seq<nat>)
    requires candidates != [] && AllNewly(parse, dead, suppressed, candidates[..|candidates| - 1], earlier)
    ensures var n := |candidates| - 1;
            AllNewly(parse, dead, suppressed, candidates,
                     if Newly(parse, dead, suppressed, candidates, n) then earlier + [n] else earlier)
  {
    var n := |candidates| - 1;
    forall i: nat ensures i in earlier <==> i < n && Newly(parse, dead, suppressed, candidates, i) {
      NewlyBefore(parse, dead, suppressed, candidates, i);
    }
    forall j | 0 <= j < |earlier| ensures earlier[j] < n {
      assert earlier[j] in earlier;
    }
    forall i: nat | Newly(parse, dead, suppressed, candidates, i) ensures i <= n {
    }
  }

  lemma LastIsNewly(parse: Parser, dead: Evidence, suppressed: set<string>, candidates: seq<Candidate>)
    requires candidates != []
    ensures var n := |candidates| - 1;
            Newly(parse, dead, suppressed, candidates, n) <==>
            Creates(parse, dead, Count(parse, dead, suppressed, candidates[..n]).suppressed, candidates[n])
  {
    var n := |candidates| - 1;
    var address := Normalise(parse, candidates[n].address);
    if address.Some? {
      TollIsExact(parse, dead, suppressed, candidates[..n], address.value);
      assert forall i :: 0 <= i < n ==> candidates[..n][i] == candidates[i];
    }
  }

  /** A final verdict on a permanent reply that names the recipient as nonexistent. */
  predicate NamesTheDead(candidate: Candidate) {
    && candidate.code.Some? && 500 <= candidate.code.value < 600
    && Search(AddressIsDead(), candidate.text.GetOr(""))
    && Terminal(Classify(candidate.code, candidate.text))
  }

  /** A failure of a message to several recipients, with no word about any one of them. */
  predicate Anonymous(result: DeliveryResult, recipients: Recipients) {
    result.refused == [] && |recipients.to + recipients.cc + recipients.bcc| > 1
  }

  /** Whoever is added to the list had evidence against it in this very result. */
  lemma AddedOnEvidence(
    parse: Parser, dead: Evidence, suppressed: set<string>, result: DeliveryResult, recipients: Recipients,
    address: string) returns (candidate: Candidate)
    requires address in Count(parse, dead, suppressed, Candidates(result, recipients)).suppressed
    requires address !in suppressed
    ensures candidate in Candidates(result, recipients) && Condemned(parse, dead, candidate, address)
    ensures !Anonymous(result, recipients)
  {
    var candidates := Candidates(result, recipients);
    TollIsExact(parse, dead, suppressed, candidates, address);
    var i :| 0 <= i < |candidates| && Condemned(parse, dead, candidates[i], address);
    candidate := candidates[i];
  }

  lemma CondemnationNames(candidate: Candidate)
    requires Condemns(candidate.code, candidate.text)
    ensures NamesTheDead(candidate)
  {
    CondemnsExactlyTheDead(candidate.code, candidate.text);
  }

  /**
    Only a permanent reply that names a dead recipient, and is final on its own terms, ever adds an
    address to the list; a failure of several recipients without per-recipient detail adds none.
  */
  lemma OnlyTheDeadAreSuppressed(
    parse: Parser, dead: Evidence, suppressed: set<string>, result: DeliveryResult, recipients: Recipients,
    address: string) returns (candidate: Candidate)
    requires forall code, text :: dead(code, text) ==> Condemns(code, text)
    requires address in Count(parse, dead, suppressed, Candidates(result, recipients)).suppressed
    requires address !in suppressed
    ensures candidate in Candidates(result, recipients) && Normalise(parse, candidate.address) == Some(address)
    ensures NamesTheDead(candidate)
    ensures !Anonymous(result, recipients)
  {
    candidate := AddedOnEvidence(parse, dead, suppressed, result, recipients, address);
    CondemnationNames(candidate);
  }
}
