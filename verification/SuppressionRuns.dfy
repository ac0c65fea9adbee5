/**
  The suppression list against ingestion, over whole histories: who is suppressed is a matter of what
  was last said about an address, and nothing is accepted for an address while that stands.
*/
module SuppressionRuns {
  import opened Prelude
  import opened Addresses
  import opened Ingest
  import opened Messages
  import Authority

  /**
    What happens to the list and the inbox, one transaction each. The worker's own suppressions are
    `Suppress` acts for the addresses that `Casualties.Count` creates.
  */
  datatype Act =
    | Suppress(raw: string)
    | Unsuppress(raw: string)
    | Submit(caller: Caller, request: Request, key: string, hash: string)

  /** Accepted message number `n` has id `n`. */
  datatype World = World(suppressed: set<string>, keys: map<KeyId, KeyRow>, accepted: seq<Recipients>)

  predicate Playable(acts: seq<Act>) {
    forall i :: 0 <= i < |acts| && acts[i].Submit? ==> Known(acts[i].caller)
  }

  function Verdict(read: Reading, w: World, act: Act): Result<Decision, Ingest.Refusal>
    requires act.Submit? && Known(act.caller)
  {
    Decide(read, act.caller, act.request, act.key, act.hash, w.suppressed, w.keys)
  }

  predicate Writes(read: Reading, w: World, act: Act)
    requires act.Submit? && Known(act.caller)
  {
    Verdict(read, w, act).Ok? && Verdict(read, w, act).value.Write?
  }

  function Do(read: Reading, w: World, act: Act): World
    requires act.Submit? ==> Known(act.caller)
  {
    match act
    case Suppress(raw) => if read(raw).Some? then w.(suppressed := w.suppressed + {read(raw).value}) else w
    case Unsuppress(raw) => if read(raw).Some? then w.(suppressed := w.suppressed - {read(raw).value}) else w
    case Submit(caller, _, key, hash) =>
      if Writes(read, w, act) then
        w.(keys := Remember(w.keys, caller.principal.project, key, hash, |w.accepted|),
           accepted := w.accepted + [Verdict(read, w, act).value.envelope.recipients])
      else w
  }

  function Play(read: Reading, acts: seq<Act>): World
    requires Playable(acts)
  {
    if acts == [] then World({}, map[], [])
    else Do(read, Play(read, acts[..|acts| - 1]), acts[|acts| - 1])
  }

  /** The last thing said about an address was to suppress it. */
  predicate Standing(read: Reading, acts: seq<Act>, address: string) {
    if acts == [] then false
    else
      var last := acts[|acts| - 1];
      if !last.Submit? && read(last.raw) == Some(address) then last.Suppress?
      else Standing(read, acts[..|acts| - 1], address)
  }

  /** The list holds exactly the addresses whose suppression stands. */
  lemma {:induction false} ListIsHistory(read: Reading, acts: seq<Act>, address: string)
    requires Playable(acts)
    ensures address in Play(read, acts).suppressed <==> Standing(read, acts, address)
  {
    if acts != [] {
      ListIsHistory(read, acts[..|acts| - 1], address);
    }
  }

  function RawRecipients(request: Request): seq<string> {
    request.to + request.cc + request.bcc
  }

  /** Somebody this request is addressed to, in whatever spelling, is suppressed. */
  predicate NamesSuppressed(read: Reading, acts: seq<Act>, request: Request) {
    exists k :: 0 <= k < |RawRecipients(request)| &&
      read(RawRecipients(request)[k]).Some? && Standing(read, acts, read(RawRecipients(request)[k]).value)
  }

  lemma MentionsPlus(read: Reading, a: seq<string>, b: seq<string>, address: string)
    ensures Mentions(read, a + b, address) <==> Mentions(read, a, address) || Mentions(read, b, address)
  {
    if Mentions(read, a, address) {
      var k :| 0 <= k < |a| && read(a[k]) == Some(address);
      assert (a + b)[k] == a[k];
    }
    if Mentions(read, b, address) {
      var k :| 0 <= k < |b| && read(b[k]) == Some(address);
      assert (a + b)[|a| + k] == b[k];
    }
  }

  /** The addresses of an addressed request are exactly what its raw recipients read as. */
  lemma AddressedTo(read: Reading, request: Request, address: string)
    requires Address(read, request).Ok?
    ensures address in All(Address(read, request).value) <==> Mentions(read, RawRecipients(request), address)
  {
    AcceptedInNormalForm(read, request.to);
    AcceptedInNormalForm(read, request.cc);
    AcceptedInNormalForm(read, request.bcc);
    MentionsPlus(read, request.to, request.cc, address);
    MentionsPlus(read, request.to + request.cc, request.bcc, address);
  }

  /**
    The lookup of `_check_suppressions` is exact: it comes back empty if and only if nobody addressed is
    suppressed.
  */
  lemma LookupIsExact(read: Reading, acts: seq<Act>, request: Request)
    requires Playable(acts) && Stable(read) && Address(read, request).Ok?
    ensures Caught(read, Play(read, acts).suppressed, All(Address(read, request).value)) != {}
            <==> NamesSuppressed(read, acts, request)
  {
    var all := All(Address(read, request).value);
    var suppressed := Play(read, acts).suppressed;
    forall i | 0 <= i < |all| ensures exists raw :: read(raw) == Some(all[i]) {
      AddressedTo(read, request, all[i]);
    }
    CaughtIsIntersection(read, suppressed, all);
    var caught := Caught(read, suppressed, all);
    if caught != {} {
      var address :| address in caught;
      AddressedTo(read, request, address);
      ListIsHistory(read, acts, address);
      var k :| 0 <= k < |RawRecipients(request)| && read(RawRecipients(request)[k]) == Some(address);
    }
    if NamesSuppressed(read, acts, request) {
      var k :| 0 <= k < |RawRecipients(request)| &&
        read(RawRecipients(request)[k]).Some? && Standing(read, acts, read(RawRecipients(request)[k]).value);
      var address := read(RawRecipients(request)[k]).value;
      AddressedTo(read, request, address);
      ListIsHistory(read, acts, address);
      assert address in caught;
    }
  }

  /** Sender and recipients are in order: only the suppression list and the key are still to be consulted. */
  predicate WellAddressed(read: Reading, act: Act)
    requires act.Submit? && Known(act.caller)
  {
    && Authority.AuthorizeSender(act.caller.tables, read, act.caller.principal, act.request.from).Ok?
    && Address(read, act.request).Ok?
  }

  /** A request in order is refused for its recipients if and only if it names somebody suppressed. */
  lemma RefusedIffNamed(read: Reading, acts: seq<Act>, act: Act)
    requires Playable(acts) && Stable(read) && act.Submit? && Known(act.caller) && WellAddressed(read, act)
    ensures var verdict := Verdict(read, Play(read, acts), act);
            (verdict.Err? && verdict.error.Suppressed?) <==> NamesSuppressed(read, acts, act.request)
  {
    LookupIsExact(read, acts, act.request);
  }

  /** Nothing is ever accepted for an address whose suppression stands, however the request spells it. */
  lemma NoMailToTheSuppressed(read: Reading, acts: seq<Act>, act: Act)
    requires Playable(acts) && Stable(read) && act.Submit? && Known(act.caller)
    requires Writes(read, Play(read, acts), act)
    ensures !NamesSuppressed(read, acts, act.request)
    ensures AllReadable(read, RawRecipients(act.request))
    ensures Play(read, acts + [act]).accepted == Play(read, acts).accepted + [Address(read, act.request).value]
  {
    RefusedIffNamed(read, acts, act);
    assert (acts + [act])[..|acts|] == acts;
    RefusedForTheFirst(read, act.request.to);
    RefusedForTheFirst(read, act.request.cc);
    RefusedForTheFirst(read, act.request.bcc);
  }

  // ---- Retries -----------------------------------------------------------------------

  /** A key, once answered, keeps its answer. */
  lemma {:induction false} KeysPersist(read: Reading, acts: seq<Act>, n: nat, id: KeyId)
    requires Playable(acts) && n <= |acts| && id in Play(read, acts[..n]).keys
    ensures id in Play(read, acts).keys && Play(read, acts).keys[id] == Play(read, acts[..n]).keys[id]
    decreases |acts|
  {
    if n == |acts| {
      assert acts[..n] == acts;
    } else {
      var before := acts[..|acts| - 1];
      assert before[..n] == acts[..n];
      KeysPersist(read, before, n, id);
    }
  }

  function KeyOf(act: Act): KeyId
    requires act.Submit?
  {
    (act.caller.principal.project, act.key)
  }

  lemma AcceptanceIsRemembered(read: Reading, acts: seq<Act>, i: nat)
    requires Playable(acts) && i < |acts| && acts[i].Submit? && acts[i].key != ""
    requires Writes(read, Play(read, acts[..i]), acts[i])
    ensures KeyOf(acts[i]) in Play(read, acts).keys
    ensures Play(read, acts).keys[KeyOf(acts[i])] == KeyRow(acts[i].hash, Some(|Play(read, acts[..i]).accepted|))
  {
    assert acts[..i + 1][..i] == acts[..i];
    KeysPersist(read, acts, i + 1, KeyOf(acts[i]));
  }

  /**
    A retry of an accepted request under its key never writes a second message. It gets the first id
    back if and only if it is still in order and nobody it names has been suppressed since: the list
    is consulted before the key, so an accepted request can turn into a refusal.
  */
  lemma RetriesReplayUnlessSuppressed(read: Reading, acts: seq<Act>, i: nat, retry: Act)
    requires Playable(acts) && Stable(read) && i < |acts| && acts[i].Submit? && acts[i].key != ""
    requires Writes(read, Play(read, acts[..i]), acts[i])
    requires retry.Submit? && Known(retry.caller) && retry.key == acts[i].key && retry.hash == acts[i].hash
    requires retry.caller.principal.project == acts[i].caller.principal.project
    ensures !Writes(read, Play(read, acts), retry)
    ensures Verdict(read, Play(read, acts), retry) == Ok(Replay(|Play(read, acts[..i]).accepted|))
            <==> WellAddressed(read, retry) && !NamesSuppressed(read, acts, retry.request)
  {
    AcceptanceIsRemembered(read, acts, i);
    if WellAddressed(read, retry) {
      RefusedIffNamed(read, acts, retry);
    }
  }

  /** The same key with another request is never served, and never written. */
  lemma OtherRequestsAreTurnedAway(read: Reading, acts: seq<Act>, i: nat, other: Act)
    requires Playable(acts) && i < |acts| && acts[i].Submit? && acts[i].key != ""
    requires Writes(read, Play(read, acts[..i]), acts[i])
    requires other.Submit? && Known(other.caller) && other.key == acts[i].key && other.hash != acts[i].hash
    requires other.caller.principal.project == acts[i].caller.principal.project
    ensures Verdict(read, Play(read, acts), other).Err?
  {
    AcceptanceIsRemembered(read, acts, i);
    assert Replayed(Play(read, acts).keys, KeyOf(other), other.hash) == Some(Err(KeyReused));
  }
}
