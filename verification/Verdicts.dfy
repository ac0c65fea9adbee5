/**
  Failure classification (`emaild/delivery/classify.py`) and the evidence test for a dead
  address (`emaild/delivery/bounce.py`).
*/
module Verdicts {
  import opened Prelude
  import opened Text

  datatype FailureClass =
    | AuthFailure
    | RecipientRejected
    | SenderUnauthorized
    | SenderMismatch
    | RateLimited
    | ProviderDeferral
    | Connection
    | PolicyRejected
    | MessageInvalid
    | Internal
    | Unknown

  datatype Verdict = Verdict(failureClass: FailureClass, retryable: bool, needsReview: bool)

  // ---- Patterns ----------------------------------------------------------------------

  /** Alternatives; each alternative is its literal pieces, with `.*` between one piece and the next. */
  type Pattern = seq<seq<string>>

  /** Whether `pieces` match starting exactly at the front of `text`. */
  predicate MatchAt(text: string, pieces: seq<string>)
    decreases |pieces|, 0, |text|
  {
    pieces == [] || (pieces[0] <= text && (|pieces| == 1 || MatchAfterGap(text[|pieces[0]|..], pieces[1..])))
  }

  /** As MatchAt, after skipping any characters but a line feed. */
  predicate MatchAfterGap(text: string, pieces: seq<string>)
    decreases |pieces|, 1, |text|
  {
    MatchAt(text, pieces) || (text != "" && text[0] != '\n' && MatchAfterGap(text[1..], pieces))
  }

  predicate Find(text: string, pieces: seq<string>) {
    MatchAt(text, pieces) || (text != "" && Find(text[1..], pieces))
  }

  /** `re.compile(pattern, re.I).search(text)`. */
  predicate Search(pattern: Pattern, text: string) {
    exists i :: 0 <= i < |pattern| && Find(Lower(text), pattern[i])
  }

  // ---- What the search finds ---------------------------------------------------------

  /** From `start` to `end` there is no line feed: what `.*` may skip. */
  predicate OneLine(text: string, start: nat, end: nat) {
    start <= end <= |text| && forall k :: start <= k < end ==> text[k] != '\n'
  }

  /** The pieces stand in `text` at these places, in this order, with nothing but one line's text in between. */
  predicate Laid(text: string, pieces: seq<string>, at: seq<nat>) {
    && |at| == |pieces|
    && (forall j :: 0 <= j < |pieces| ==> StandsAt(text, pieces[j], at[j]))
    && (forall j :: 0 <= j < |pieces| - 1 ==> OneLine(text, at[j] + |pieces[j]|, at[j + 1]))
  }

  ghost predicate Occurs(text: string, pieces: seq<string>) {
    exists at :: Laid(text, pieces, at)
  }

  /** They do so from index `p` on. */
  ghost predicate OccursAt(text: string, pieces: seq<string>, p: nat) {
    p <= |text| && exists at :: Laid(text, pieces, at) && (at != [] ==> at[0] == p)
  }

  lemma {:induction false} MatchAtIff(text: string, pieces: seq<string>, p: nat)
    requires p <= |text|
    ensures MatchAt(text[p..], pieces) <==> OccursAt(text, pieces, p)
    decreases |pieces|, 0, |text| - p
  {
    if pieces == [] {
      assert Laid(text, pieces, []);
    } else {
      FrontIff(text, pieces[0], p);
      if |pieces| == 1 {
        if StandsAt(text, pieces[0], p) {
          assert Laid(text, pieces, [p]);
        }
      } else if StandsAt(text, pieces[0], p) {
        var q := p + |pieces[0]|;
        assert text[p..][|pieces[0]|..] == text[q..];
        GapIff(text, pieces[1..], q);
        RestIff(text, pieces, p);
      }
    }
  }

  /** The other pieces follow after a gap. */
  lemma RestIff(text: string, pieces: seq<string>, p: nat)
    requires |pieces| >= 2 && StandsAt(text, pieces[0], p)
    ensures OccursAt(text, pieces, p) <==> AfterGap(text, pieces[1..], p + |pieces[0]|)
  {
    var q := p + |pieces[0]|;
    if AfterGap(text, pieces[1..], q) {
      var start: nat :| OneLine(text, q, start) && OccursAt(text, pieces[1..], start);
      var at :| Laid(text, pieces[1..], at) && (at != [] ==> at[0] == start);
      PutInFront(text, pieces, at, p);
    }
    if OccursAt(text, pieces, p) {
      var all :| Laid(text, pieces, all) && (all != [] ==> all[0] == p);
      TakeFromFront(text, pieces, all);
      assert OneLine(text, q, all[1]) && OccursAt(text, pieces[1..], all[1]);
    }
  }

  lemma PutInFront(text: string, pieces: seq<string>, at: seq<nat>, p: nat)
    requires |pieces| >= 2 && StandsAt(text, pieces[0], p)
    requires Laid(text, pieces[1..], at) && OneLine(text, p + |pieces[0]|, at[0])
    ensures Laid(text, pieces, [p] + at)
  {
    var rest, all := pieces[1..], [p] + at;
    forall j | 0 <= j < |pieces| ensures StandsAt(text, pieces[j], all[j]) {
      assert j > 0 ==> StandsAt(text, rest[j - 1], at[j - 1]);
    }
    forall j | 0 <= j < |pieces| - 1 ensures OneLine(text, all[j] + |pieces[j]|, all[j + 1]) {
      assert j > 0 ==> OneLine(text, at[j - 1] + |rest[j - 1]|, at[j]);
    }
  }

  lemma TakeFromFront(text: string, pieces: seq<string>, all: seq<nat>)
    requires |pieces| >= 2 && Laid(text, pieces, all)
    ensures Laid(text, pieces[1..], all[1..]) && OneLine(text, all[0] + |pieces[0]|, all[1])
  {
    var rest, at := pieces[1..], all[1..];
    forall j | 0 <= j < |rest| ensures StandsAt(text, rest[j], at[j]) {
      assert StandsAt(text, pieces[j + 1], all[j + 1]);
    }
    forall j | 0 <= j < |rest| - 1 ensures OneLine(text, at[j] + |rest[j]|, at[j + 1]) {
      assert OneLine(text, all[j + 1] + |pieces[j + 1]|, all[j + 2]);
    }
  }

  ghost predicate AfterGap(text: string, pieces: seq<string>, q: nat) {
    exists start: nat :: OneLine(text, q, start) && OccursAt(text, pieces, start)
  }

  lemma {:induction false} GapIff(text: string, pieces: seq<string>, q: nat)
    requires q <= |text|
    ensures MatchAfterGap(text[q..], pieces) <==> AfterGap(text, pieces, q)
    decreases |pieces|, 1, |text| - q
  {
    MatchAtIff(text, pieces, q);
    if MatchAt(text[q..], pieces) {
      assert OneLine(text, q, q);
    } else if q < |text| && text[q] != '\n' {
      assert text[q..][1..] == text[q + 1..];
      GapIff(text, pieces, q + 1);
      if AfterGap(text, pieces, q + 1) {
        var start: nat :| OneLine(text, q + 1, start) && OccursAt(text, pieces, start);
        assert OneLine(text, q, start);
      }
      if AfterGap(text, pieces, q) {
        var start: nat :| OneLine(text, q, start) && OccursAt(text, pieces, start);
        assert start != q;
        assert OneLine(text, q + 1, start);
      }
    }
  }

  lemma {:induction false} FindFromIff(text: string, pieces: seq<string>, p: nat)
    requires p <= |text|
    ensures Find(text[p..], pieces) <==> exists q: nat :: p <= q && OccursAt(text, pieces, q)
    decreases |text| - p
  {
    MatchAtIff(text, pieces, p);
    if !MatchAt(text[p..], pieces) && p < |text| {
      assert text[p..][1..] == text[p + 1..];
      FindFromIff(text, pieces, p + 1);
    }
  }

  lemma FindIff(text: string, pieces: seq<string>)
    ensures Find(text, pieces) <==> Occurs(text, pieces)
  {
    assert text[0..] == text;
    FindFromIff(text, pieces, 0);
    if Occurs(text, pieces) {
      var at :| Laid(text, pieces, at);
      assert OccursAt(text, pieces, if at == [] then 0 else at[0]);
    }
  }

  /**
    A pattern is found in a text exactly if the pieces of one of its alternatives stand in the lower-case
    text, in their order and on one line.
  */
  lemma SearchIff(pattern: Pattern, text: string)
    ensures Search(pattern, text) <==> exists i :: 0 <= i < |pattern| && Occurs(Lower(text), pattern[i])
  {
    forall i | 0 <= i < |pattern| ensures Find(Lower(text), pattern[i]) <==> Occurs(Lower(text), pattern[i]) {
      FindIff(Lower(text), pattern[i]);
    }
  }

  /** Letter case is no matter. */
  lemma CaseIsNoMatter(pattern: Pattern, a: string, b: string)
    requires SameLetters(a, b)
    ensures Search(pattern, a) <==> Search(pattern, b)
  {
    SameLettersSameLower(a, b);
  }

  // ---- The rule table ----------------------------------------------------------------

  function BadCredential(): Pattern {
    [["incorrect authentication data"]]
  }

  function NoSuchRecipient(): Pattern {
    [["no such recipient here"]]
  }

  function LoginMismatch(): Pattern {
    [["must match your login"]]
  }

  function IpRange(): Pattern {
    [["only accepted from authorized ip ranges"]]
  }

  function OverLimit(): Pattern {
    [
      ["rate limit"], ["too many messages"], ["message limit"], ["sending limit"], ["quota exceeded"],
      ["exceeded ", "limit"], ["limit exceeded"], ["try again later"], ["throttl"]]
  }

  function BadRecipient(): Pattern {
    [
      ["user unknown"], ["no such user"], ["mailbox unavailable"], ["does not exist"], ["invalid recipient"]]
  }

  function Policy(): Pattern {
    [["spam"], ["blocked"], ["blacklist"], ["reputation"], ["policy"], ["rejected due to"]]
  }

  function TooLarge(): Pattern {
    [["message too large"], ["size exceeds"], ["exceeds maximum"]]
  }

  function Greylisted(): Pattern {
    [["greylist"], ["greylisted"], ["temporarily deferred"], ["try again"]]
  }

  /** `code` of None matches any code. */
  datatype Rule = Rule(code: Option<int>, pattern: Pattern, verdict: Verdict)

  /** Ordered: the first rule that matches decides. */
  function Rules(): seq<Rule> {
    [
      Rule(Some(535), BadCredential(), Verdict(AuthFailure, false, true)),
      Rule(Some(550), NoSuchRecipient(), Verdict(RecipientRejected, false, false)),
      Rule(Some(550), LoginMismatch(), Verdict(SenderMismatch, false, true)),
      Rule(Some(550), IpRange(), Verdict(SenderUnauthorized, false, true)),
      Rule(None, OverLimit(), Verdict(RateLimited, true, false)),
      Rule(None, BadRecipient(), Verdict(RecipientRejected, false, false)),
      Rule(None, Policy(), Verdict(PolicyRejected, false, true)),
      Rule(None, TooLarge(), Verdict(MessageInvalid, false, false)),
      Rule(None, Greylisted(), Verdict(ProviderDeferral, true, false))]
  }

  predicate Applies(rule: Rule, code: int, text: string) {
    (rule.code.None? || rule.code.value == code) && Search(rule.pattern, text)
  }

  function FirstMatch(rules: seq<Rule>, code: int, text: string): Option<Verdict> {
    if rules == [] then None
    else if Applies(rules[0], code, text) then Some(rules[0].verdict)
    else FirstMatch(rules[1..], code, text)
  }

  function Classify(code: Option<int>, response: Option<string>): Verdict {
    var text := Strip(response.GetOr(""));
    if code.None? then Verdict(Connection, true, false)
    else
      match FirstMatch(Rules(), code.value, text)
      case Some(verdict) => verdict
      case None =>
        if 200 <= code.value < 300 then Verdict(Unknown, false, false)
        else if 400 <= code.value < 500 then Verdict(ProviderDeferral, true, false)
        else Verdict(Unknown, true, true)
  }

  // ---- What the table guarantees -----------------------------------------------------

  /** The table is a priority list: a verdict comes from rule `i` exactly when no earlier rule applies. */
  lemma {:induction false} FirstMatchIsLeast(rules: seq<Rule>, code: int, text: string)
    ensures match FirstMatch(rules, code, text)
            case None => forall i :: 0 <= i < |rules| ==> !Applies(rules[i], code, text)
            case Some(v) => exists i :: 0 <= i < |rules| && Applies(rules[i], code, text) && v == rules[i].verdict
                                        && forall j :: 0 <= j < i ==> !Applies(rules[j], code, text)
  {
    if rules != [] && !Applies(rules[0], code, text) {
      var rest := rules[1..];
      FirstMatchIsLeast(rest, code, text);
      match FirstMatch(rest, code, text)
      case None =>
        forall i | 0 <= i < |rules| ensures !Applies(rules[i], code, text) {
          assert i == 0 || rules[i] == rest[i - 1];
        }
      case Some(v) =>
        var i :| 0 <= i < |rest| && Applies(rest[i], code, text) && v == rest[i].verdict
                 && forall j :: 0 <= j < i ==> !Applies(rest[j], code, text);
        forall j | 0 <= j < i + 1 ensures !Applies(rules[j], code, text) {
          assert j == 0 || rules[j] == rest[j - 1];
        }
        assert rules[i + 1] == rest[i];
    }
  }

  predicate Terminal(verdict: Verdict) {
    !verdict.retryable
  }

  /** Some rule earlier than the over-limit rule applies. These four name one exact reply code each. */
  predicate NamedFatal(code: int, text: string) {
    || (code == 535 && Search(BadCredential(), text))
    || (code == 550 && (Search(NoSuchRecipient(), text) || Search(LoginMismatch(), text) || Search(IpRange(), text)))
  }

  /** A general rule that gives up. */
  predicate GenericFatal(text: string) {
    Search(BadRecipient(), text) || Search(Policy(), text) || Search(TooLarge(), text)
  }

  /** What the table computes, without its order: the two families of fatal wording around the over-limit wording. */
  lemma TableByCases(code: int, text: string)
    ensures FirstMatch(Rules(), code, text) ==
            if code == 535 && Search(BadCredential(), text) then Some(Rules()[0].verdict)
            else if code == 550 && Search(NoSuchRecipient(), text) then Some(Rules()[1].verdict)
            else if code == 550 && Search(LoginMismatch(), text) then Some(Rules()[2].verdict)
            else if code == 550 && Search(IpRange(), text) then Some(Rules()[3].verdict)
            else if Search(OverLimit(), text) then Some(Rules()[4].verdict)
            else if Search(BadRecipient(), text) then Some(Rules()[5].verdict)
            else if Search(Policy(), text) then Some(Rules()[6].verdict)
            else if Search(TooLarge(), text) then Some(Rules()[7].verdict)
            else if Search(Greylisted(), text) then Some(Rules()[8].verdict)
            else None
  {
    Unroll(0, code, text);
    Unroll(1, code, text);
    Unroll(2, code, text);
    Unroll(3, code, text);
    GeneralRules(code, text);
    assert Rules()[0..] == Rules();
  }

  lemma GeneralRules(code: int, text: string)
    ensures FirstMatch(Rules()[4..], code, text) ==
            if Search(OverLimit(), text) then Some(Rules()[4].verdict)
            else if Search(BadRecipient(), text) then Some(Rules()[5].verdict)
            else if Search(Policy(), text) then Some(Rules()[6].verdict)
            else if Search(TooLarge(), text) then Some(Rules()[7].verdict)
            else if Search(Greylisted(), text) then Some(Rules()[8].verdict)
            else None
  {
    Unroll(4, code, text);
    Unroll(5, code, text);
    Unroll(6, code, text);
    Unroll(7, code, text);
    Unroll(8, code, text);
    assert Rules()[9..] == [];
  }

  lemma Unroll(i: nat, code: int, text: string)
    requires i < |Rules()|
    ensures FirstMatch(Rules()[i..], code, text) ==
            if Applies(Rules()[i], code, text) then Some(Rules()[i].verdict)
            else FirstMatch(Rules()[i + 1..], code, text)
  {
    assert Rules()[i..][1..] == Rules()[i + 1..];
  }

  /** A reply on which a message is given up at once. */
  predicate Fatal(code: Option<int>, response: Option<string>) {
    var text := Strip(response.GetOr(""));
    code.Some? &&
    (|| NamedFatal(code.value, text)
     || (!Search(OverLimit(), text) && GenericFatal(text))
     || (200 <= code.value < 300 && !Search(OverLimit(), text) && !Search(Greylisted(), text)))
  }

  /**
    The safety net, exactly. The system gives a message up only when the provider answered with a
    code, and the wording is fatal by name, or fatal in general and not about the sending limit, or
    the code is an unmatched 2xx. Every other response, an unrecognised 5xx above all, is retried.
  */
  lemma GivesUpExactlyWhen(code: Option<int>, response: Option<string>)
    ensures Terminal(Classify(code, response)) <==> Fatal(code, response)
  {
    if code.Some? {
      TableByCases(code.value, Strip(response.GetOr("")));
    }
  }

  /**
    A 4xx is a deferral unless its wording is generically fatal: the text rules are consulted before
    the code (the codes 535 and 550 of the named rules are not 4xx).
  */
  lemma FourHundredsRetryUnless(code: int, response: Option<string>)
    requires 400 <= code < 500
    ensures var text := Strip(response.GetOr(""));
            Classify(Some(code), response).retryable <==> (Search(OverLimit(), text) || !GenericFatal(text))
  {
    TableByCases(code, Strip(response.GetOr("")));
  }

  /** Without a rule, an unfamiliar 5xx is never decided by the machine: retried, and flagged for a person. */
  lemma UnfamiliarIsFlagged(code: int, response: Option<string>)
    requires code >= 500
    requires forall i :: 0 <= i < |Rules()| ==> !Applies(Rules()[i], code, Strip(response.GetOr("")))
    ensures Classify(Some(code), response) == Verdict(Unknown, true, true)
  {
    FirstMatchIsLeast(Rules(), code, Strip(response.GetOr("")));
  }

  // ---- Evidence that an address is dead ----------------------------------------------

  function AddressIsDead(): Pattern {
    [
      ["no such recipient"], ["no such user"], ["user unknown"], ["unknown user"],
      ["mailbox unavailable"], ["mailbox not found"], ["mailbox does not exist"],
      ["recipient rejected"], ["recipient address rejected"],
      ["address does not exist"], ["address not found"],
      ["invalid recipient"], ["does not exist"]]
  }

  predicate ShouldSuppress(code: Option<int>, response: Option<string>, failureClass: FailureClass) {
    && failureClass == RecipientRejected
    && code.Some? && 500 <= code.value < 600
    && Search(AddressIsDead(), response.GetOr(""))
  }

  /** The worker's question: classify a refusal on its own terms, then ask whether to suppress. */
  predicate Condemns(code: Option<int>, response: Option<string>) {
    ShouldSuppress(code, response, Classify(code, response).failureClass)
  }

  /**
    An address is condemned by exactly these replies: a permanent reply (section 4.2.1 of RFC 5321)
    that names the recipient as nonexistent, and that is either the provider's own named 550 or, when
    no other named rejection and no wording about the sending limit takes precedence, a generic
    bad-recipient reply. Such a reply's own verdict is always final and needs no review.
  */
  lemma CondemnsExactlyTheDead(code: Option<int>, response: Option<string>)
    ensures var text := Strip(response.GetOr(""));
            Condemns(code, response) <==>
            && code.Some? && 500 <= code.value < 600
            && Search(AddressIsDead(), response.GetOr(""))
            && (|| (code.value == 550 && Search(NoSuchRecipient(), text))
                || (!NamedFatal(code.value, text) && !Search(OverLimit(), text) && Search(BadRecipient(), text)))
    ensures Condemns(code, response) ==>
              Terminal(Classify(code, response)) && !Classify(code, response).needsReview
  {
    if code.Some? {
      TableByCases(code.value, Strip(response.GetOr("")));
    }
  }
}
