/**
  The status of a domain when sweeps and provisionings overlap. Both read it when they start, wait for
  the provider and the DNS, and write at the end: a sweep only if it found something to change, and a
  provisioning only if it read a verified domain.
*/
module LifecycleRaces {
  import opened Prelude
  import opened Lifecycle

  /** One call: between its read and its write it holds what it has read so far. */
  datatype Call =
    | Idle
    | Looked(seen: Status)
    | Judged(seen: Status, report: Report, hasMailbox: bool)
    | Admitted(seen: Status)

  datatype State = State(domain: Domain, calls: seq<Call>)

  datatype Act =
    | Look(call: nat)
    | Judge(call: nat, report: Report)
    | Conclude(call: nat)
    | Admit(call: nat, distinctIdentity: bool)
    | Create(call: nat)
    | Quit(call: nat)
    | Stop

  predicate Enabled(s: State, act: Act) {
    match act
    case Look(i) => i < |s.calls| && s.calls[i].Idle?
    case Judge(i, report) => i < |s.calls| && s.calls[i].Looked? && Complete(report)
    case Conclude(i) => i < |s.calls| && s.calls[i].Judged?
    case Admit(i, distinct) => i < |s.calls| && s.calls[i].Idle? && Provisions(s.domain, true, distinct)
    case Create(i) => i < |s.calls| && s.calls[i].Admitted?
    case Quit(i) => i < |s.calls|
    case Stop => true
  }

  /** The status a sweep computes from what it read. */
  function Verdict(call: Call): Status
    requires call.Judged?
  {
    NextStatus(call.seen, call.report, call.hasMailbox)
  }

  /** `Admit` is `provision_mailbox` past its checks, `Quit` any call that fails, `Stop` an operator's suspension. */
  function Apply(s: State, act: Act): State
    requires Enabled(s, act)
  {
    match act
    case Look(i) => s.(calls := s.calls[i := Looked(s.domain.status)])
    case Judge(i, report) => s.(calls := s.calls[i := Judged(s.calls[i].seen, report, s.domain.mailboxes > 0)])
    case Conclude(i) =>
      var status := if Verdict(s.calls[i]) != s.calls[i].seen then Verdict(s.calls[i]) else s.domain.status;
      State(s.domain.(status := status), s.calls[i := Idle])
    case Admit(i, _) => s.(calls := s.calls[i := Admitted(s.domain.status)])
    case Create(i) =>
      var status := if s.calls[i].seen == Verified then Ready else s.domain.status;
      State(Domain(status, s.domain.mailboxes + 1), s.calls[i := Idle])
    case Quit(i) => s.(calls := s.calls[i := Idle])
    case Stop => s.(domain := s.domain.(status := Suspended))
  }

  datatype Race = Begin | Add(before: Race, act: Act)

  predicate Valid(calls: nat, race: Race)
    decreases race, 0
  {
    race.Add? ==> Valid(calls, race.before) && Enabled(After(calls, race.before), race.act)
  }

  function After(calls: nat, race: Race): (s: State)
    requires Valid(calls, race)
    decreases race, 1
  {
    match race
    case Begin => State(Domain(Added, 0), seq(calls, _ => Idle))
    case Add(before, act) => Apply(After(calls, before), act)
  }

  /** The last report that a sweep committed and that was not held. */
  function LastWord(calls: nat, race: Race): Option<Report>
    requires Valid(calls, race)
  {
    match race
    case Begin => None
    case Add(before, act) =>
      if act.Conclude? && !Held(After(calls, before).calls[act.call].report)
      then Some(After(calls, before).calls[act.call].report)
      else LastWord(calls, before)
  }

  // ---- Exactly when a sendable domain is a proven one --------------------------------

  /** What lets a domain send, or lacks only a mailbox, was proven by the last word on it. */
  predicate Trusted(status: Status, word: Option<Report>) {
    status == Ready || status == Verified ==> word.Some? && Proven(word.value)
  }

  predicate AlwaysTrusted(calls: nat, race: Race)
    requires Valid(calls, race)
  {
    && Trusted(After(calls, race).domain.status, LastWord(calls, race))
    && (race.Add? ==> AlwaysTrusted(calls, race.before))
  }

  /**
    No mailbox promotes a domain whose last word is against it by then, and no sweep that refutes it, but
    had found nothing to change, ends when somebody else has made it sendable.
  */
  predicate Guarded(s: State, act: Act, word: Option<Report>)
    requires Enabled(s, act)
  {
    match act
    case Create(i) => s.calls[i].seen == Verified ==> word.Some? && Proven(word.value)
    case Conclude(i) =>
      Refuted(s.calls[i].report) && Verdict(s.calls[i]) == s.calls[i].seen ==>
        s.domain.status != Ready && s.domain.status != Verified
    case _ => true
  }

  predicate AlwaysGuarded(calls: nat, race: Race)
    requires Valid(calls, race)
  {
    race.Add? ==>
      AlwaysGuarded(calls, race.before)
      && Guarded(After(calls, race.before), race.act, LastWord(calls, race.before))
  }

  /** Reports under judgement are complete ones. */
  predicate Informed(s: State) {
    forall i :: 0 <= i < |s.calls| && s.calls[i].Judged? ==> Complete(s.calls[i].report)
  }

  lemma {:induction false} RacesAreInformed(calls: nat, race: Race)
    requires Valid(calls, race)
    ensures Informed(After(calls, race))
  {
    if race.Add? {
      RacesAreInformed(calls, race.before);
    }
  }

  lemma ConcludesInTrustIff(s: State, i: nat, word: Option<Report>)
    requires Informed(s) && Enabled(s, Conclude(i)) && Trusted(s.domain.status, word)
    ensures var word' := if Held(s.calls[i].report) then word else Some(s.calls[i].report);
            Trusted(Apply(s, Conclude(i)).domain.status, word') <==> Guarded(s, Conclude(i), word)
  {
    var call := s.calls[i];
    if call.seen != Suspended {
      SweepDecides(call.seen, call.report, call.hasMailbox);
    } else {
      ProvenIsNotRefuted(call.report);
    }
  }

  lemma ProvenIsNotRefuted(report: Report)
    ensures !(Proven(report) && Refuted(report))
  {
  }

  /**
    However sweeps and provisionings overlap, a domain that may send is at every moment one that the last
    decisive sweep proved, if and only if these two kinds of stale write do not occur.
  */
  lemma {:induction false} TrustedIffGuarded(calls: nat, race: Race)
    requires Valid(calls, race)
    ensures AlwaysTrusted(calls, race) <==> AlwaysGuarded(calls, race)
  {
    if race.Add? {
      TrustedIffGuarded(calls, race.before);
      if AlwaysTrusted(calls, race.before) {
        RacesAreInformed(calls, race.before);
        if race.act.Conclude? {
          ConcludesInTrustIff(After(calls, race.before), race.act.call, LastWord(calls, race.before));
        }
      }
    }
  }

  // ---- Calls that write what they read -----------------------------------------------

  /** Nothing that a call has read has changed by the time it writes. */
  predicate Current(s: State, act: Act)
    requires Enabled(s, act)
  {
    match act
    case Conclude(i) => s.calls[i].seen == s.domain.status && s.calls[i].hasMailbox == (s.domain.mailboxes > 0)
    case Create(i) => s.calls[i].seen == s.domain.status
    case _ => true
  }

  predicate AlwaysCurrent(calls: nat, race: Race)
    requires Valid(calls, race)
  {
    race.Add? ==> AlwaysCurrent(calls, race.before) && Current(After(calls, race.before), race.act)
  }

  /** The writes of a race, as the calls of a sequential run. */
  function Serial(calls: nat, race: Race): Run
    requires Valid(calls, race)
  {
    match race
    case Begin => Start
    case Add(before, act) =>
      match act
      case Conclude(i) => Then(Serial(calls, before), Sweep(Some(After(calls, before).calls[i].report)))
      case Create(_) => Then(Serial(calls, before), Provision(true, true))
      case Stop => Then(Serial(calls, before), Suspend)
      case _ => Serial(calls, before)
  }

  /** A call only gets as far as creating a mailbox on a domain with ownership. */
  predicate Admitting(s: State) {
    forall i :: 0 <= i < |s.calls| && s.calls[i].Admitted? ==>
      s.calls[i].seen != Added && s.calls[i].seen != OwnershipPending
  }

  /** Then the race is as good as the sequential run of its writes, and everything proved of those holds of it. */
  lemma {:induction false} CurrentRacesAreSerial(calls: nat, race: Race)
    requires Valid(calls, race) && AlwaysCurrent(calls, race)
    ensures var serial := Serial(calls, race);
            && Lifecycle.Valid(serial)
            && After(calls, race).domain == Lifecycle.After(serial)
            && LastWord(calls, race) == Lifecycle.LastWord(serial)
    ensures Admitting(After(calls, race))
  {
    if race.Add? {
      CurrentRacesAreSerial(calls, race.before);
      RacesAreInformed(calls, race.before);
    }
  }

  /** In particular it is guarded. */
  lemma {:induction false} CurrentRacesAreTrusted(calls: nat, race: Race)
    requires Valid(calls, race) && AlwaysCurrent(calls, race)
    ensures AlwaysTrusted(calls, race) && AlwaysGuarded(calls, race)
  {
    CurrentRacesAreSerial(calls, race);
    ReadyIsProven(Serial(calls, race));
    if race.Add? {
      CurrentRacesAreTrusted(calls, race.before);
    }
    TrustedIffGuarded(calls, race);
  }

  // ---- Stale writes ------------------------------------------------------------------

  /** Taking one more step. */
  lemma Extend(calls: nat, race: Race, s: State, act: Act)
    requires Valid(calls, race) && After(calls, race) == s && Enabled(s, act)
    ensures Valid(calls, Add(race, act)) && After(calls, Add(race, act)) == Apply(s, act)
    ensures LastWord(calls, Add(race, act))
         == if act.Conclude? && !Held(s.calls[act.call].report) then Some(s.calls[act.call].report)
            else LastWord(calls, race)
  {
  }

  /** A sweep of an idle call: it reads, judges and concludes undisturbed. */
  function Swept(race: Race, report: Report): Race {
    Add(Add(Add(race, Look(0)), Judge(0, report)), Conclude(0))
  }

  lemma SweptLeads(race: Race, d: Domain, other: Call, report: Report)
    requires Valid(2, race) && After(2, race) == State(d, [Idle, other]) && Complete(report)
    ensures Valid(2, Swept(race, report))
    ensures After(2, Swept(race, report)) == State(Refreshed(d, Some(report)), [Idle, other])
    ensures !Held(report) ==> LastWord(2, Swept(race, report)) == Some(report)
  {
    var s0, s1 := State(d, [Idle, other]), State(d, [Looked(d.status), other]);
    var s2 := State(d, [Judged(d.status, report, d.mailboxes > 0), other]);
    Extend(2, race, s0, Look(0));
    assert Apply(s0, Look(0)) == s1;
    Extend(2, Add(race, Look(0)), s1, Judge(0, report));
    assert Apply(s1, Judge(0, report)) == s2;
    Extend(2, Add(Add(race, Look(0)), Judge(0, report)), s2, Conclude(0));
  }

  /** The domain is verified, a provisioning starts, a sweep refutes the domain, and the provisioning makes it ready. */
  lemma StaleProvisioningPromotes(proof: Report, refutation: Report)
    requires Complete(proof) && Proven(proof) && Complete(refutation) && Refuted(refutation)
    ensures var race := Add(Swept(Add(Swept(Begin, proof), Admit(1, false)), refutation), Create(1));
            && Valid(2, race)
            && After(2, race).domain.status == Ready
            && LastWord(2, race) == Some(refutation)
  {
    SweepDecides(Added, proof, false);
    SweepDecides(Verified, refutation, false);
    assert After(2, Begin) == State(Domain(Added, 0), [Idle, Idle]);
    SweptLeads(Begin, Domain(Added, 0), Idle, proof);
    var verified := Domain(Verified, 0);
    Extend(2, Swept(Begin, proof), State(verified, [Idle, Idle]), Admit(1, false));
    var admitted := Add(Swept(Begin, proof), Admit(1, false));
    assert After(2, admitted) == State(verified, [Idle, Admitted(Verified)]);
    SweptLeads(admitted, verified, Admitted(Verified), refutation);
    var refuted := Refreshed(verified, Some(refutation));
    Extend(2, Swept(admitted, refutation), State(refuted, [Idle, Admitted(Verified)]), Create(1));
  }

  /** A sweep that read the domain before an operator suspended it writes over the suspension. */
  lemma StaleSweepUnsuspends(proof: Report)
    requires Complete(proof) && Proven(proof)
    ensures var stopped := Add(Add(Add(Begin, Look(0)), Judge(0, proof)), Stop);
            && Valid(1, Add(stopped, Conclude(0)))
            && After(1, stopped).domain.status == Suspended
            && After(1, Add(stopped, Conclude(0))).domain.status == Verified
  {
    SweepDecides(Added, proof, false);
    var s0, s1 := State(Domain(Added, 0), [Idle]), State(Domain(Added, 0), [Looked(Added)]);
    var s2 := State(Domain(Added, 0), [Judged(Added, proof, false)]);
    var s3 := State(Domain(Suspended, 0), [Judged(Added, proof, false)]);
    assert After(1, Begin) == s0;
    Extend(1, Begin, s0, Look(0));
    assert Apply(s0, Look(0)) == s1;
    Extend(1, Add(Begin, Look(0)), s1, Judge(0, proof));
    assert Apply(s1, Judge(0, proof)) == s2;
    Extend(1, Add(Add(Begin, Look(0)), Judge(0, proof)), s2, Stop);
    Extend(1, Add(Add(Add(Begin, Look(0)), Judge(0, proof)), Stop), s3, Conclude(0));
  }
}
