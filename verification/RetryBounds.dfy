/**
  What holds of retries in every run at all, even where the reaper takes messages from live workers. A
  stamp counts from the number of attempts that its transaction loaded, and nothing locks the row, so
  a stamp is stale when the row has been stamped in between. Every bound is paid for in stale stamps.
*/
module RetryBounds {
  import opened Prelude
  import opened Messages
  import opened Protocol
  import Backoff
  import Verdicts

  // ---- What a step adds to a timeline ------------------------------------------------

  /** Step `step` records the outcome of an attempt of message `id`. */
  predicate Records(s: State, step: Step, id: nat) {
    step.Record? && step.worker < |s.workers| && s.workers[step.worker].flight.Answered?
    && s.workers[step.worker].flight.id == id
  }

  /** This step puts off the message it records, by exactly this event. */
  predicate Defers(c: Config, s: State, step: Step, id: nat, kind: Kind)
    requires Records(s, step, id)
  {
    var flight := s.workers[step.worker].flight;
    !flight.result.success && Retries(c.classify(flight.result), flight.attempt)
      && kind == Deferred(flight.attempt, step.delay)
  }

  /** This step gives the message up, by exactly this event. */
  predicate GivesUp(c: Config, s: State, step: Step, id: nat, kind: Kind)
    requires Records(s, step, id)
  {
    var flight := s.workers[step.worker].flight;
    var verdict := c.classify(flight.result);
    !flight.result.success && !Retries(verdict, flight.attempt)
      && kind == Failed(Outcome(flight.attempt, verdict.retryable))
  }

  /** `kind` is something that `step` may add to the timeline of message `id`. */
  predicate MayAdd(c: Config, s: State, step: Step, id: nat, kind: Kind) {
    && (kind.Deferred? ==> Records(s, step, id) && Defers(c, s, step, id, kind))
    && (kind.Failed? ==> if kind.cause.NoHost? then step.NoHost? && step.id == id
                         else Records(s, step, id) && GivesUp(c, s, step, id, kind))
    && (kind.RecipientSuppressed? ==> Records(s, step, id) && kind.address in step.suppressed)
  }

  /** `log'` continues `log` by such events, at most one of them a deferral. */
  predicate Continues(c: Config, s: State, step: Step, id: nat, log: seq<Event>, log': seq<Event>) {
    && |log| <= |log'|
    && (forall i :: 0 <= i < |log| ==> log'[i] == log[i])
    && (forall i :: |log| <= i < |log'| ==> MayAdd(c, s, step, id, log'[i].kind))
    && (forall i, j :: |log| <= i < j < |log'| ==> !(log'[i].kind.Deferred? && log'[j].kind.Deferred?))
  }

  lemma {:induction false} SuppressionsOnly(log: seq<Event>, addresses: seq<string>, now: Time)
    ensures var log' := EmitSuppressed(log, addresses, now);
            && |log| <= |log'|
            && (forall i :: 0 <= i < |log| ==> log'[i] == log[i])
            && (forall i :: |log| <= i < |log'| ==>
                  log'[i].kind.RecipientSuppressed? && log'[i].kind.address in addresses)
  {
    if addresses != [] {
      var shorter := addresses[..|addresses| - 1];
      SuppressionsOnly(log, shorter, now);
      assert forall a :: a in shorter ==> a in addresses;
    }
  }

  lemma RecordContinues(c: Config, s: State, step: Step, id: nat)
    requires References(c, s) && Enabled(c, s, step) && id < |s.rows| && Records(s, step, id)
    ensures Continues(c, s, step, id, s.logs[id], Apply(c, s, step).logs[id])
  {
    var flight := s.workers[step.worker].flight;
    var recorded := RecordLog(s.logs[id], flight.result, c.classify(flight.result), flight.attempt, step.delay, s.now);
    SuppressionsOnly(recorded, step.suppressed, s.now);
  }

  lemma StepContinues(c: Config, s: State, step: Step, id: nat)
    requires References(c, s) && Enabled(c, s, step) && id < |s.rows|
    ensures id < |Apply(c, s, step).logs|
    ensures Continues(c, s, step, id, s.logs[id], Apply(c, s, step).logs[id])
  {
    if Records(s, step, id) {
      RecordContinues(c, s, step, id);
    }
  }

  // ---- Counting events ---------------------------------------------------------------

  function Tally(log: seq<Event>, p: Kind -> bool): nat {
    if log == [] then 0 else Tally(log[..|log| - 1], p) + if p(log[|log| - 1].kind) then 1 else 0
  }

  function StampOf(k: nat): Kind -> bool {
    (kind: Kind) => kind == Attempt(k)
  }

  function DeferralOf(k: nat): Kind -> bool {
    (kind: Kind) => kind.Deferred? && kind.attempt == k
  }

  /** How often attempt number `k` was stamped, and how often it was put off. */
  function Stamps(log: seq<Event>, k: nat): nat {
    Tally(log, StampOf(k))
  }

  function Puts(log: seq<Event>, k: nat): nat {
    Tally(log, DeferralOf(k))
  }

  lemma TallyEmit(log: seq<Event>, kind: Kind, now: Time, p: Kind -> bool)
    ensures Tally(Emit(log, kind, now), p) == Tally(log, p) + if p(kind) then 1 else 0
  {
    assert Emit(log, kind, now)[..|log|] == log;
  }

  lemma {:induction false} TallySuppressed(log: seq<Event>, addresses: seq<string>, now: Time, p: Kind -> bool)
    requires forall address :: !p(RecipientSuppressed(address))
    ensures Tally(EmitSuppressed(log, addresses, now), p) == Tally(log, p)
  {
    if addresses != [] {
      var n := |addresses| - 1;
      TallySuppressed(log, addresses[..n], now, p);
      TallyEmit(EmitSuppressed(log, addresses[..n], now), RecipientSuppressed(addresses[n]), now, p);
    }
  }

  lemma {:induction false} OneIsCounted(log: seq<Event>, p: Kind -> bool, i: nat)
    requires i < |log| && p(log[i].kind)
    ensures Tally(log, p) >= 1
  {
    if i < |log| - 1 {
      OneIsCounted(log[..|log| - 1], p, i);
    }
  }

  lemma {:induction false} TwoAreCounted(log: seq<Event>, p: Kind -> bool, i: nat, j: nat)
    requires i < j < |log| && p(log[i].kind) && p(log[j].kind)
    ensures Tally(log, p) >= 2
  {
    if j < |log| - 1 {
      TwoAreCounted(log[..|log| - 1], p, i, j);
    } else {
      OneIsCounted(log[..j], p, i);
    }
  }

  lemma {:induction false} CountedIsThere(log: seq<Event>, p: Kind -> bool) returns (i: nat)
    requires Tally(log, p) >= 1
    ensures i < |log| && p(log[i].kind)
  {
    var n := |log| - 1;
    if p(log[n].kind) {
      i := n;
    } else {
      i := CountedIsThere(log[..n], p);
    }
  }

  // ---- Flights -----------------------------------------------------------------------

  predicate Flies(local: Local, id: nat, k: nat) {
    Airborne(local.flight, id) && local.flight.attempt == k
  }

  /** How many workers are flying attempt `k` of message `id`. */
  function Flying(workers: seq<Local>, id: nat, k: nat): nat {
    if workers == [] then 0
    else Flying(workers[..|workers| - 1], id, k) + if Flies(workers[|workers| - 1], id, k) then 1 else 0
  }

  lemma {:induction false} FlyingUpdate(workers: seq<Local>, w: nat, local: Local, id: nat, k: nat)
    requires w < |workers|
    ensures Flying(workers[w := local], id, k) + (if Flies(workers[w], id, k) then 1 else 0)
         == Flying(workers, id, k) + (if Flies(local, id, k) then 1 else 0)
  {
    var n := |workers| - 1;
    if w == n {
      assert workers[w := local][..n] == workers[..n];
    } else {
      assert workers[w := local][..n] == workers[..n][w := local];
      FlyingUpdate(workers[..n], w, local, id, k);
    }
  }

  lemma {:induction false} NobodyFlies(workers: seq<Local>, id: nat, k: nat)
    requires forall w :: 0 <= w < |workers| ==> !Flies(workers[w], id, k)
    ensures Flying(workers, id, k) == 0
  {
    if workers != [] {
      NobodyFlies(workers[..|workers| - 1], id, k);
    }
  }

  // ---- Stale stamps ------------------------------------------------------------------

  /** This step stamps an attempt of message `id`. */
  predicate StampsOn(s: State, step: Step, id: nat) {
    step.Stamp? && step.worker < |s.workers| && s.workers[step.worker].flight.Cleared?
    && s.workers[step.worker].flight.id == id
  }

  /** It counts from a number of attempts that is no longer the row's. */
  predicate StaleStamp(s: State, step: Step, id: nat) {
    StampsOn(s, step, id) && id < |s.rows| && s.workers[step.worker].flight.seen != s.rows[id].attempts
  }

  function Stale(c: Config, run: Run, id: nat): nat
    requires Valid(c, run)
  {
    match run
    case Start => 0
    case Then(before, step) => Stale(c, before, id) + if StaleStamp(After(c, before), step, id) then 1 else 0
  }

  /** This step stamps number `k` on message `id`. */
  predicate StampsAs(s: State, step: Step, id: nat, k: nat) {
    StampsOn(s, step, id) && s.workers[step.worker].flight.seen + 1 == k
  }

  // ---- What one step does to the counts ----------------------------------------------

  predicate Pays(c: Config, s: State, step: Step, id: nat, k: nat)
    requires References(c, s) && Enabled(c, s, step) && id < |s.rows|
  {
    var s' := Apply(c, s, step);
    && id < |s'.rows| == |s'.logs|
    && Stamps(s'.logs[id], k) == Stamps(s.logs[id], k) + (if StampsAs(s, step, id, k) then 1 else 0)
    && s'.rows[id].attempts ==
         (if StampsOn(s, step, id) then s.workers[step.worker].flight.seen + 1 else s.rows[id].attempts)
    && Puts(s'.logs[id], k) + Flying(s'.workers, id, k)
       <= Puts(s.logs[id], k) + Flying(s.workers, id, k) + (if StampsAs(s, step, id, k) then 1 else 0)
  }

  lemma StampPays(c: Config, s: State, step: Step, id: nat, k: nat)
    requires References(c, s) && Enabled(c, s, step) && id < |s.rows| && step.Stamp?
    ensures Pays(c, s, step, id, k)
  {
    var flight := s.workers[step.worker].flight;
    var local := Local(s.workers[step.worker].batch, OnWire(flight.id, flight.seen + 1, flight.body, s.now));
    assert Apply(c, s, step).workers == s.workers[step.worker := local];
    FlyingUpdate(s.workers, step.worker, local, id, k);
    StampTallies(s.logs[flight.id], flight.seen + 1, s.now, k);
  }

  lemma StampTallies(log: seq<Event>, number: nat, now: Time, k: nat)
    ensures Stamps(Emit(log, Attempt(number), now), k) == Stamps(log, k) + if number == k then 1 else 0
    ensures Puts(Emit(log, Attempt(number), now), k) == Puts(log, k)
  {
    TallyEmit(log, Attempt(number), now, StampOf(k));
    TallyEmit(log, Attempt(number), now, DeferralOf(k));
  }

  /** A recorded attempt has landed, so that putting it off is paid for. */
  lemma RecordPays(c: Config, s: State, step: Step, id: nat, k: nat)
    requires References(c, s) && Enabled(c, s, step) && id < |s.rows| && step.Record?
    ensures Pays(c, s, step, id, k)
  {
    var s' := Apply(c, s, step);
    var flight := s.workers[step.worker].flight;
    FlyingUpdate(s.workers, step.worker, s'.workers[step.worker], id, k);
    if flight.id == id {
      RecordTallies(
        s.logs[id], flight.result, c.classify(flight.result), flight.attempt, step.delay, step.suppressed, s.now, k);
    }
  }

  lemma RecordTallies(
    log: seq<Event>, result: DeliveryResult, verdict: Verdicts.Verdict, attempt: nat, delay: real,
    suppressed: seq<string>, now: Time, k: nat)
    ensures var log' := EmitSuppressed(RecordLog(log, result, verdict, attempt, delay, now), suppressed, now);
            && Stamps(log', k) == Stamps(log, k)
            && Puts(log', k) <= Puts(log, k) + if attempt == k then 1 else 0
  {
    var recorded := RecordLog(log, result, verdict, attempt, delay, now);
    TallySuppressed(recorded, suppressed, now, StampOf(k));
    TallySuppressed(recorded, suppressed, now, DeferralOf(k));
    RecordTally(log, result, verdict, attempt, delay, now, StampOf(k));
    RecordTally(log, result, verdict, attempt, delay, now, DeferralOf(k));
  }

  lemma RecordTally(
    log: seq<Event>, result: DeliveryResult, verdict: Verdicts.Verdict, attempt: nat, delay: real, now: Time,
    p: Kind -> bool)
    requires !p(PartialDelivery) && !p(ProviderAccepted) && forall cause :: !p(Failed(cause))
    ensures Tally(RecordLog(log, result, verdict, attempt, delay, now), p)
         <= Tally(log, p) + if p(Deferred(attempt, delay)) then 1 else 0
    ensures Tally(RecordLog(log, result, verdict, attempt, delay, now), p) >= Tally(log, p)
  {
    if !result.success {
      TallyEmit(log, if Retries(verdict, attempt) then Deferred(attempt, delay)
                     else Failed(Outcome(attempt, verdict.retryable)), now, p);
    } else if result.Partial() {
      TallyEmit(log, PartialDelivery, now, p);
      TallyEmit(Emit(log, PartialDelivery, now), ProviderAccepted, now, p);
    } else {
      TallyEmit(log, ProviderAccepted, now, p);
    }
  }

  lemma AnswerPays(c: Config, s: State, step: Step, id: nat, k: nat)
    requires References(c, s) && Enabled(c, s, step) && id < |s.rows| && (step.Gate? || step.NoHost?)
    ensures Pays(c, s, step, id, k)
  {
    var s' := Apply(c, s, step);
    FlyingUpdate(s.workers, step.worker, s'.workers[step.worker], id, k);
    if step.id == id {
      var kind := s'.logs[id][|s.logs[id]|].kind;
      TallyEmit(s.logs[id], kind, s.now, StampOf(k));
      TallyEmit(s.logs[id], kind, s.now, DeferralOf(k));
    }
  }

  lemma QuietPays(c: Config, s: State, step: Step, id: nat, k: nat)
    requires References(c, s) && Enabled(c, s, step) && id < |s.rows|
    requires !step.Stamp? && !step.Record? && !step.Gate? && !step.NoHost?
    ensures Pays(c, s, step, id, k)
  {
    var s' := Apply(c, s, step);
    if !step.Tick? && !step.Ingest? && !step.Reap? && !step.Purge? {
      FlyingUpdate(s.workers, step.worker, s'.workers[step.worker], id, k);
    }
  }

  lemma StepPays(c: Config, s: State, step: Step, id: nat, k: nat)
    requires References(c, s) && Enabled(c, s, step) && id < |s.rows|
    ensures Pays(c, s, step, id, k)
  {
    match step
    case Stamp(_) => StampPays(c, s, step, id, k);
    case Record(_, _, _) => RecordPays(c, s, step, id, k);
    case Gate(_, _) => AnswerPays(c, s, step, id, k);
    case NoHost(_, _) => AnswerPays(c, s, step, id, k);
    case _ => QuietPays(c, s, step, id, k);
  }

  // ---- Every run ---------------------------------------------------------------------

  /**
    Attempt `k` was stamped once, and once more for each stale stamp; and it is put off or in the air no
    more often than it was stamped.
  */
  predicate Paid(s: State, id: nat, stale: nat, k: nat)
    requires id < |s.rows| == |s.logs|
  {
    && Stamps(s.logs[id], k) <= stale + (if k <= s.rows[id].attempts then 1 else 0)
    && Puts(s.logs[id], k) + Flying(s.workers, id, k) <= Stamps(s.logs[id], k)
  }

  lemma {:induction false} RunsPay(c: Config, run: Run, id: nat, k: nat)
    requires Valid(c, run) && id < |After(c, run).rows|
    ensures References(c, After(c, run)) && Paid(After(c, run), id, Stale(c, run, id), k)
  {
    RunsHaveReferences(c, run);
    var s, step := After(c, run.before), run.step;
    RunsHaveReferences(c, run.before);
    if id < |s.rows| {
      RunsPay(c, run.before, id, k);
      StepPays(c, s, step, id, k);
    } else {
      NewPays(c, s, step, id, k);
    }
  }

  lemma NewPays(c: Config, s: State, step: Step, id: nat, k: nat)
    requires References(c, s) && Enabled(c, s, step) && |s.rows| <= id < |Apply(c, s, step).rows|
    requires References(c, Apply(c, s, step))
    ensures Paid(Apply(c, s, step), id, 0, k)
  {
    var s' := Apply(c, s, step);
    TallyEmit([], ApiAccepted, s.now, StampOf(k));
    TallyEmit(Emit([], ApiAccepted, s.now), MessageQueued, s.now, StampOf(k));
    TallyEmit([], ApiAccepted, s.now, DeferralOf(k));
    TallyEmit(Emit([], ApiAccepted, s.now), MessageQueued, s.now, DeferralOf(k));
    NobodyFlies(s'.workers, id, k);
  }

  // ---- Numbers -----------------------------------------------------------------------

  /** No two attempts in the timeline have one number. */
  predicate NumbersDiffer(log: seq<Event>) {
    forall i, j :: 0 <= i < j < |log| && log[i].kind.Attempt? && log[j].kind.Attempt? ==>
                     log[i].kind.number != log[j].kind.number
  }

  /** Every number up to the row's count was stamped, and nobody is about to stamp from a larger count. */
  ghost predicate Complete(s: State, id: nat)
    requires id < |s.rows| == |s.logs|
  {
    && (forall k: nat :: 1 <= k <= s.rows[id].attempts ==> Stamps(s.logs[id], k) >= 1)
    && (forall w :: 0 <= w < |s.workers| && s.workers[w].flight.Cleared? && s.workers[w].flight.id == id ==>
          s.workers[w].flight.seen <= s.rows[id].attempts)
  }

  lemma StepKeepsComplete(c: Config, s: State, step: Step, id: nat)
    requires References(c, s) && Enabled(c, s, step) && id < |s.rows| && Complete(s, id) && !StaleStamp(s, step, id)
    requires References(c, Apply(c, s, step)) && id < |Apply(c, s, step).rows|
    ensures Complete(Apply(c, s, step), id)
  {
    var s' := Apply(c, s, step);
    forall k: nat | 1 <= k <= s'.rows[id].attempts ensures Stamps(s'.logs[id], k) >= 1 {
      StepPays(c, s, step, id, k);
    }
    StepPays(c, s, step, id, 1);
    SeenStays(c, s, step, id);
  }

  lemma SeenStays(c: Config, s: State, step: Step, id: nat)
    requires References(c, s) && Enabled(c, s, step) && id < |s.rows| && Complete(s, id)
    requires id < |Apply(c, s, step).rows| && s.rows[id].attempts <= Apply(c, s, step).rows[id].attempts
    ensures var s' := Apply(c, s, step);
            forall w :: 0 <= w < |s'.workers| && s'.workers[w].flight.Cleared? && s'.workers[w].flight.id == id ==>
              s'.workers[w].flight.seen <= s'.rows[id].attempts
  {
  }

  lemma {:induction false} FreshRunsAreComplete(c: Config, run: Run, id: nat)
    requires Valid(c, run) && id < |After(c, run).rows| && Stale(c, run, id) == 0
    ensures References(c, After(c, run)) && Complete(After(c, run), id)
  {
    RunsHaveReferences(c, run);
    var s := After(c, run.before);
    RunsHaveReferences(c, run.before);
    if id < |s.rows| {
      FreshRunsAreComplete(c, run.before, id);
      StepKeepsComplete(c, s, run.step, id);
    } else {
      assert forall w :: 0 <= w < |s.workers| ==> After(c, run).workers[w] == s.workers[w];
    }
  }

  /**
    The numbers stamped on a message are pairwise different if and only if every stamp found the count
    that its check had loaded.
  */
  lemma {:induction false} NumbersDifferIff(c: Config, run: Run, id: nat)
    requires Valid(c, run) && id < |After(c, run).rows|
    ensures References(c, After(c, run))
    ensures NumbersDiffer(After(c, run).logs[id]) <==> Stale(c, run, id) == 0
  {
    RunsHaveReferences(c, run);
    var log := After(c, run).logs[id];
    if Stale(c, run, id) == 0 {
      forall i, j | 0 <= i < j < |log| && log[i].kind.Attempt? && log[j].kind.Attempt?
        ensures log[i].kind.number != log[j].kind.number
      {
        SameNumberTwice(c, run, id, i, j);
      }
    } else {
      StaleRepeats(c, run, id);
    }
  }

  lemma SameNumberTwice(c: Config, run: Run, id: nat, i: nat, j: nat)
    requires Valid(c, run) && id < |After(c, run).rows| && Stale(c, run, id) == 0 && References(c, After(c, run))
    requires var log := After(c, run).logs[id]; i < j < |log| && log[i].kind.Attempt? && log[j].kind.Attempt?
    ensures After(c, run).logs[id][i].kind.number != After(c, run).logs[id][j].kind.number
  {
    var log := After(c, run).logs[id];
    var k := log[i].kind.number;
    if log[j].kind.number == k {
      TwoAreCounted(log, StampOf(k), i, j);
      RunsPay(c, run, id, k);
    }
  }

  /** The first stale stamp repeats a number, and what is in the timeline stays there. */
  lemma {:induction false} StaleRepeats(c: Config, run: Run, id: nat)
    requires Valid(c, run) && id < |After(c, run).rows| && Stale(c, run, id) > 0 && References(c, After(c, run))
    ensures !NumbersDiffer(After(c, run).logs[id])
  {
    var s, s' := After(c, run.before), After(c, run);
    RunsHaveReferences(c, run.before);
    if id < |s.rows| {
      var log, log' := s.logs[id], s'.logs[id];
      StepContinues(c, s, run.step, id);
      if Stale(c, run.before, id) > 0 {
        StaleRepeats(c, run.before, id);
        var i, j :| 0 <= i < j < |log| && log[i].kind.Attempt? && log[j].kind.Attempt?
          && log[i].kind.number == log[j].kind.number;
        assert log'[i] == log[i] && log'[j] == log[j];
      } else {
        FreshRunsAreComplete(c, run.before, id);
        FirstStaleRepeats(c, s, run.step, id);
      }
    } else {
      NotYetStale(c, run.before, id);
    }
  }

  lemma FirstStaleRepeats(c: Config, s: State, step: Step, id: nat)
    requires References(c, s) && Enabled(c, s, step) && id < |s.rows| && Complete(s, id) && StaleStamp(s, step, id)
    ensures id < |Apply(c, s, step).logs| && !NumbersDiffer(Apply(c, s, step).logs[id])
  {
    var log, log' := s.logs[id], Apply(c, s, step).logs[id];
    var k := s.workers[step.worker].flight.seen + 1;
    assert Stamps(log, k) >= 1;
    var i := CountedIsThere(log, StampOf(k));
    assert log' == log + [Event(MaxSequence(log) + 1, Attempt(k), s.now)];
    assert log'[i].kind == Attempt(k) && log'[|log|].kind == Attempt(k);
  }

  lemma {:induction false} NotYetStale(c: Config, run: Run, id: nat)
    requires Valid(c, run) && id >= |After(c, run).rows|
    ensures Stale(c, run, id) == 0
  {
    if run.Then? {
      NotYetStale(c, run.before, id);
    }
  }

  // ---- Deferrals ---------------------------------------------------------------------

  /** Deferrals are of numbered attempts below the limit, with delays those attempts allow. */
  predicate Allowed(log: seq<Event>) {
    forall i :: 0 <= i < |log| && log[i].kind.Deferred? ==>
                  && 1 <= log[i].kind.attempt < Backoff.MAX_ATTEMPTS
                  && Backoff.Possible(log[i].kind.attempt, log[i].kind.delay)
  }

  /** Every rejection has a stated reason, and a person is told unless the verdict was final. */
  predicate Reasoned(s: State, id: nat)
    requires id < |s.rows| == |s.logs|
  {
    forall i :: 0 <= i < |s.logs[id]| && s.logs[id][i].kind.Failed? ==>
                  && Justified(s.logs[id][i].kind.cause)
                  && (NeedsHuman(s.logs[id][i].kind.cause) ==> s.rows[id].needsReview)
  }

  /** The only grounds on which a message is given up. */
  predicate Justified(cause: Cause) {
    cause.NoHost? || !cause.retryable || cause.attempt >= Backoff.MAX_ATTEMPTS
  }

  /** The causes that a person must look at. */
  predicate NeedsHuman(cause: Cause) {
    cause.NoHost? || cause.retryable
  }

  /** Attempts in the air are numbered from one. */
  predicate Numbering(s: State) {
    forall w :: 0 <= w < |s.workers| && (s.workers[w].flight.OnWire? || s.workers[w].flight.Answered?) ==>
                  s.workers[w].flight.attempt >= 1
  }

  lemma StepKeepsNumbering(c: Config, s: State, step: Step)
    requires Enabled(c, s, step) && Numbering(s)
    ensures Numbering(Apply(c, s, step))
  {
  }

  predicate Decided(s: State, id: nat)
    requires id < |s.rows| == |s.logs|
  {
    Allowed(s.logs[id]) && Reasoned(s, id)
  }

  lemma StepKeepsDecided(c: Config, s: State, step: Step, id: nat)
    requires References(c, s) && Enabled(c, s, step) && id < |s.rows| && Decided(s, id) && Numbering(s)
    requires References(c, Apply(c, s, step)) && id < |Apply(c, s, step).rows|
    ensures Decided(Apply(c, s, step), id)
  {
    StepContinues(c, s, step, id);
    ReviewStays(c, s, step, id);
  }

  lemma ReviewStays(c: Config, s: State, step: Step, id: nat)
    requires References(c, s) && Enabled(c, s, step) && id < |s.rows| && id < |Apply(c, s, step).rows|
    ensures s.rows[id].needsReview ==> Apply(c, s, step).rows[id].needsReview
  {
  }

  lemma {:induction false} RunsAreDecided(c: Config, run: Run, id: nat)
    requires Valid(c, run)
    ensures References(c, After(c, run)) && Numbering(After(c, run))
    ensures id < |After(c, run).rows| ==> Decided(After(c, run), id)
  {
    RunsHaveReferences(c, run);
    if run.Then? {
      var s, s' := After(c, run.before), After(c, run);
      RunsAreDecided(c, run.before, id);
      StepKeepsNumbering(c, s, run.step);
      if id < |s.rows| {
        StepKeepsDecided(c, s, run.step, id);
      } else if id < |s'.rows| {
        assert forall i :: 0 <= i < |s'.logs[id]| ==> !s'.logs[id][i].kind.Deferred? && !s'.logs[id][i].kind.Failed?;
      }
    }
  }

  // ---- Adding up ---------------------------------------------------------------------

  /** Deferrals of the attempts 1 to n, and the most that their delays can add up to. */
  function Number(log: seq<Event>, n: nat): nat {
    if n == 0 then 0 else Number(log, n - 1) + Puts(log, n)
  }

  function Repeat(times: nat, cost: real): real {
    if times == 0 then 0.0 else Repeat(times - 1, cost) + cost
  }

  function Most(log: seq<Event>, n: nat): real {
    if n == 0 then 0.0 else Most(log, n - 1) + Repeat(Puts(log, n), Backoff.Longest(n))
  }

  lemma {:induction false} OneMore(log: seq<Event>, e: Event, n: nat)
    ensures Number(log + [e], n) == Number(log, n) + if e.kind.Deferred? && 1 <= e.kind.attempt <= n then 1 else 0
    ensures Most(log + [e], n) == Most(log, n) + if e.kind.Deferred? && 1 <= e.kind.attempt <= n
                                                 then Backoff.Longest(e.kind.attempt) else 0.0
  {
    if n > 0 {
      OneMore(log, e, n - 1);
      assert (log + [e])[..|log|] == log;
    }
  }

  /** Allowed deferrals are all counted, and wait no longer than the schedule allows. */
  lemma {:induction false} DeferralsAddUp(log: seq<Event>)
    requires Allowed(log)
    ensures Deferrals(log) == Number(log, 7) && Backlog(log) <= Most(log, 7)
  {
    if log == [] {
      NothingPut(7);
    } else {
      var n := |log| - 1;
      assert forall i :: 0 <= i < n ==> log[..n][i] == log[i];
      DeferralsAddUp(log[..n]);
      OneMore(log[..n], log[n], 7);
      assert log == log[..n] + [log[n]];
    }
  }

  lemma {:induction false} NothingPut(n: nat)
    ensures Number([], n) == 0 && Most([], n) == 0.0
  {
    if n > 0 {
      NothingPut(n - 1);
    }
  }

  /** If each attempt is put off at most so often, all of them are at most that many times the schedule. */
  lemma {:induction false} AtMostEach(log: seq<Event>, n: nat, times: nat)
    requires forall k: nat :: 1 <= k <= n ==> Puts(log, k) <= times
    ensures Number(log, n) <= n * times
  {
    if n > 0 {
      AtMostEach(log, n - 1, times);
      assert n * times == (n - 1) * times + times;
    }
  }

  lemma {:induction false} CostsAtMost(log: seq<Event>, n: nat, times: nat)
    requires forall k: nat :: 1 <= k <= n ==> Puts(log, k) <= times
    ensures Most(log, n) <= Repeat(times, Backoff.Budget(n))
  {
    if n == 0 {
      RepeatMeans(times, 0.0, 0.0);
    } else {
      CostsAtMost(log, n - 1, times);
      RepeatGrows(Puts(log, n), times, Backoff.Longest(n));
      RepeatMeans(times, Backoff.Budget(n - 1), Backoff.Longest(n));
    }
  }

  lemma {:induction false} RepeatGrows(a: nat, b: nat, cost: real)
    requires a <= b && cost >= 0.0
    ensures Repeat(a, cost) <= Repeat(b, cost)
  {
    if a < b {
      RepeatGrows(a, b - 1, cost);
    }
  }

  lemma {:induction false} RepeatMeans(times: nat, a: real, b: real)
    ensures Repeat(times, a + b) == Repeat(times, a) + Repeat(times, b)
    ensures Repeat(times, 0.0) == 0.0
    ensures Repeat(times, 89460.0) == times as real * 89460.0
  {
    if times > 0 {
      RepeatMeans(times - 1, a, b);
    }
  }

  /** In every run: at most seven deferrals, waiting 89,460 seconds, and as much again for each stale stamp. */
  lemma DeferralsArePaidFor(c: Config, run: Run, id: nat)
    requires Valid(c, run) && id < |After(c, run).rows|
    ensures References(c, After(c, run))
    ensures var log, times := After(c, run).logs[id], 1 + Stale(c, run, id);
            Deferrals(log) <= 7 * times && Backlog(log) <= times as real * 89460.0
  {
    RunsAreDecided(c, run, id);
    var log, times := After(c, run).logs[id], 1 + Stale(c, run, id);
    forall k: nat ensures Puts(log, k) <= times {
      RunsPay(c, run, id, k);
    }
    DeferralsAddUp(log);
    AtMostEach(log, 7, times);
    CostsAtMost(log, 7, times);
    RepeatMeans(times, 0.0, 0.0);
    Backoff.WholeSchedule();
  }

  /** Without stale stamps each attempt is put off at most once, and a later attempt waits longer. */
  lemma FreshDeferralsDiffer(c: Config, run: Run, id: nat, i: nat, j: nat)
    requires Valid(c, run) && id < |After(c, run).rows| && Stale(c, run, id) == 0 && References(c, After(c, run))
    requires i < |After(c, run).logs[id]| && j < |After(c, run).logs[id]| && i != j
    requires After(c, run).logs[id][i].kind.Deferred? && After(c, run).logs[id][j].kind.Deferred?
    ensures var a, b := After(c, run).logs[id][i].kind, After(c, run).logs[id][j].kind;
            a.attempt != b.attempt && (a.attempt < b.attempt ==> a.delay < b.delay)
  {
    RunsAreDecided(c, run, id);
    var log := After(c, run).logs[id];
    var a, b := log[i].kind, log[j].kind;
    if a.attempt == b.attempt {
      TwoAreCounted(log, DeferralOf(a.attempt), if i < j then i else j, if i < j then j else i);
      RunsPay(c, run, id, a.attempt);
      assert false;
    }
    if a.attempt < b.attempt {
      Backoff.DelaysStrictlyIncrease(a.attempt, b.attempt, a.delay, b.delay);
    }
  }
}
