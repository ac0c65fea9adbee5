/**
  The timeline of a message says when everything happened, and when the message is due again: in every
  run, stolen claims included, the time columns of a row can be read off its events, reaps aside.
*/
module Timetable {
  import opened Prelude
  import opened Messages
  import opened Verdicts
  import opened Protocol
  import opened RetryBounds
  import Budget

  // ---- What a step writes to a timeline ----------------------------------------------

  /** The events of an outcome, before the suppressions. */
  function OutcomeKinds(result: DeliveryResult, verdict: Verdict, attempt: nat, delay: real): seq<Kind> {
    if result.success then
      (if result.refused != [] && result.accepted != [] then [PartialDelivery] else []) + [ProviderAccepted]
    else if verdict.retryable && attempt < 8 then [Deferred(attempt, delay)]
    else [Failed(Outcome(attempt, verdict.retryable))]
  }

  function Suppressions(addresses: seq<string>): (r: seq<Kind>)
    ensures |r| == |addresses|
    ensures forall i :: 0 <= i < |addresses| ==> r[i] == RecipientSuppressed(addresses[i])
  {
    seq(|addresses|, i requires 0 <= i < |addresses| => RecipientSuppressed(addresses[i]))
  }

  /** What step `step` adds to the timeline of message `id`. */
  function Adds(c: Config, s: State, step: Step, id: nat): seq<Kind>
    requires References(c, s) && Enabled(c, s, step) && id < |s.rows|
  {
    match step
    case Gate(_, j) =>
      if j != id then []
      else [RateGated(UsedNow(s, id), Ceiling(c, s.rows[id].mailbox),
                      Budget.NextWindowOpening(s.rows, s.rows[id].mailbox, s.now))]
    case NoHost(_, j) => if j != id then [] else [Failed(Cause.NoHost)]
    case Stamp(w) =>
      if s.workers[w].flight.id != id then [] else [Attempt(s.workers[w].flight.seen + 1)]
    case Record(w, delay, suppressed) =>
      var flight := s.workers[w].flight;
      if flight.id != id then []
      else OutcomeKinds(flight.result, c.classify(flight.result), flight.attempt, delay) + Suppressions(suppressed)
    case _ => []
  }

  /** `log'` is `log` and then events of these kinds, all of them of this moment. */
  predicate Grown(log: seq<Event>, kinds: seq<Kind>, now: Time, log': seq<Event>) {
    && |log'| == |log| + |kinds|
    && (forall i :: 0 <= i < |log| ==> log'[i] == log[i])
    && (forall i :: |log| <= i < |log'| ==> log'[i].kind == kinds[i - |log|] && log'[i].at == now)
  }

  lemma GrownOn(log: seq<Event>, kinds: seq<Kind>, now: Time, log': seq<Event>, more: seq<Kind>, log'': seq<Event>)
    requires Grown(log, kinds, now, log') && Grown(log', more, now, log'')
    ensures Grown(log, kinds + more, now, log'')
  {
  }

  lemma {:induction false} SuppressionsGrow(log: seq<Event>, addresses: seq<string>, now: Time)
    ensures Grown(log, Suppressions(addresses), now, EmitSuppressed(log, addresses, now))
  {
    if addresses != [] {
      SuppressionsGrow(log, addresses[..|addresses| - 1], now);
    }
  }

  lemma OutcomeGrows(
    log: seq<Event>, result: DeliveryResult, verdict: Verdict, attempt: nat, delay: real, now: Time)
    ensures Grown(log, OutcomeKinds(result, verdict, attempt, delay), now,
                  RecordLog(log, result, verdict, attempt, delay, now))
  {
  }

  /** Every step writes exactly this to every timeline. */
  lemma StepWrites(c: Config, s: State, step: Step, id: nat)
    requires References(c, s) && Enabled(c, s, step) && id < |s.rows|
    ensures id < |Apply(c, s, step).logs|
    ensures Grown(s.logs[id], Adds(c, s, step, id), s.now, Apply(c, s, step).logs[id])
  {
    if step.Record? && s.workers[step.worker].flight.id == id {
      var flight := s.workers[step.worker].flight;
      var verdict := c.classify(flight.result);
      var recorded := RecordLog(s.logs[id], flight.result, verdict, flight.attempt, step.delay, s.now);
      OutcomeGrows(s.logs[id], flight.result, verdict, flight.attempt, step.delay, s.now);
      SuppressionsGrow(recorded, step.suppressed, s.now);
      GrownOn(s.logs[id], OutcomeKinds(flight.result, verdict, flight.attempt, step.delay), s.now, recorded,
              Suppressions(step.suppressed), Apply(c, s, step).logs[id]);
    }
  }

  // ---- Reading times off a timeline --------------------------------------------------

  function Last(log: seq<Event>, p: Kind -> bool): Option<Event> {
    if log == [] then None
    else if p(log[|log| - 1].kind) then Some(log[|log| - 1])
    else Last(log[..|log| - 1], p)
  }

  function LastAt(log: seq<Event>, p: Kind -> bool): Option<Time> {
    var e := Last(log, p);
    if e.Some? then Some(e.value.at) else None
  }

  lemma LastOfEmit(log: seq<Event>, kind: Kind, now: Time, p: Kind -> bool)
    ensures var last := Last(Emit(log, kind, now), p);
            if p(kind) then last.Some? && last.value.kind == kind && last.value.at == now else last == Last(log, p)
  {
    assert Emit(log, kind, now)[..|log|] == log;
  }

  lemma {:induction false} LastOfSuppressions(log: seq<Event>, addresses: seq<string>, now: Time, p: Kind -> bool)
    requires forall address :: !p(RecipientSuppressed(address))
    ensures Last(EmitSuppressed(log, addresses, now), p) == Last(log, p)
  {
    if addresses != [] {
      var shorter := addresses[..|addresses| - 1];
      LastOfSuppressions(log, shorter, now, p);
      LastOfEmit(EmitSuppressed(log, shorter, now), RecipientSuppressed(addresses[|addresses| - 1]), now, p);
    }
  }

  function Stamping(): Kind -> bool {
    (kind: Kind) => kind.Attempt?
  }

  function Closing(): Kind -> bool {
    (kind: Kind) => kind.ProviderAccepted? || kind.Failed?
  }

  /** The events that say when the message is due. */
  function Planning(): Kind -> bool {
    (kind: Kind) => kind.MessageQueued? || kind.RateGated? || kind.Deferred?
  }

  /** Queued: at once. Held back: when the window opens. Put off: after the delay. */
  function DueBy(e: Event): Time {
    match e.kind
    case RateGated(_, _, retryAt) => retryAt
    case Deferred(_, delay) => e.at + delay
    case _ => e.at
  }

  function Planned(log: seq<Event>): Option<Time> {
    var e := Last(log, Planning());
    if e.Some? then Some(DueBy(e.value)) else None
  }

  /** The reap that took the message back since its last planning event, if one did. */
  function Reaped(c: Config, run: Run, id: nat): Option<Time>
    requires Valid(c, run)
  {
    match run
    case Start => None
    case Then(before, step) =>
      var s := After(c, before);
      if step.Reap? && id < |s.rows| && StaleClaim(s.rows[id], s.now - STALE_CLAIM_AFTER) then Some(s.now)
      else if Replans(c, s, step, id) then None
      else Reaped(c, before, id)
  }

  predicate Replans(c: Config, s: State, step: Step, id: nat) {
    || (step.Gate? && step.id == id)
    || (Records(s, step, id)
        && var flight := s.workers[step.worker].flight;
           !flight.result.success && c.classify(flight.result).retryable && flight.attempt < 8)
  }

  /** The row's times are those of its timeline, or of the reap that came after. */
  predicate Dated(row: Message, log: seq<Event>, reaped: Option<Time>) {
    && Some(row.nextAttemptAt) == (if reaped.Some? then reaped else Planned(log))
    && row.lastAttemptAt == LastAt(log, Stamping())
    && row.completedAt == LastAt(log, Closing())
    && (row.status == TemporarilyFailed && reaped.None? ==> Last(log, Planning()).value.kind.Deferred?)
  }

  // ---- Every step keeps it -----------------------------------------------------------

  lemma EmitDates(log: seq<Event>, kind: Kind, now: Time)
    ensures LastAt(Emit(log, kind, now), Stamping()) == if kind.Attempt? then Some(now) else LastAt(log, Stamping())
    ensures LastAt(Emit(log, kind, now), Closing())
         == if kind.ProviderAccepted? || kind.Failed? then Some(now) else LastAt(log, Closing())
    ensures var last := Last(Emit(log, kind, now), Planning());
            if kind.MessageQueued? || kind.RateGated? || kind.Deferred?
            then last.Some? && last.value.kind == kind && last.value.at == now
            else last == Last(log, Planning())
  {
    LastOfEmit(log, kind, now, Stamping());
    LastOfEmit(log, kind, now, Closing());
    LastOfEmit(log, kind, now, Planning());
  }

  lemma SuppressionsDate(log: seq<Event>, addresses: seq<string>, now: Time)
    ensures var log' := EmitSuppressed(log, addresses, now);
            && LastAt(log', Stamping()) == LastAt(log, Stamping())
            && LastAt(log', Closing()) == LastAt(log, Closing())
            && Last(log', Planning()) == Last(log, Planning())
  {
    LastOfSuppressions(log, addresses, now, Stamping());
    LastOfSuppressions(log, addresses, now, Closing());
    LastOfSuppressions(log, addresses, now, Planning());
  }

  lemma AcceptedDates(row: Message, log: seq<Event>, reaped: Option<Time>, partial: bool, now: Time)
    requires Dated(row, log, reaped)
    ensures Dated(AcceptRow(row, now), Emit(if partial then Emit(log, PartialDelivery, now) else log,
                                            ProviderAccepted, now), reaped)
  {
    EmitDates(log, PartialDelivery, now);
    EmitDates(if partial then Emit(log, PartialDelivery, now) else log, ProviderAccepted, now);
  }

  lemma FailedDates(row: Message, log: seq<Event>, reaped: Option<Time>, code: Option<int>, verdict: Verdict,
                    attempt: nat, delay: real, now: Time)
    requires Dated(row, log, reaped)
    ensures var retries := verdict.retryable && attempt < 8;
            Dated(FailRow(row, code, verdict, attempt, delay, now),
                  Emit(log, if retries then Deferred(attempt, delay) else Failed(Outcome(attempt, verdict.retryable)),
                       now),
                  if retries then None else reaped)
  {
    if verdict.retryable && attempt < 8 {
      EmitDates(log, Deferred(attempt, delay), now);
    } else {
      EmitDates(log, Failed(Outcome(attempt, verdict.retryable)), now);
    }
  }

  lemma SuppressionsKeepDated(
    row: Message, log: seq<Event>, reaped: Option<Time>, suppressed: seq<string>, now: Time)
    requires Dated(row, log, reaped)
    ensures Dated(row, EmitSuppressed(log, suppressed, now), reaped)
  {
    SuppressionsDate(log, suppressed, now);
  }

  lemma RecordDates(row: Message, log: seq<Event>, reaped: Option<Time>, result: DeliveryResult, verdict: Verdict,
                    attempt: nat, delay: real, suppressed: seq<string>, now: Time)
    requires Dated(row, log, reaped)
    ensures var recorded := EmitSuppressed(RecordLog(log, result, verdict, attempt, delay, now), suppressed, now);
            var replanned := !result.success && verdict.retryable && attempt < 8;
            Dated(RecordRow(row, result, verdict, attempt, delay, now), recorded, if replanned then None else reaped)
  {
    if result.success {
      AcceptedDates(row, log, reaped, result.Partial(), now);
    } else {
      FailedDates(row, log, reaped, result.code, verdict, attempt, delay, now);
    }
    var replanned := !result.success && verdict.retryable && attempt < 8;
    SuppressionsKeepDated(RecordRow(row, result, verdict, attempt, delay, now),
                          RecordLog(log, result, verdict, attempt, delay, now),
                          if replanned then None else reaped, suppressed, now);
  }

  /** The steps that settle message `step.id`. */
  lemma AnswerDates(row: Message, log: seq<Event>, reaped: Option<Time>, used: nat, ceiling: nat, opening: Time,
                    now: Time)
    requires Dated(row, log, reaped)
    ensures Dated(GateRow(row, opening), Emit(log, RateGated(used, ceiling, opening), now), None)
    ensures Dated(NoHostRow(row, now), Emit(log, Failed(Cause.NoHost), now), reaped)
  {
    EmitDates(log, RateGated(used, ceiling, opening), now);
    EmitDates(log, Failed(Cause.NoHost), now);
  }

  lemma StampDates(row: Message, log: seq<Event>, reaped: Option<Time>, number: nat, now: Time)
    requires Dated(row, log, reaped)
    ensures Dated(StampRow(row, number, now), Emit(log, Attempt(number), now), reaped)
  {
    EmitDates(log, Attempt(number), now);
  }

  lemma StepDates(c: Config, s: State, step: Step, id: nat, reaped: Option<Time>)
    requires References(c, s) && Enabled(c, s, step) && id < |s.rows| && Dated(s.rows[id], s.logs[id], reaped)
    requires !step.Reap?
    ensures var s' := Apply(c, s, step);
            && id < |s'.rows| && id < |s'.logs|
            && Dated(s'.rows[id], s'.logs[id], if Replans(c, s, step, id) then None else reaped)
  {
    var row, log := s.rows[id], s.logs[id];
    match step {
      case Gate(_, _) =>
        AnswerDates(row, log, reaped, UsedNow(s, id), Ceiling(c, row.mailbox),
                    Budget.NextWindowOpening(s.rows, row.mailbox, s.now), s.now);
      case NoHost(_, _) => AnswerDates(row, log, reaped, 0, 0, s.now, s.now);
      case Stamp(w) => StampDates(row, log, reaped, s.workers[w].flight.seen + 1, s.now);
      case Record(w, delay, suppressed) =>
        var flight := s.workers[w].flight;
        RecordDates(row, log, reaped, flight.result, c.classify(flight.result), flight.attempt, delay,
                    suppressed, s.now);
      case _ => QuietDates(c, s, step, id, reaped);
    }
  }

  lemma QuietDates(c: Config, s: State, step: Step, id: nat, reaped: Option<Time>)
    requires References(c, s) && Enabled(c, s, step) && id < |s.rows| && Dated(s.rows[id], s.logs[id], reaped)
    requires !step.Reap? && !step.Gate? && !step.NoHost? && !step.Stamp? && !step.Record?
    ensures var s' := Apply(c, s, step);
            id < |s'.rows| && id < |s'.logs| && s'.logs[id] == s.logs[id] && Dated(s'.rows[id], s'.logs[id], reaped)
  {
  }

  lemma NewIsDated(mailbox: MailboxId, recipients: Recipients, body: Body, now: Time)
    ensures Dated(NewMessage(mailbox, recipients, body, now), NewLog(now), None)
  {
    EmitDates([], ApiAccepted, now);
    EmitDates(Emit([], ApiAccepted, now), MessageQueued, now);
  }

  lemma {:induction false} NoneReapedYet(c: Config, run: Run, id: nat)
    requires Valid(c, run) && |After(c, run).rows| <= id
    ensures References(c, After(c, run)) && Reaped(c, run, id) == None
  {
    RunsHaveReferences(c, run);
    if run.Then? {
      RunsHaveReferences(c, run.before);
      NoneReapedYet(c, run.before, id);
    }
  }

  lemma {:induction false} RunsAreDated(c: Config, run: Run, id: nat)
    requires Valid(c, run) && id < |After(c, run).rows|
    ensures References(c, After(c, run))
    ensures Dated(After(c, run).rows[id], After(c, run).logs[id], Reaped(c, run, id))
  {
    RunsHaveReferences(c, run);
    var s := After(c, run.before);
    RunsHaveReferences(c, run.before);
    if id >= |s.rows| {
      NoneReapedYet(c, run.before, id);
      NewIsDated(run.step.mailbox, run.step.recipients, run.step.body, s.now);
    } else {
      RunsAreDated(c, run.before, id);
      if !run.step.Reap? {
        StepDates(c, s, run.step, id, Reaped(c, run.before, id));
      }
    }
  }

  // ---- What it means -----------------------------------------------------------------

  /**
    In every run: a waiting message is due exactly from the time its timeline names (its arrival, the
    opening of the window it was held back for, or the end of its last delay), or from the reap that took
    it back since. When it was last attempted and completed is the time of the event that says so.
  */
  lemma TimelinesKeepTime(c: Config, run: Run, id: nat, t: Time)
    requires Valid(c, run) && id < |After(c, run).rows|
    ensures References(c, After(c, run))
    ensures var row, log := After(c, run).rows[id], After(c, run).logs[id];
            var plan := if Reaped(c, run, id).Some? then Reaped(c, run, id) else Planned(log);
            && plan.Some?
            && (Due(row, t) <==> (row.status == Queued || row.status == TemporarilyFailed) && t >= plan.value)
            && row.lastAttemptAt == LastAt(log, Stamping())
            && row.completedAt == LastAt(log, Closing())
  {
    RunsAreDated(c, run, id);
  }

  /** In particular, one that was put off, and not reaped since, is due exactly when its last delay is over. */
  lemma PutOffUntil(c: Config, run: Run, id: nat, t: Time) returns (e: Event)
    requires Valid(c, run) && id < |After(c, run).rows| && After(c, run).rows[id].status == TemporarilyFailed
    requires Reaped(c, run, id).None?
    ensures References(c, After(c, run))
    ensures Last(After(c, run).logs[id], Planning()) == Some(e) && e.kind.Deferred?
    ensures Due(After(c, run).rows[id], t) <==> t >= e.at + e.kind.delay
  {
    RunsAreDated(c, run, id);
    e := Last(After(c, run).logs[id], Planning()).value;
  }

  // ---- The chronicle -----------------------------------------------------------------

  /** This event tells of a gate that was shut, and of an opening within an hour and a second. */
  predicate ToldOfAFullBudget(c: Config, mailbox: MailboxId, e: Event) {
    e.kind.RateGated? ==>
      && mailbox < |c.limits| && e.kind.used >= e.kind.ceiling == Ceiling(c, mailbox)
      && e.at < e.kind.retryAt <= e.at + Budget.WINDOW + 1.0
  }

  predicate Opens(log: seq<Event>) {
    |log| >= 2 && log[0].kind == ApiAccepted && log[1].kind == MessageQueued && log[0].at == log[1].at
  }

  predicate Forward(log: seq<Event>, now: Time) {
    && (forall i, j :: 0 <= i < j < |log| ==> log[i].at <= log[j].at)
    && (forall i :: 0 <= i < |log| ==> log[i].at <= now)
  }

  predicate GatesTold(c: Config, mailbox: MailboxId, log: seq<Event>) {
    forall i :: 0 <= i < |log| ==> ToldOfAFullBudget(c, mailbox, log[i])
  }

  predicate PartsAccepted(log: seq<Event>) {
    forall i :: 0 <= i < |log| && log[i].kind.PartialDelivery? ==>
      i + 1 < |log| && log[i + 1].kind.ProviderAccepted? && log[i + 1].at == log[i].at
  }

  /** Accepted and queued first; in order of time; gates told truly; what was partial was accepted then. */
  predicate Chronicle(c: Config, s: State, id: nat)
    requires id < |s.rows| && id < |s.logs|
  {
    var log := s.logs[id];
    Opens(log) && Forward(log, s.now) && GatesTold(c, s.rows[id].mailbox, log) && PartsAccepted(log)
  }

  /** Nothing was attempted later than now. */
  predicate NoneAhead(s: State) {
    forall i :: 0 <= i < |s.rows| && s.rows[i].lastAttemptAt.Some? ==> s.rows[i].lastAttemptAt.value <= s.now
  }

  lemma {:induction false} RunsHaveNoneAhead(c: Config, run: Run)
    requires Valid(c, run)
    ensures NoneAhead(After(c, run))
  {
    if run.Then? {
      RunsHaveNoneAhead(c, run.before);
      StepHasNoneAhead(c, After(c, run.before), run.step);
    }
  }

  lemma StepHasNoneAhead(c: Config, s: State, step: Step)
    requires NoneAhead(s) && Enabled(c, s, step)
    ensures NoneAhead(Apply(c, s, step))
  {
  }

  lemma GateTellsTheTruth(c: Config, s: State, step: Step, id: nat)
    requires References(c, s) && Enabled(c, s, step) && id < |s.rows| && NoneAhead(s)
    ensures forall k :: 0 <= k < |Adds(c, s, step, id)| ==>
              ToldOfAFullBudget(c, s.rows[id].mailbox, Event(0, Adds(c, s, step, id)[k], s.now))
  {
    if step.Gate? && step.id == id {
      var mailbox := s.rows[id].mailbox;
      Budget.GateOpens(s.rows, mailbox, s.now, Ceiling(c, mailbox));
      Budget.OldestIsLeast(s.rows, mailbox, s.now);
    }
  }

  lemma SendersStay(c: Config, s: State, step: Step, id: nat)
    requires References(c, s) && Enabled(c, s, step) && id < |s.rows|
    ensures id < |Apply(c, s, step).rows| && Apply(c, s, step).rows[id].mailbox == s.rows[id].mailbox
    ensures s.now <= Apply(c, s, step).now
  {
  }

  /** Events of this moment go at the end. */
  lemma GrownIsForward(log: seq<Event>, kinds: seq<Kind>, now: Time, log': seq<Event>, later: Time)
    requires Grown(log, kinds, now, log') && Opens(log) && Forward(log, now) && now <= later
    ensures Opens(log') && Forward(log', later)
  {
    forall i, j | 0 <= i < j < |log'| ensures log'[i].at <= log'[j].at {
      assert i < |log| ==> log[i].at <= now;
    }
  }

  lemma GrownPartsAccepted(c: Config, s: State, step: Step, id: nat, log': seq<Event>)
    requires References(c, s) && Enabled(c, s, step) && id < |s.rows|
    requires Grown(s.logs[id], Adds(c, s, step, id), s.now, log') && PartsAccepted(s.logs[id])
    ensures PartsAccepted(log')
  {
    var log, kinds := s.logs[id], Adds(c, s, step, id);
    forall i | 0 <= i < |log'| && log'[i].kind.PartialDelivery?
      ensures i + 1 < |log'| && log'[i + 1].kind.ProviderAccepted? && log'[i + 1].at == log'[i].at
    {
      if i >= |log| {
        assert kinds[i - |log|].PartialDelivery?;
        assert kinds[i - |log| + 1].ProviderAccepted?;
      } else {
        assert log[i].kind.PartialDelivery?;
      }
    }
  }

  lemma GrownGatesTold(c: Config, s: State, step: Step, id: nat, log': seq<Event>)
    requires References(c, s) && Enabled(c, s, step) && id < |s.rows| && NoneAhead(s)
    requires Grown(s.logs[id], Adds(c, s, step, id), s.now, log') && GatesTold(c, s.rows[id].mailbox, s.logs[id])
    ensures GatesTold(c, s.rows[id].mailbox, log')
  {
    GateTellsTheTruth(c, s, step, id);
    var log, kinds := s.logs[id], Adds(c, s, step, id);
    forall i | 0 <= i < |log'| ensures ToldOfAFullBudget(c, s.rows[id].mailbox, log'[i]) {
      if i >= |log| {
        assert ToldOfAFullBudget(c, s.rows[id].mailbox, Event(0, kinds[i - |log|], s.now));
      } else {
        assert ToldOfAFullBudget(c, s.rows[id].mailbox, log[i]);
      }
    }
  }

  lemma ChronicleGrows(c: Config, s: State, step: Step, id: nat)
    requires References(c, s) && Enabled(c, s, step) && id < |s.rows| && NoneAhead(s) && Chronicle(c, s, id)
    ensures id < |Apply(c, s, step).rows| && id < |Apply(c, s, step).logs| && Chronicle(c, Apply(c, s, step), id)
  {
    StepWrites(c, s, step, id);
    SendersStay(c, s, step, id);
    var s' := Apply(c, s, step);
    GrownIsForward(s.logs[id], Adds(c, s, step, id), s.now, s'.logs[id], s'.now);
    GrownGatesTold(c, s, step, id, s'.logs[id]);
    GrownPartsAccepted(c, s, step, id, s'.logs[id]);
  }

  lemma NewIsChronicle(c: Config, s: State, step: Step, id: nat)
    requires References(c, s) && Enabled(c, s, step) && |s.rows| <= id < |Apply(c, s, step).rows|
    requires References(c, Apply(c, s, step))
    ensures Chronicle(c, Apply(c, s, step), id)
  {
    var log := Apply(c, s, step).logs[id];
    assert log == NewLog(s.now) && |log| == 2;
    assert log[0].kind == ApiAccepted && log[1].kind == MessageQueued;
  }

  /**
    In every run a timeline starts with acceptance and queueing, goes forward in time, tells of a gate only
    when the sender's budget was used up, with an opening in the next hour, and of a partial delivery only
    as part of an acceptance.
  */
  lemma {:induction false} TimelinesAreChronicles(c: Config, run: Run, id: nat)
    requires Valid(c, run) && id < |After(c, run).rows|
    ensures References(c, After(c, run)) && Chronicle(c, After(c, run), id)
  {
    RunsHaveReferences(c, run);
    var s := After(c, run.before);
    RunsHaveReferences(c, run.before);
    RunsHaveNoneAhead(c, run.before);
    if id < |s.rows| {
      TimelinesAreChronicles(c, run.before, id);
      ChronicleGrows(c, s, run.step, id);
    } else {
      NewIsChronicle(c, s, run.step, id);
    }
  }

  // ---- What an outcome leaves behind -------------------------------------------------

  /**
    The row after an outcome, column by column: accepted and cleared of an earlier failure; put off until
    exactly the delay is over; or rejected. What was learnt of a failure is kept, a person is told if the
    verdict wants it or a retryable message runs out of attempts, and no other row changes.
  */
  lemma RecordSettles(c: Config, s: State, step: Step, t: Time)
    requires References(c, s) && Enabled(c, s, step) && step.Record?
    ensures var flight := s.workers[step.worker].flight;
            var s', id, result, verdict := Apply(c, s, step), flight.id, flight.result, c.classify(flight.result);
            && |s'.rows| == |s.rows| && id < |s.rows|
            && (forall j :: 0 <= j < |s.rows| && j != id ==> s'.rows[j] == s.rows[j])
            && var row, row' := s.rows[id], s'.rows[id];
               && row'.claimedBy == None && row'.claimedAt == None && row'.attempts == row.attempts
               && row'.recipients == row.recipients && row'.body == row.body && row'.mailbox == row.mailbox
               && (result.success ==>
                     && row'.status == AcceptedByProvider && row'.completedAt == Some(s.now)
                     && row'.failureClass == None && row'.failureCode == None && row'.needsReview == row.needsReview)
               && (!result.success ==>
                     && row'.failureClass == Some(verdict.failureClass) && row'.failureCode == result.code
                     && (row'.needsReview <==>
                           row.needsReview || verdict.needsReview || (verdict.retryable && flight.attempt >= 8))
                     && (verdict.retryable && flight.attempt < 8 ==>
                           row'.status == TemporarilyFailed && (Due(row', t) <==> t >= s.now + step.delay))
                     && (!verdict.retryable || flight.attempt >= 8 ==>
                           row'.status == PermanentlyRejected && row'.completedAt == Some(s.now)))
  {
  }

  /** A delivery that ends before its attempt: held back until the opening, or given up without a host. */
  lemma AnswerSettles(c: Config, s: State, step: Step, t: Time)
    requires References(c, s) && Enabled(c, s, step) && (step.Gate? || step.NoHost?)
    ensures var s', id := Apply(c, s, step), step.id;
            && |s'.rows| == |s.rows| && id < |s.rows|
            && (forall j :: 0 <= j < |s.rows| && j != id ==> s'.rows[j] == s.rows[j])
            && var row, row' := s.rows[id], s'.rows[id];
               && row'.claimedBy == None && row'.claimedAt == None && row'.attempts == row.attempts
               && (step.Gate? ==>
                     && row'.status == Queued && row'.needsReview == row.needsReview
                     && (Due(row', t) <==> t >= Budget.NextWindowOpening(s.rows, row.mailbox, s.now)))
               && (step.NoHost? ==>
                     && row'.status == PermanentlyRejected && row'.completedAt == Some(s.now)
                     && row'.needsReview && row'.failureCode == None)
  {
  }

  /**
    A message is held back just long enough: if nobody stamps an attempt meanwhile, the gate refuses it
    until a second before, and at that time at least one slot is free that was not.
  */
  lemma HeldBackJustLongEnough(c: Config, s: State, step: Step, t: Time)
    requires References(c, s) && Enabled(c, s, step) && step.Gate? && s.now <= t
    ensures var mailbox, due := s.rows[step.id].mailbox, Apply(c, s, step).rows[step.id].nextAttemptAt;
            && s.now < due
            && (t <= due - 1.0 ==> Budget.Exhausted(Budget.Used(s.rows, mailbox, t), Ceiling(c, mailbox)))
            && (t >= due ==> Budget.Used(s.rows, mailbox, t) < Budget.Used(s.rows, mailbox, s.now))
  {
    var mailbox := s.rows[step.id].mailbox;
    var due := Budget.NextWindowOpening(s.rows, mailbox, s.now);
    Budget.GateOpens(s.rows, mailbox, s.now, Ceiling(c, mailbox));
    if t <= due - 1.0 {
      Budget.GateIsPrompt(s.rows, mailbox, s.now, t, Ceiling(c, mailbox));
    }
    if t >= due {
      Budget.UsedShrinks(s.rows, s.rows, mailbox, due, t);
    }
  }

  /** A claim is safe from the reaper for fifteen minutes, and no longer. */
  lemma ClaimsGoStale(row: Message, worker: WorkerId, now: Time, t: Time)
    ensures var row' := ClaimRow(row, worker, now);
            && row'.status == Sending && row'.claimedBy == Some(worker)
            && (StaleClaim(row', t - STALE_CLAIM_AFTER) <==> t > now + 900.0)
  {
  }

  /** What goes back unserved: a released claim as queued and due as before, a reaped one as failed and due at once. */
  lemma ReturnsToTheQueue(row: Message, cutoff: Time, now: Time, t: Time)
    requires row.status == Sending
    ensures var row' := ReleaseRow(row);
            && row'.status == Queued && row'.claimedBy == None && row'.claimedAt == None
            && (Due(row', t) <==> t >= row.nextAttemptAt)
    ensures StaleClaim(row, cutoff) ==>
              var row' := ReapRow(row, cutoff, now);
              && row'.status == TemporarilyFailed && row'.claimedBy == None && row'.claimedAt == None
              && (Due(row', t) <==> t >= now)
  {
  }
}
