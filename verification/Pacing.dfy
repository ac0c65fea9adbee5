/**
  How often the wire is really used. The gate counts messages, not attempts, so the true bound on a
  sender's attempts in an hour rests on the backoff schedule as well: with one worker and no reaps,
  five attempts for every message the gate admits.
*/
module Pacing {
  import opened Prelude
  import opened Messages
  import opened Verdicts
  import opened Protocol
  import opened QueueRefinement
  import Backoff
  import Budget
  import GateTheorems
  import Life

  // ---- The attempts of one message ---------------------------------------------------

  function Gap(attempt: int): real {
    0.8 * Backoff.Base(attempt)
  }

  /** Attempt k + 1 starts at least the shortest jittered delay after attempt k. */
  predicate Spaced(starts: seq<Time>) {
    forall k :: 0 <= k < |starts| - 1 ==> starts[k] + Gap(k + 1) <= starts[k + 1]
  }

  /** Waiting for its next attempt, or about to make it. */
  predicate Ready(l: Life.Life) {
    Pending(l.row) || l.custody.Held? || l.custody.Cleared?
  }

  predicate Paced(l: Life.Life, now: Time) {
    var starts := Starts(l.log);
    && |starts| == l.row.attempts
    && Spaced(starts)
    && l.row.lastAttemptAt == (if starts == [] then None else Some(starts[|starts| - 1]))
    && (starts != [] ==> starts[|starts| - 1] <= now)
    && (starts != [] && Ready(l) ==> starts[|starts| - 1] + Gap(|starts|) <= l.row.nextAttemptAt)
    && (l.custody.Held? || l.custody.Cleared? ==> l.row.nextAttemptAt <= now)
  }

  /** What soundness says about custody: it is of a sending message, and it knows the count. */
  predicate Placed(l: Life.Life) {
    && (!l.custody.Unheld? ==> l.row.status == Sending)
    && (Life.InFlight(l.custody) ==> l.custody.attempt == l.row.attempts)
    && (l.custody.Cleared? ==> l.custody.seen == l.row.attempts)
  }

  lemma SoundIsPlaced(l: Life.Life)
    requires Life.Sound(l)
    ensures Placed(l)
  {
  }

  lemma StartsOfEmit(log: seq<Event>, kind: Kind, now: Time)
    ensures Starts(Emit(log, kind, now)) == Starts(log) + if kind.Attempt? then [now] else []
  {
    assert Emit(log, kind, now)[..|log|] == log;
  }

  lemma {:induction false} StartsOfSuppressions(log: seq<Event>, addresses: seq<string>, now: Time)
    ensures Starts(EmitSuppressed(log, addresses, now)) == Starts(log)
  {
    if addresses != [] {
      var shorter := addresses[..|addresses| - 1];
      StartsOfSuppressions(log, shorter, now);
      StartsOfEmit(EmitSuppressed(log, shorter, now), RecipientSuppressed(addresses[|addresses| - 1]), now);
    }
  }

  lemma StartsOfRecord(
    log: seq<Event>, result: DeliveryResult, verdict: Verdict, attempt: nat, delay: real, now: Time)
    ensures Starts(RecordLog(log, result, verdict, attempt, delay, now)) == Starts(log)
  {
    StartsOfEmit(log, PartialDelivery, now);
    StartsOfEmit(if result.Partial() then Emit(log, PartialDelivery, now) else log, ProviderAccepted, now);
    StartsOfEmit(log, if Retries(verdict, attempt) then Deferred(attempt, delay)
                      else Failed(Outcome(attempt, verdict.retryable)), now);
  }

  lemma SpacedGrows(starts: seq<Time>, now: Time)
    requires Spaced(starts) && (starts != [] ==> starts[|starts| - 1] + Gap(|starts|) <= now)
    ensures Spaced(starts + [now])
  {
    var starts' := starts + [now];
    forall k | 0 <= k < |starts'| - 1 ensures starts'[k] + Gap(k + 1) <= starts'[k + 1] {
      assert k < |starts| - 1 ==> starts[k] + Gap(k + 1) <= starts[k + 1];
    }
  }

  lemma StampKeepsPaced(l: Life.Life, now: Time)
    requires Placed(l) && Paced(l, now) && l.custody.Cleared?
    ensures Paced(Life.Advance(l, Life.Stamp, now), now)
  {
    var starts := Starts(l.log);
    StartsOfEmit(l.log, Attempt(l.custody.seen + 1), now);
    assert starts != [] ==> starts[|starts| - 1] + Gap(|starts|) <= l.row.nextAttemptAt <= now;
    SpacedGrows(starts, now);
    var l' := Life.Advance(l, Life.Stamp, now);
    assert Starts(l'.log) == starts + [now] && !Ready(l');
  }

  lemma RecordKeepsPaced(l: Life.Life, move: Life.Move, now: Time)
    requires Paced(l, now) && Placed(l) && Life.Possible(l, move, now) && move.Record?
    ensures Paced(Life.Advance(l, move, now), now)
  {
    var result, attempt := l.custody.result, l.custody.attempt;
    StartsOfRecord(l.log, result, move.verdict, attempt, move.delay, now);
    StartsOfSuppressions(RecordLog(l.log, result, move.verdict, attempt, move.delay, now), move.suppressed, now);
    RecordWaits(l.row, result, move.verdict, attempt, move.delay, now);
    var l' := Life.Advance(l, move, now);
    assert Starts(l'.log) == Starts(l.log);
    assert l'.row == RecordRow(l.row, result, move.verdict, attempt, move.delay, now) && l'.custody.Unheld?;
  }

  /** A message that is put off waits at least the shortest jittered delay. */
  lemma RecordWaits(
    row: Message, result: DeliveryResult, verdict: Verdict, attempt: nat, delay: real, now: Time)
    requires Backoff.Possible(attempt, delay)
    ensures var row' := RecordRow(row, result, verdict, attempt, delay, now);
            && row'.attempts == row.attempts && row'.lastAttemptAt == row.lastAttemptAt
            && (Pending(row') ==> now + Gap(attempt) <= row'.nextAttemptAt)
  {
  }

  lemma MoveKeepsPaced(l: Life.Life, move: Life.Move, now: Time)
    requires Life.Sound(l) && Paced(l, now) && Life.Possible(l, move, now)
    requires !move.Reap? && (move.Gate? ==> move.opening >= now)
    ensures Paced(Life.Advance(l, move, now), now)
  {
    SoundIsPlaced(l);
    match move
    case Gate(_, _, _) => AnswerKeepsPaced(l, move, now);
    case GiveUp => AnswerKeepsPaced(l, move, now);
    case Stamp => StampKeepsPaced(l, now);
    case Record(_, _, _) => RecordKeepsPaced(l, move, now);
    case _ => QuietKeepsPaced(l, move, now);
  }

  /** The moves that end a delivery before it begins. */
  lemma AnswerKeepsPaced(l: Life.Life, move: Life.Move, now: Time)
    requires Paced(l, now) && Life.Possible(l, move, now) && (move.GiveUp? || (move.Gate? && move.opening >= now))
    ensures Paced(Life.Advance(l, move, now), now)
  {
    StartsOfEmit(
      l.log, if move.GiveUp? then Failed(Cause.NoHost) else RateGated(move.used, move.ceiling, move.opening), now);
  }

  lemma QuietKeepsPaced(l: Life.Life, move: Life.Move, now: Time)
    requires Placed(l) && Paced(l, now) && Life.Possible(l, move, now)
    requires !move.Gate? && !move.GiveUp? && !move.Stamp? && !move.Record? && !move.Reap?
    ensures Paced(Life.Advance(l, move, now), now)
  {
  }

  // ---- Five an hour ------------------------------------------------------------------

  /** How many of these attempts started at `from` or later. */
  function Recent(starts: seq<Time>, from: Time): nat {
    if starts == [] then 0
    else Recent(starts[..|starts| - 1], from) + if starts[|starts| - 1] >= from then 1 else 0
  }

  lemma {:induction false} NoneRecent(starts: seq<Time>, from: Time)
    requires Spaced(starts) && (starts != [] ==> starts[|starts| - 1] < from)
    ensures Recent(starts, from) == 0
  {
    var n := |starts| - 1;
    if n > 0 {
      assert starts[n - 1] + Gap(n) <= starts[n];
      NoneRecent(starts[..n], from);
    }
  }

  lemma {:induction false} RecentSplits(starts: seq<Time>, k: nat, from: Time)
    requires k <= |starts|
    ensures Recent(starts, from) <= Recent(starts[..k], from) + (|starts| - k)
  {
    if k < |starts| {
      var before := starts[..|starts| - 1];
      RecentSplits(before, k, from);
      assert before[..k] == starts[..k];
    } else {
      assert starts[..k] == starts;
    }
  }

  lemma BaseIsMonotone(a: int, b: int)
    requires a <= b
    ensures Backoff.Base(a) <= Backoff.Base(b)
  {
  }

  /** Six attempts span more than two hours, wherever in the schedule they fall. */
  lemma SixSpanTheWindow(starts: seq<Time>, k: nat)
    requires Spaced(starts) && k + 5 < |starts|
    ensures starts[k] + 7800.0 <= starts[k + 5]
  {
    BaseIsMonotone(1, k + 1);
    BaseIsMonotone(2, k + 2);
    BaseIsMonotone(3, k + 3);
    BaseIsMonotone(4, k + 4);
    BaseIsMonotone(5, k + 5);
    assert starts[k] + Gap(k + 1) <= starts[k + 1];
    assert starts[k + 1] + Gap(k + 2) <= starts[k + 2];
    assert starts[k + 2] + Gap(k + 3) <= starts[k + 3];
    assert starts[k + 3] + Gap(k + 4) <= starts[k + 4];
    assert starts[k + 4] + Gap(k + 5) <= starts[k + 5];
  }

  lemma FiveAnHour(starts: seq<Time>, from: Time)
    requires Spaced(starts) && (starts != [] ==> starts[|starts| - 1] <= from + Budget.WINDOW)
    ensures Recent(starts, from) <= 5
  {
    if |starts| <= 5 {
      RecentSplits(starts, 0, from);
    } else {
      var k := |starts| - 6;
      SixSpanTheWindow(starts, k);
      assert starts[..k + 1][k] == starts[k];
      NoneRecent(starts[..k + 1], from);
      RecentSplits(starts, k + 1, from);
    }
  }

  // ---- All the messages of a sender --------------------------------------------------

  /** The attempts of a sender that started at `from` or later, over all its messages. */
  function Begun(rows: seq<Message>, logs: seq<seq<Event>>, mailbox: MailboxId, from: Time): nat
    requires |rows| == |logs|
  {
    if rows == [] then 0
    else
      var n := |rows| - 1;
      Begun(rows[..n], logs[..n], mailbox, from)
      + if rows[n].mailbox == mailbox then Recent(Starts(logs[n]), from) else 0
  }

  /** A message was attempted in the last hour only if it counts against its sender, and at most so often. */
  predicate Few(row: Message, log: seq<Event>, now: Time, most: nat) {
    Recent(Starts(log), now - Budget.WINDOW) <= if Budget.Counts(row, row.mailbox, now) then most else 0
  }

  predicate FewEach(rows: seq<Message>, logs: seq<seq<Event>>, now: Time, most: nat) {
    |rows| == |logs| && forall i :: 0 <= i < |rows| ==> Few(rows[i], logs[i], now, most)
  }

  lemma {:induction false} BegunIsBounded(
    rows: seq<Message>, logs: seq<seq<Event>>, mailbox: MailboxId, now: Time, most: nat)
    requires FewEach(rows, logs, now, most)
    ensures Begun(rows, logs, mailbox, now - Budget.WINDOW) <= most * Budget.Used(rows, mailbox, now)
  {
    if rows != [] {
      var n := |rows| - 1;
      assert Few(rows[n], logs[n], now, most);
      BegunIsBounded(rows[..n], logs[..n], mailbox, now, most);
      OneMoreTime(most, Budget.Used(rows[..n], mailbox, now));
    }
  }

  lemma OneMoreTime(most: nat, used: nat)
    ensures most * (used + 1) == most * used + most
  {
  }

  /** Well-spaced attempts are few. */
  lemma PacedIsFew(l: Life.Life, now: Time)
    requires Paced(l, now)
    ensures Few(l.row, l.log, now, 5)
  {
    FiveAnHour(Starts(l.log), now - Budget.WINDOW);
    if !Budget.Counts(l.row, l.row.mailbox, now) {
      NoneRecent(Starts(l.log), now - Budget.WINDOW);
    }
  }

  predicate NoReaps(run: Run) {
    run.Then? ==> !run.step.Reap? && NoReaps(run.before)
  }

  lemma {:induction false} NoReapsIsDisciplined(c: Config, run: Run)
    requires Valid(c, run) && NoReaps(run)
    ensures Disciplined(c, run)
  {
    if run.Then? {
      NoReapsIsDisciplined(c, run.before);
    }
  }

  predicate AllPaced(s: State) {
    Tables(s) && forall id :: 0 <= id < |s.rows| ==> Paced(LifeOf(s, id), s.now)
  }

  lemma StepKeepsPaced(c: Config, s: State, step: Step)
    requires Healthy(s) && AllPaced(s) && Enabled(c, s, step) && !step.Reap?
    ensures AllPaced(Apply(c, s, step))
  {
    var s' := Apply(c, s, step);
    StepKeepsHealthy(c, s, step);
    forall id | 0 <= id < |s'.rows| ensures Paced(LifeOf(s', id), s'.now) {
      if id < |s.rows| {
        StepKeepsPace(c, s, step, id);
      } else {
        NewIsPaced(c, s, step, id);
      }
    }
  }

  lemma StepKeepsPace(c: Config, s: State, step: Step, id: nat)
    requires Owned(s) && AllPaced(s) && Enabled(c, s, step) && !step.Reap? && id < |s.rows|
    requires Life.Sound(LifeOf(s, id)) && Tables(Apply(c, s, step))
    ensures id < |Apply(c, s, step).rows| && Paced(LifeOf(Apply(c, s, step), id), Apply(c, s, step).now)
  {
    StepRefines(c, s, step, id);
    Budget.OpeningIsNotBehind(s.rows, s.rows[id].mailbox, s.now);
    assert Life.Sound(LifeOf(s, id)) && Paced(LifeOf(s, id), s.now);
    MoveKeepsPaced(LifeOf(s, id), MoveOf(c, s, step, id), s.now);
    PacedLater(Life.Advance(LifeOf(s, id), MoveOf(c, s, step, id), s.now), s.now, Apply(c, s, step).now);
  }

  lemma PacedLater(l: Life.Life, now: Time, later: Time)
    requires Paced(l, now) && now <= later
    ensures Paced(l, later)
  {
  }

  lemma NewIsPaced(c: Config, s: State, step: Step, id: nat)
    requires Owned(s) && Enabled(c, s, step) && Tables(Apply(c, s, step))
    requires |s.rows| <= id < |Apply(c, s, step).rows|
    ensures Paced(LifeOf(Apply(c, s, step), id), Apply(c, s, step).now)
  {
    StartsOfEmit([], ApiAccepted, s.now);
    StartsOfEmit(Emit([], ApiAccepted, s.now), MessageQueued, s.now);
  }

  lemma {:induction false} RunsArePaced(c: Config, run: Run)
    requires Valid(c, run) && NoReaps(run)
    ensures Healthy(After(c, run)) && AllPaced(After(c, run))
  {
    NoReapsIsDisciplined(c, run);
    RunsAreHealthy(c, run);
    if run.Then? {
      RunsArePaced(c, run.before);
      StepKeepsPaced(c, After(c, run.before), run.step);
    }
  }

  // ---- The wire itself ---------------------------------------------------------------

  /** Conversations of a sender that took place at `from` or later. */
  function SentSince(wire: seq<Life.Wire>, mailbox: MailboxId, from: Time): nat {
    if wire == [] then 0
    else
      var last := wire[|wire| - 1];
      SentSince(wire[..|wire| - 1], mailbox, from) + if last.mailbox == mailbox && last.sentAt >= from then 1 else 0
  }

  /** Conversations of a sender whose attempt was stamped at `from` or later. */
  function StampedSince(wire: seq<Life.Wire>, mailbox: MailboxId, from: Time): nat {
    if wire == [] then 0
    else
      var last := wire[|wire| - 1];
      StampedSince(wire[..|wire| - 1], mailbox, from)
      + if last.mailbox == mailbox && last.stampedAt >= from then 1 else 0
  }

  /** One conversation ends before the next attempt is stamped. */
  predicate Sequential(wire: seq<Life.Wire>) {
    && (forall i :: 0 <= i < |wire| ==> wire[i].stampedAt <= wire[i].sentAt)
    && (forall i, j :: 0 <= i < j < |wire| ==> wire[i].sentAt <= wire[j].stampedAt)
  }

  lemma {:induction false} NothingSince(wire: seq<Life.Wire>, mailbox: MailboxId, from: Time)
    requires forall i :: 0 <= i < |wire| ==> wire[i].sentAt < from
    ensures SentSince(wire, mailbox, from) == 0
  {
    if wire != [] {
      NothingSince(wire[..|wire| - 1], mailbox, from);
    }
  }

  /** A conversation of this sender began before `from` and took place after it. */
  predicate Straddles(wire: seq<Life.Wire>, mailbox: MailboxId, from: Time) {
    exists i :: 0 <= i < |wire| && wire[i].mailbox == mailbox && wire[i].stampedAt < from <= wire[i].sentAt
  }

  /** At most one conversation can straddle the start of a window. */
  lemma {:induction false} OneStraddles(wire: seq<Life.Wire>, mailbox: MailboxId, from: Time)
    requires Sequential(wire)
    ensures SentSince(wire, mailbox, from)
         <= StampedSince(wire, mailbox, from) + if Straddles(wire, mailbox, from) then 1 else 0
  {
    if wire != [] {
      var n := |wire| - 1;
      OneStraddles(wire[..n], mailbox, from);
      if Straddles(wire[..n], mailbox, from) {
        var i :| 0 <= i < n && wire[..n][i].mailbox == mailbox && wire[..n][i].stampedAt < from <= wire[..n][i].sentAt;
        assert wire[i] == wire[..n][i] && wire[i].sentAt <= wire[n].stampedAt;
      }
      if wire[n].stampedAt < from {
        forall i | 0 <= i < n ensures wire[..n][i].sentAt < from {
          assert wire[i].sentAt <= wire[n].stampedAt;
        }
        NothingSince(wire[..n], mailbox, from);
      }
    }
  }

  lemma {:induction false} BegunUpdate(
    rows: seq<Message>, logs: seq<seq<Event>>, id: nat, row: Message, log: seq<Event>, mailbox: MailboxId, from: Time)
    requires |rows| == |logs| && id < |rows| && row.mailbox == rows[id].mailbox
    ensures Begun(rows[id := row], logs[id := log], mailbox, from)
              + (if row.mailbox == mailbox then Recent(Starts(logs[id]), from) else 0)
         == Begun(rows, logs, mailbox, from) + (if row.mailbox == mailbox then Recent(Starts(log), from) else 0)
  {
    var n := |rows| - 1;
    if id == n {
      assert rows[id := row][..n] == rows[..n] && logs[id := log][..n] == logs[..n];
    } else {
      assert rows[id := row][..n] == rows[..n][id := row] && logs[id := log][..n] == logs[..n][id := log];
      BegunUpdate(rows[..n], logs[..n], id, row, log, mailbox, from);
    }
  }

  lemma {:induction false} BegunFrame(
    rows: seq<Message>, logs: seq<seq<Event>>, rows': seq<Message>, logs': seq<seq<Event>>, mailbox: MailboxId,
    from: Time)
    requires |rows| == |logs| == |rows'| == |logs'|
    requires forall i :: 0 <= i < |rows| ==> rows[i].mailbox == rows'[i].mailbox && Starts(logs[i]) == Starts(logs'[i])
    ensures Begun(rows, logs, mailbox, from) == Begun(rows', logs', mailbox, from)
  {
    if rows != [] {
      var n := |rows| - 1;
      forall i | 0 <= i < n
        ensures rows[..n][i].mailbox == rows'[..n][i].mailbox && Starts(logs[..n][i]) == Starts(logs'[..n][i])
      {
        assert Starts(logs[i]) == Starts(logs'[i]);
      }
      BegunFrame(rows[..n], logs[..n], rows'[..n], logs'[..n], mailbox, from);
    }
  }

  /** Apart from stamping, a step begins no attempt of an existing message. */
  lemma StartsFrame(c: Config, s: State, step: Step, i: nat)
    requires Owned(s) && Enabled(c, s, step) && !step.Stamp? && i < |s.rows|
    ensures var s' := Apply(c, s, step);
            i < |s'.logs| && Starts(s'.logs[i]) == Starts(s.logs[i]) && s'.rows[i].mailbox == s.rows[i].mailbox
  {
    GateTheorems.StepKeepsSenders(c, s, step);
    match step
    case Gate(w, id) =>
      var opening := Budget.NextWindowOpening(s.rows, s.rows[id].mailbox, s.now);
      StartsOfEmit(s.logs[id], RateGated(UsedNow(s, id), Ceiling(c, s.rows[id].mailbox), opening), s.now);
    case NoHost(w, id) => StartsOfEmit(s.logs[id], Failed(Cause.NoHost), s.now);
    case Record(w, delay, suppressed) =>
      var flight := s.workers[w].flight;
      var verdict := c.classify(flight.result);
      StartsOfRecord(s.logs[flight.id], flight.result, verdict, flight.attempt, delay, s.now);
      StartsOfSuppressions(
        RecordLog(s.logs[flight.id], flight.result, verdict, flight.attempt, delay, s.now), suppressed, s.now);
    case _ =>
  }

  /** The stamped attempt of the only worker that has not been sent yet, if it counts. */
  function Unsent(s: State, mailbox: MailboxId, from: Time): nat
    requires |s.workers| == 1
  {
    var flight := s.workers[0].flight;
    if flight.OnWire? && flight.id < |s.rows| && s.rows[flight.id].mailbox == mailbox && flight.stampedAt >= from
    then 1 else 0
  }

  /** Conversations follow one another, and each was begun in the log. */
  predicate WireOrder(s: State) {
    && |s.workers| == 1
    && Sequential(s.wire)
    && (forall i :: 0 <= i < |s.wire| ==> s.wire[i].sentAt <= s.now)
    && (s.workers[0].flight.OnWire? ==>
          && s.workers[0].flight.stampedAt <= s.now
          && forall i :: 0 <= i < |s.wire| ==> s.wire[i].sentAt <= s.workers[0].flight.stampedAt)
  }

  predicate WireLogged(s: State, mailbox: MailboxId, from: Time)
    requires |s.workers| == 1 && Tables(s)
  {
    StampedSince(s.wire, mailbox, from) + Unsent(s, mailbox, from) <= Begun(s.rows, s.logs, mailbox, from)
  }

  lemma StepKeepsWireOrder(c: Config, s: State, step: Step)
    requires Owned(s) && WireOrder(s) && Enabled(c, s, step)
    ensures WireOrder(Apply(c, s, step))
  {
    if step.Send? {
      SendKeepsWireOrder(c, s, step);
    } else {
      QuietKeepsWireOrder(c, s, step);
    }
  }

  lemma SendKeepsWireOrder(c: Config, s: State, step: Step)
    requires WireOrder(s) && Enabled(c, s, step) && step.Send?
    ensures WireOrder(Apply(c, s, step))
  {
  }

  lemma QuietKeepsWireOrder(c: Config, s: State, step: Step)
    requires WireOrder(s) && Enabled(c, s, step) && !step.Send?
    ensures WireOrder(Apply(c, s, step))
  {
    assert Apply(c, s, step).wire == s.wire && s.now <= Apply(c, s, step).now;
  }

  lemma StampIsLogged(c: Config, s: State, step: Step, mailbox: MailboxId, from: Time)
    requires Tables(s) && |s.workers| == 1 && Enabled(c, s, step) && step.Stamp?
    requires WireLogged(s, mailbox, from)
    ensures Tables(Apply(c, s, step)) && |Apply(c, s, step).workers| == 1
            && WireLogged(Apply(c, s, step), mailbox, from)
  {
    var s' := Apply(c, s, step);
    var id := s.workers[0].flight.id;
    var attempt := s.workers[0].flight.seen + 1;
    StampBegins(s.logs[id], attempt, s.now, from);
    var log := Emit(s.logs[id], Attempt(attempt), s.now);
    var row := StampRow(s.rows[id], attempt, s.now);
    assert s'.rows == s.rows[id := row] && s'.logs == s.logs[id := log];
    BegunUpdate(s.rows, s.logs, id, row, log, mailbox, from);
    assert s'.wire == s.wire && Unsent(s, mailbox, from) == 0;
  }

  lemma StampBegins(log: seq<Event>, attempt: nat, now: Time, from: Time)
    ensures Recent(Starts(Emit(log, Attempt(attempt), now)), from)
         == Recent(Starts(log), from) + if now >= from then 1 else 0
  {
    var starts := Starts(log);
    StartsOfEmit(log, Attempt(attempt), now);
    assert (starts + [now])[..|starts|] == starts;
  }

  lemma SendIsLogged(c: Config, s: State, step: Step, mailbox: MailboxId, from: Time)
    requires Tables(s) && |s.workers| == 1 && Enabled(c, s, step) && step.Send?
    requires WireLogged(s, mailbox, from)
    ensures Tables(Apply(c, s, step)) && |Apply(c, s, step).workers| == 1
            && WireLogged(Apply(c, s, step), mailbox, from)
  {
    var flight := s.workers[0].flight;
    var entry := WireEntry(s, flight, step.result.success);
    var s' := s.(wire := s.wire + [entry], workers := Fly(s, 0, Answered(flight.id, flight.attempt, step.result)));
    assert Apply(c, s, step) == s';
    OneMoreSent(s.wire, entry, mailbox, from);
    assert Unsent(s, mailbox, from) == if entry.mailbox == mailbox && entry.stampedAt >= from then 1 else 0;
  }

  lemma OneMoreSent(wire: seq<Life.Wire>, entry: Life.Wire, mailbox: MailboxId, from: Time)
    ensures StampedSince(wire + [entry], mailbox, from)
         == StampedSince(wire, mailbox, from) + if entry.mailbox == mailbox && entry.stampedAt >= from then 1 else 0
  {
    assert (wire + [entry])[..|wire|] == wire;
  }

  lemma IngestIsLogged(c: Config, s: State, step: Step, mailbox: MailboxId, from: Time)
    requires Tables(s) && |s.workers| == 1 && Enabled(c, s, step) && step.Ingest?
    requires s.workers[0].flight.OnWire? ==> s.workers[0].flight.id < |s.rows|
    requires WireLogged(s, mailbox, from)
    ensures Tables(Apply(c, s, step)) && |Apply(c, s, step).workers| == 1
            && WireLogged(Apply(c, s, step), mailbox, from)
  {
    var s' := Apply(c, s, step);
    StartsOfEmit([], ApiAccepted, s.now);
    StartsOfEmit(Emit([], ApiAccepted, s.now), MessageQueued, s.now);
    assert s'.rows[..|s.rows|] == s.rows && s'.logs[..|s.rows|] == s.logs;
    assert s'.wire == s.wire && Unsent(s', mailbox, from) == Unsent(s, mailbox, from);
  }

  lemma QuietIsLogged(c: Config, s: State, step: Step, mailbox: MailboxId, from: Time)
    requires Owned(s) && WireOrder(s) && Enabled(c, s, step) && !step.Ingest? && !step.Stamp? && !step.Send?
    requires WireLogged(s, mailbox, from)
    ensures Tables(Apply(c, s, step)) && |Apply(c, s, step).workers| == 1
            && WireLogged(Apply(c, s, step), mailbox, from)
  {
    QuietBegins(c, s, step, mailbox, from);
  }

  /** Such a step begins nothing. */
  lemma QuietBegins(c: Config, s: State, step: Step, mailbox: MailboxId, from: Time)
    requires Owned(s) && Enabled(c, s, step) && !step.Ingest? && !step.Stamp? && !step.Send?
    ensures var s' := Apply(c, s, step);
            Tables(s') && Begun(s'.rows, s'.logs, mailbox, from) == Begun(s.rows, s.logs, mailbox, from)
    ensures GateTheorems.SameSenders(s.rows, Apply(c, s, step).rows)
  {
    var s' := Apply(c, s, step);
    GateTheorems.StepKeepsSenders(c, s, step);
    forall i | 0 <= i < |s.rows|
      ensures s'.rows[i].mailbox == s.rows[i].mailbox && Starts(s'.logs[i]) == Starts(s.logs[i])
    {
      StartsFrame(c, s, step, i);
    }
    BegunFrame(s.rows, s.logs, s'.rows, s'.logs, mailbox, from);
  }

  lemma StepIsLogged(c: Config, s: State, step: Step, mailbox: MailboxId, from: Time)
    requires Owned(s) && WireOrder(s) && Enabled(c, s, step)
    requires WireLogged(s, mailbox, from)
    ensures Tables(Apply(c, s, step)) && WireOrder(Apply(c, s, step)) && WireLogged(Apply(c, s, step), mailbox, from)
  {
    StepKeepsWireOrder(c, s, step);
    match step
    case Stamp(_) => StampIsLogged(c, s, step, mailbox, from);
    case Send(_, _) => SendIsLogged(c, s, step, mailbox, from);
    case Ingest(_, _, _) =>
      assert OwnedBy(s, 0);
      IngestIsLogged(c, s, step, mailbox, from);
    case _ => QuietIsLogged(c, s, step, mailbox, from);
  }

  lemma {:induction false} WireIsLogged(c: Config, run: Run, mailbox: MailboxId, from: Time)
    requires Valid(c, run) && Disciplined(c, run) && c.workers == 1
    ensures Tables(After(c, run)) && WireOrder(After(c, run)) && WireLogged(After(c, run), mailbox, from)
  {
    RunsAreHealthy(c, run);
    if run.Then? {
      WireIsLogged(c, run.before, mailbox, from);
      RunsAreHealthy(c, run.before);
      StepIsLogged(c, After(c, run.before), run.step, mailbox, from);
    }
  }
}
