/**
  How close together the attempts of one message can be when workers crash and the reaper hands out
  what they left behind. Attempts may then follow each other at once, but the claims behind them may
  not: a claim is given out again only after the retry delay, or after fifteen minutes.
*/
module Reclaims {
  import opened Prelude
  import opened Messages
  import opened Protocol
  import opened QueueRefinement
  import opened Pacing
  import Backoff
  import Budget
  import Life

  /** The least time between the claim of attempt `attempt` and the next claim. */
  function Rest(attempt: int): real {
    if Gap(attempt) < STALE_CLAIM_AFTER then Gap(attempt) else STALE_CLAIM_AFTER
  }

  /** Attempt k + 2 was claimed after attempt k + 1, and after its claim had rested. */
  predicate Follows(starts: seq<Time>, claims: seq<Time>, k: nat)
    requires k + 1 < |claims| == |starts|
  {
    starts[k] <= claims[k + 1] && claims[k] + Rest(k + 1) <= claims[k + 1]
  }

  /** Attempt k + 1 was made under the claim of time `claims[k]`, and claims keep their distance. */
  predicate Kept(starts: seq<Time>, claims: seq<Time>) {
    && |claims| == |starts|
    && (forall k :: 0 <= k < |starts| ==> claims[k] <= starts[k])
    && (forall k :: 0 <= k < |starts| - 1 ==> Follows(starts, claims, k))
  }

  /** The message is not due before its last claim has rested. */
  predicate Rested(row: Message, starts: seq<Time>, claims: seq<Time>)
    requires |claims| == |starts|
  {
    starts != [] ==>
      && starts[|starts| - 1] <= row.nextAttemptAt
      && claims[|starts| - 1] + Rest(|starts|) <= row.nextAttemptAt
  }

  /** The present claim has not been used for an attempt, and was given out when the message was due. */
  predicate Unused(row: Message, starts: seq<Time>, claims: seq<Time>)
    requires |claims| == |starts|
  {
    Rested(row, starts, claims) && row.claimedAt.Some? && row.nextAttemptAt <= row.claimedAt.value
  }

  /** The present claim is that of the last attempt. */
  predicate Spent(row: Message, claims: seq<Time>) {
    claims != [] && row.claimedAt == Some(claims[|claims| - 1])
  }

  predicate Backed(row: Message, custody: Life.Custody, starts: seq<Time>, now: Time, claims: seq<Time>) {
    && |starts| == row.attempts && Kept(starts, claims)
    && row.lastAttemptAt == (if starts == [] then None else Some(starts[|starts| - 1]))
    && (starts != [] ==> starts[|starts| - 1] <= now)
    && (Pending(row) ==> Rested(row, starts, claims))
    && (row.status == Sending ==>
          row.claimedAt.Some? && row.claimedAt.value <= now && (Unused(row, starts, claims) || Spent(row, claims)))
    && (custody.Held? || custody.Cleared? ==> Unused(row, starts, claims))
  }

  predicate Reclaimed(l: Life.Life, now: Time, claims: seq<Time>) {
    Backed(l.row, l.custody, Starts(l.log), now, claims)
  }

  // ---- Every move keeps it -----------------------------------------------------------

  lemma StampReclaims(l: Life.Life, now: Time, claims: seq<Time>)
    requires Placed(l) && Reclaimed(l, now, claims) && l.custody.Cleared?
    ensures l.row.claimedAt.Some? && Reclaimed(Life.Advance(l, Life.Stamp, now), now, claims + [l.row.claimedAt.value])
  {
    var starts := Starts(l.log);
    var attempt := l.custody.seen + 1;
    StartsOfEmit(l.log, Attempt(attempt), now);
    var l' := Life.Advance(l, Life.Stamp, now);
    assert Starts(l'.log) == starts + [now];
    assert l'.row == StampRow(l.row, l.row.attempts + 1, now) && l'.custody == Life.OnWire(attempt, l.custody.body);
    StampBacks(l.row, l.custody, starts, now, claims);
  }

  lemma StampBacks(row: Message, custody: Life.Custody, starts: seq<Time>, now: Time, claims: seq<Time>)
    requires Backed(row, custody, starts, now, claims) && custody.Cleared? && row.status == Sending
    ensures row.claimedAt.Some?
    ensures Backed(StampRow(row, row.attempts + 1, now), Life.OnWire(row.attempts + 1, custody.body), starts + [now],
                   now, claims + [row.claimedAt.value])
  {
    KeptGrows(starts, claims, row.claimedAt.value, now);
  }

  lemma KeptGrows(starts: seq<Time>, claims: seq<Time>, claim: Time, now: Time)
    requires Kept(starts, claims) && claim <= now
    requires starts != [] ==> starts[|starts| - 1] <= claim && claims[|starts| - 1] + Rest(|starts|) <= claim
    ensures Kept(starts + [now], claims + [claim])
  {
    var starts', claims' := starts + [now], claims + [claim];
    forall k | 0 <= k < |starts'| - 1 ensures Follows(starts', claims', k) {
      assert k < |starts| - 1 ==> Follows(starts, claims, k);
    }
  }

  lemma RecordReclaims(l: Life.Life, move: Life.Move, now: Time, claims: seq<Time>)
    requires Placed(l) && Reclaimed(l, now, claims) && Life.Possible(l, move, now) && move.Record?
    ensures Reclaimed(Life.Advance(l, move, now), now, claims)
  {
    var result, attempt := l.custody.result, l.custody.attempt;
    StartsOfRecord(l.log, result, move.verdict, attempt, move.delay, now);
    StartsOfSuppressions(RecordLog(l.log, result, move.verdict, attempt, move.delay, now), move.suppressed, now);
    RecordBacks(l.row, l.custody, move, Starts(l.log), now, claims);
  }

  lemma RecordBacks(
    row: Message, custody: Life.Custody, move: Life.Move, starts: seq<Time>, now: Time, claims: seq<Time>)
    requires Backed(row, custody, starts, now, claims) && custody.Answered? && custody.attempt == row.attempts
    requires move.Record? && Backoff.Possible(custody.attempt, move.delay)
    ensures Backed(
              RecordRow(row, custody.result, move.verdict, custody.attempt, move.delay, now), Life.Unheld, starts, now,
              claims)
  {
    if starts != [] {
      assert claims[|starts| - 1] <= starts[|starts| - 1] <= now;
    }
  }

  lemma AnswerReclaims(l: Life.Life, move: Life.Move, now: Time, claims: seq<Time>)
    requires Placed(l) && Reclaimed(l, now, claims) && Life.Possible(l, move, now)
    requires move.GiveUp? || (move.Gate? && move.opening >= now)
    ensures Reclaimed(Life.Advance(l, move, now), now, claims)
  {
    if move.GiveUp? {
      StartsOfEmit(l.log, Failed(Cause.NoHost), now);
      assert Starts(Life.Advance(l, move, now).log) == Starts(l.log);
      NoHostBacks(l.row, l.custody, Starts(l.log), now, claims);
    } else {
      StartsOfEmit(l.log, RateGated(move.used, move.ceiling, move.opening), now);
      assert Starts(Life.Advance(l, move, now).log) == Starts(l.log);
      GateBacks(l.row, l.custody, move.opening, Starts(l.log), now, claims);
    }
  }

  lemma NoHostBacks(row: Message, custody: Life.Custody, starts: seq<Time>, now: Time, claims: seq<Time>)
    requires Backed(row, custody, starts, now, claims)
    ensures Backed(NoHostRow(row, now), Life.Unheld, starts, now, claims)
  {
  }

  lemma GateBacks(
    row: Message, custody: Life.Custody, opening: Time, starts: seq<Time>, now: Time, claims: seq<Time>)
    requires Backed(row, custody, starts, now, claims) && custody.Held? && row.status == Sending && now <= opening
    ensures Backed(GateRow(row, opening), Life.Unheld, starts, now, claims)
  {
  }

  /** A reap is as late as the claim is stale. */
  lemma ReapReclaims(l: Life.Life, now: Time, claims: seq<Time>)
    requires Reclaimed(l, now, claims) && Life.Possible(l, Life.Reap(now - STALE_CLAIM_AFTER), now)
    ensures Reclaimed(Life.Advance(l, Life.Reap(now - STALE_CLAIM_AFTER), now), now, claims)
  {
  }

  lemma QuietReclaims(l: Life.Life, move: Life.Move, now: Time, claims: seq<Time>)
    requires Placed(l) && Reclaimed(l, now, claims) && Life.Possible(l, move, now)
    requires !move.Gate? && !move.GiveUp? && !move.Stamp? && !move.Record? && !move.Reap?
    ensures Reclaimed(Life.Advance(l, move, now), now, claims)
  {
    var l' := Life.Advance(l, move, now);
    assert l'.log == l.log;
    QuietBacks(l.row, l.custody, l'.row, l'.custody, Starts(l.log), now, claims);
  }

  lemma QuietBacks(row: Message, custody: Life.Custody, row': Message, custody': Life.Custody,
                   starts: seq<Time>, now: Time, claims: seq<Time>)
    requires Backed(row, custody, starts, now, claims)
    requires
      || (row' == row && (custody'.Held? || custody'.Cleared? ==> custody.Held? || custody.Cleared?))
      || (Due(row, now) && row' == row.(status := Sending, claimedBy := row'.claimedBy, claimedAt := Some(now)))
      || (custody.Held? && custody'.Unheld? && row.status == Sending && row' == ReleaseRow(row))
      || (custody' == custody && row' == row.(body := row'.body, purgedAt := row'.purgedAt))
    ensures Backed(row', custody', starts, now, claims)
  {
  }

  lemma MoveReclaims(l: Life.Life, move: Life.Move, now: Time, claims: seq<Time>) returns (claims': seq<Time>)
    requires Placed(l) && Reclaimed(l, now, claims) && Life.Possible(l, move, now)
    requires move.Gate? ==> move.opening >= now
    requires move.Reap? ==> move.cutoff == now - STALE_CLAIM_AFTER
    ensures Reclaimed(Life.Advance(l, move, now), now, claims')
  {
    claims' := claims;
    match move {
      case Gate(_, _, _) => AnswerReclaims(l, move, now, claims);
      case GiveUp => AnswerReclaims(l, move, now, claims);
      case Stamp =>
        StampReclaims(l, now, claims);
        claims' := claims + [l.row.claimedAt.value];
      case Record(_, _, _) => RecordReclaims(l, move, now, claims);
      case Reap(_) => ReapReclaims(l, now, claims);
      case _ => QuietReclaims(l, move, now, claims);
    }
  }

  lemma ReclaimedLater(l: Life.Life, now: Time, later: Time, claims: seq<Time>)
    requires Reclaimed(l, now, claims) && now <= later
    ensures Reclaimed(l, later, claims)
  {
  }

  /** In every disciplined run the attempts of a message have such claims behind them. */
  lemma {:induction false} RunsAreReclaimed(c: Config, run: Run, id: nat) returns (claims: seq<Time>)
    requires Valid(c, run) && Disciplined(c, run) && id < |After(c, run).rows|
    ensures Tables(After(c, run)) && Reclaimed(LifeOf(After(c, run), id), After(c, run).now, claims)
  {
    RunsAreHealthy(c, run);
    var s := After(c, run.before);
    RunsAreHealthy(c, run.before);
    if id < |s.rows| {
      claims := RunsAreReclaimed(c, run.before, id);
      claims := StepReclaims(c, s, run.step, id, claims);
    } else {
      claims := [];
      NewIsReclaimed(c, s, run.step, id);
    }
  }

  lemma StepReclaims(c: Config, s: State, step: Step, id: nat, claims: seq<Time>) returns (claims': seq<Time>)
    requires Owned(s) && Enabled(c, s, step) && (step.Reap? ==> NoLiveClaimIsStale(s)) && id < |s.rows|
    requires Life.Sound(LifeOf(s, id)) && Reclaimed(LifeOf(s, id), s.now, claims) && Tables(Apply(c, s, step))
    ensures id < |Apply(c, s, step).rows| && Reclaimed(LifeOf(Apply(c, s, step), id), Apply(c, s, step).now, claims')
  {
    StepRefines(c, s, step, id);
    var l, move := LifeOf(s, id), MoveOf(c, s, step, id);
    SoundIsPlaced(l);
    MoveIsTimely(c, s, step, id);
    claims' := MoveReclaims(l, move, s.now, claims);
    TimePasses(c, s, step);
    ReclaimedLater(Life.Advance(l, move, s.now), s.now, Apply(c, s, step).now, claims');
  }

  lemma MoveIsTimely(c: Config, s: State, step: Step, id: nat)
    requires Tables(s) && Enabled(c, s, step) && id < |s.rows|
    ensures var move := MoveOf(c, s, step, id);
            && (move.Gate? ==> move.opening >= s.now)
            && (move.Reap? ==> move.cutoff == s.now - STALE_CLAIM_AFTER)
  {
    Budget.OpeningIsNotBehind(s.rows, s.rows[id].mailbox, s.now);
  }

  lemma TimePasses(c: Config, s: State, step: Step)
    requires Enabled(c, s, step)
    ensures s.now <= Apply(c, s, step).now
  {
  }

  lemma NewIsReclaimed(c: Config, s: State, step: Step, id: nat)
    requires Owned(s) && Enabled(c, s, step) && Tables(Apply(c, s, step)) && |s.rows| <= id < |Apply(c, s, step).rows|
    ensures Reclaimed(LifeOf(Apply(c, s, step), id), Apply(c, s, step).now, [])
  {
    StartsOfEmit([], ApiAccepted, s.now);
    StartsOfEmit(Emit([], ApiAccepted, s.now), MessageQueued, s.now);
  }

  // ---- Seven an hour -----------------------------------------------------------------

  lemma KeptPrefix(starts: seq<Time>, claims: seq<Time>, n: nat)
    requires Kept(starts, claims) && n <= |starts|
    ensures Kept(starts[..n], claims[..n])
  {
    forall k | 0 <= k < n - 1 ensures Follows(starts[..n], claims[..n], k) {
      assert Follows(starts, claims, k);
    }
  }

  lemma {:induction false} NoneKeptRecent(starts: seq<Time>, claims: seq<Time>, from: Time)
    requires Kept(starts, claims) && (starts != [] ==> starts[|starts| - 1] < from)
    ensures Recent(starts, from) == 0
  {
    var n := |starts| - 1;
    if n > 0 {
      assert Follows(starts, claims, n - 1) && claims[n] <= starts[n];
      KeptPrefix(starts, claims, n);
      NoneKeptRecent(starts[..n], claims[..n], from);
    }
  }

  /** Eight attempts span more than an hour, wherever in the schedule they fall. */
  lemma EightSpanTheWindow(starts: seq<Time>, claims: seq<Time>, k: nat)
    requires Kept(starts, claims) && k + 7 < |starts|
    ensures starts[k] + 4176.0 <= starts[k + 7]
  {
    BaseIsMonotone(2, k + 2);
    BaseIsMonotone(3, k + 3);
    BaseIsMonotone(4, k + 4);
    BaseIsMonotone(5, k + 5);
    BaseIsMonotone(6, k + 6);
    BaseIsMonotone(7, k + 7);
    assert Follows(starts, claims, k);
    assert Follows(starts, claims, k + 1);
    assert Follows(starts, claims, k + 2);
    assert Follows(starts, claims, k + 3);
    assert Follows(starts, claims, k + 4);
    assert Follows(starts, claims, k + 5);
    assert Follows(starts, claims, k + 6);
    assert claims[k + 7] <= starts[k + 7];
  }

  lemma SevenAnHour(starts: seq<Time>, claims: seq<Time>, from: Time)
    requires Kept(starts, claims) && (starts != [] ==> starts[|starts| - 1] <= from + Budget.WINDOW)
    ensures Recent(starts, from) <= 7
  {
    if |starts| <= 7 {
      RecentSplits(starts, 0, from);
    } else {
      var k := |starts| - 8;
      EightSpanTheWindow(starts, claims, k);
      KeptPrefix(starts, claims, k + 1);
      NoneKeptRecent(starts[..k + 1], claims[..k + 1], from);
      RecentSplits(starts, k + 1, from);
    }
  }

  lemma ReclaimedIsFew(l: Life.Life, now: Time, claims: seq<Time>)
    requires Reclaimed(l, now, claims)
    ensures Few(l.row, l.log, now, 7)
  {
    SevenAnHour(Starts(l.log), claims, now - Budget.WINDOW);
    if !Budget.Counts(l.row, l.row.mailbox, now) {
      NoneKeptRecent(Starts(l.log), claims, now - Budget.WINDOW);
    }
  }

  /** In every disciplined run, a message is attempted at most seven times in any hour. */
  lemma SevenEach(c: Config, run: Run)
    requires Valid(c, run) && Disciplined(c, run)
    ensures Tables(After(c, run)) && FewEach(After(c, run).rows, After(c, run).logs, After(c, run).now, 7)
  {
    RunsAreHealthy(c, run);
    var s := After(c, run);
    forall i | 0 <= i < |s.rows| ensures Few(s.rows[i], s.logs[i], s.now, 7) {
      var claims := RunsAreReclaimed(c, run, i);
      ReclaimedIsFew(LifeOf(s, i), s.now, claims);
    }
  }
}
