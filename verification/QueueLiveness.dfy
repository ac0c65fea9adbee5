/** Messages do not wait for ever: nobody starves, and every unfinished message can reach a worker. */
module QueueLiveness {
  import opened Prelude
  import opened Messages
  import opened Protocol
  import opened QueueRefinement
  import opened QueueTheorems
  import Backoff
  import Budget
  import Life
  import Queries = Tables

  // ---- Being passed over -------------------------------------------------------------

  /** The pending messages that a claim may prefer to message `id`. */
  ghost function Ahead(s: State, id: nat): set<nat>
    requires id < |s.rows|
  {
    set j | 0 <= j < |s.rows| && j != id && Pending(s.rows[j]) && s.rows[j].nextAttemptAt <= s.rows[id].nextAttemptAt
  }

  predicate Overdue(s: State, id: nat) {
    id < |s.rows| && Pending(s.rows[id]) && s.rows[id].nextAttemptAt < s.now
  }

  /** A step that neither takes message `id` nor skips it because of a lock. */
  predicate PassesBy(step: Step, id: nat) {
    step.Claim? ==> id !in step.ids && id !in step.locked
  }

  function Claims(run: Run, more: Run): nat
    requires Extends(run, more)
  {
    if more == run then 0 else Claims(run, more.before) + if more.step.Claim? then 1 else 0
  }

  function Releases(run: Run, more: Run): nat
    requires Extends(run, more)
  {
    if more == run then 0 else Releases(run, more.before) + if more.step.Release? then 1 else 0
  }

  predicate AllPassBy(run: Run, more: Run, id: nat)
    requires Extends(run, more)
  {
    more == run || (AllPassBy(run, more.before, id) && PassesBy(more.step, id))
  }

  lemma StepKeepsOverdue(c: Config, s: State, step: Step, id: nat)
    requires Healthy(s) && Enabled(c, s, step) && (step.Reap? ==> NoLiveClaimIsStale(s))
    requires Overdue(s, id) && PassesBy(step, id)
    ensures var s' := Apply(c, s, step);
            && Overdue(s', id) && s'.rows[id].nextAttemptAt == s.rows[id].nextAttemptAt
  {
    StepRefines(c, s, step, id);
    Budget.OpeningIsNotBehind(s.rows, s.rows[id].mailbox, s.now);
    MoveQueues(LifeOf(s, id), MoveOf(c, s, step, id), s.now);
  }

  /** A message joins the queue no earlier than now, unless it is released, and leaves it only by being claimed. */
  lemma MoveQueues(l: Life.Life, move: Life.Move, now: Time)
    requires Life.Sound(l) && Life.Possible(l, move, now) && (move.Gate? ==> move.opening >= now)
    ensures var row' := Life.Advance(l, move, now).row;
            && (Pending(l.row) && !move.Take? ==> Pending(row') && row'.nextAttemptAt == l.row.nextAttemptAt)
            && (Pending(row') ==>
                  || move.GiveBack? || (Pending(l.row) && row'.nextAttemptAt == l.row.nextAttemptAt)
                  || now <= row'.nextAttemptAt)
            && (move.Take? ==> !Pending(row'))
  {
  }

  /** Nothing new gets ahead of an overdue message but what a worker hands back. */
  lemma NobodyOvertakes(c: Config, s: State, step: Step, id: nat, j: nat)
    requires Healthy(s) && Enabled(c, s, step) && (step.Reap? ==> NoLiveClaimIsStale(s))
    requires Overdue(s, id) && PassesBy(step, id)
    requires var s' := Apply(c, s, step); id < |s'.rows| && s'.rows[id].nextAttemptAt == s.rows[id].nextAttemptAt
    requires j in Ahead(Apply(c, s, step), id)
    ensures j in Ahead(s, id) || (step.Release? && j == step.id)
    ensures step.Claim? ==> j !in step.ids
  {
    if j < |s.rows| {
      StepRefines(c, s, step, j);
      Budget.OpeningIsNotBehind(s.rows, s.rows[j].mailbox, s.now);
      MoveQueues(LifeOf(s, j), MoveOf(c, s, step, j), s.now);
    }
  }

  lemma AheadShrinks(c: Config, s: State, step: Step, id: nat)
    requires Healthy(s) && Enabled(c, s, step) && (step.Reap? ==> NoLiveClaimIsStale(s))
    requires Overdue(s, id) && PassesBy(step, id)
    ensures var s' := Apply(c, s, step);
            && Overdue(s', id)
            && |Ahead(s', id)| + (if step.Claim? then BATCH_SIZE else 0)
               <= |Ahead(s, id)| + (if step.Release? then 1 else 0)
  {
    var s' := Apply(c, s, step);
    StepKeepsOverdue(c, s, step, id);
    forall j | j in Ahead(s', id)
      ensures (j in Ahead(s, id) || (step.Release? && j == step.id)) && (step.Claim? ==> j !in step.ids)
    {
      NobodyOvertakes(c, s, step, id, j);
    }
    if step.Claim? {
      assert Claimable(s.rows, s.now, step.locked, id);
      var taken := set i | 0 <= i < |step.ids| :: step.ids[i];
      DistinctSize(step.ids);
      assert forall i :: 0 <= i < |step.ids| ==> Claimable(s.rows, s.now, step.locked, step.ids[i]);
      assert taken <= Ahead(s, id);
      assert Ahead(s', id) <= Ahead(s, id) - taken;
      SubsetSize(Ahead(s', id), Ahead(s, id) - taken);
    } else if step.Release? {
      SubsetSize(Ahead(s', id), Ahead(s, id) + {step.id});
    } else {
      SubsetSize(Ahead(s', id), Ahead(s, id));
    }
  }

  lemma {:induction false} DistinctSize(ids: seq<nat>)
    requires forall i, j :: 0 <= i < j < |ids| ==> ids[i] != ids[j]
    ensures |set i | 0 <= i < |ids| :: ids[i]| == |ids|
  {
    if ids != [] {
      var n := |ids| - 1;
      DistinctSize(ids[..n]);
      var before := set i | 0 <= i < n :: ids[..n][i];
      assert (set i | 0 <= i < |ids| :: ids[i]) == before + {ids[n]};
    }
  }

  lemma {:induction false} SubsetSize<T>(a: set<T>, b: set<T>)
    requires a <= b
    ensures |a| <= |b|
  {
    if a != {} {
      var x :| x in a;
      SubsetSize(a - {x}, b - {x});
    }
  }

  /**
    No starvation: while an overdue message keeps being passed over, every claim takes a full batch of
    messages that were ahead of it, and nobody gets ahead but messages that a worker hands back when it
    shuts down. So it is passed over at most (|Ahead| + releases) / BATCH_SIZE times.
  */
  lemma {:induction false} NoStarvation(c: Config, run: Run, more: Run, id: nat)
    requires Valid(c, more) && Disciplined(c, more) && Extends(run, more) && AllPassBy(run, more, id)
    requires Valid(c, run) && Overdue(After(c, run), id)
    ensures Overdue(After(c, more), id)
    ensures 10 * Claims(run, more) + |Ahead(After(c, more), id)|
         <= |Ahead(After(c, run), id)| + Releases(run, more)
  {
    if more != run {
      NoStarvation(c, run, more.before, id);
      RunsAreHealthy(c, more.before);
      AheadShrinks(c, After(c, more.before), more.step, id);
    }
  }

  // ---- Serving -----------------------------------------------------------------------

  /** A step of one worker on its way through its batch: no crash, no lost outcome, no shutdown. */
  predicate Serves(step: Step, w: WorkerId) {
    IsServing(step) && step.worker == w
  }

  predicate IsServing(step: Step) {
    step.Gate? || step.Check? || step.Stamp? || step.Send? || step.Record?
  }

  /** `more` is `run` with serving steps of worker `w` after it. */
  predicate Served(c: Config, run: Run, more: Run, w: WorkerId)
    requires Valid(c, run)
  {
    more == run || (more.Then? && Served(c, run, more.before, w) && Valid(c, more) && Serves(more.step, w))
  }

  lemma {:induction false} ServedOn(c: Config, run: Run, mid: Run, more: Run, w: WorkerId)
    requires Valid(c, run) && Served(c, run, mid, w) && Valid(c, mid) && Served(c, mid, more, w)
    ensures Served(c, run, more, w)
  {
    if more != mid {
      ServedOn(c, run, mid, more.before, w);
    }
  }

  /** What serving leaves alone: the clock, the other workers, and every message outside the batch. */
  predicate Undisturbed(s: State, s': State, w: WorkerId)
    requires w < |s.workers|
  {
    && |s'.workers| == |s.workers| && |s'.rows| == |s.rows| && s'.now == s.now
    && (forall v :: 0 <= v < |s.workers| && v != w ==> s'.workers[v] == s.workers[v])
    && s'.workers[w].batch <= s.workers[w].batch
    && (forall i :: 0 <= i < |s.rows| && i !in s.workers[w].batch ==> s'.rows[i] == s.rows[i])
  }

  lemma ServingStepIsLocal(c: Config, s: State, step: Step, w: WorkerId)
    requires References(c, s) && Enabled(c, s, step) && Serves(step, w)
    ensures Undisturbed(s, Apply(c, s, step), w)
  {
  }

  lemma {:induction false} ServingIsLocal(c: Config, run: Run, more: Run, w: WorkerId)
    requires Valid(c, run) && w < |After(c, run).workers| && Served(c, run, more, w)
    ensures Valid(c, more) && Undisturbed(After(c, run), After(c, more), w)
  {
    if more != run {
      ServingIsLocal(c, run, more.before, w);
      RunsHaveReferences(c, more.before);
      ServingStepIsLocal(c, After(c, more.before), more.step, w);
    }
  }

  lemma {:induction false} ServingIsOrderly(c: Config, run: Run, more: Run, w: WorkerId, id: nat)
    requires Valid(c, run) && Served(c, run, more, w)
    ensures Valid(c, more) && Extends(run, more) && AllPassBy(run, more, id) && Orderly(run, more)
    ensures Releases(run, more) == 0
    ensures Disciplined(c, run) ==> Disciplined(c, more)
  {
    if more != run {
      ServingIsOrderly(c, run, more.before, w, id);
    }
  }

  function Acceptance(): DeliveryResult {
    DeliveryResult(true, Some(250), None, [], [])
  }

  /** The next step of a worker with a message in hand; the provider accepts. */
  function Onward(local: Local, w: WorkerId): Step
    requires !local.flight.Grounded?
  {
    match local.flight
    case Cleared(_, _, _) => Protocol.Stamp(w)
    case OnWire(_, _, _, _) => Send(w, Acceptance())
    case Answered(_, attempt, _) => Record(w, Backoff.Delay(attempt, 1.0), [])
  }

  function ToGo(flight: Flight): nat {
    match flight
    case Grounded => 0
    case Cleared(_, _, _) => 3
    case OnWire(_, _, _, _) => 2
    case Answered(_, _, _) => 1
  }

  /** It can be taken, and brings the worker nearer to the end of this message. */
  lemma GoesOnward(c: Config, s: State, w: WorkerId)
    requires References(c, s) && w < |s.workers| && !s.workers[w].flight.Grounded?
    ensures var step, local := Onward(s.workers[w], w), s.workers[w];
            && Enabled(c, s, step) && Serves(step, w)
            && var s' := Apply(c, s, step);
               && |s'.workers| == |s.workers| && ToGo(s'.workers[w].flight) < ToGo(local.flight)
               && (if s'.workers[w].flight.Grounded? then s'.workers[w] == Without(local, local.flight.id)
                   else s'.workers[w].batch == local.batch && s'.workers[w].flight.id == local.flight.id)
  {
    if s.workers[w].flight.Answered? {
      Backoff.DelayIsPossible(s.workers[w].flight.attempt, 1.0);
    }
  }

  /** Worker `w` gets through with the message it has in hand. */
  lemma {:induction false} Land(c: Config, run: Run, s: State, w: WorkerId) returns (more: Run)
    requires Leads(c, run, s) && w < |s.workers| && !s.workers[w].flight.Grounded?
    ensures Served(c, run, more, w) && Valid(c, more) && w < |After(c, more).workers|
    ensures After(c, more).workers[w] == Without(s.workers[w], s.workers[w].flight.id)
    decreases ToGo(s.workers[w].flight)
  {
    RunsHaveReferences(c, run);
    GoesOnward(c, s, w);
    var step := Onward(s.workers[w], w);
    Extend(c, run, s, step);
    more := Then(run, step);
    var s' := Apply(c, s, step);
    if !s'.workers[w].flight.Grounded? {
      var rest := Land(c, Then(run, step), s', w);
      ServedOn(c, run, more, rest, w);
      more := rest;
    }
  }

  /** Worker `w`, between messages, turns to one of its batch: the gate holds it back, or is passed. */
  lemma TakesUp(c: Config, s: State, w: WorkerId, id: nat)
    requires References(c, s) && w < |s.workers| && s.workers[w].flight.Grounded? && id in s.workers[w].batch
    ensures var step :=
              if Budget.Exhausted(UsedNow(s, id), Ceiling(c, s.rows[id].mailbox)) then Gate(w, id) else Check(w, id);
            && Enabled(c, s, step) && Serves(step, w)
            && var s' := Apply(c, s, step);
               && |s'.workers| == |s.workers|
               && (if step.Gate? then s'.workers[w] == Without(s.workers[w], id)
                   else s'.workers[w].batch == s.workers[w].batch && s'.workers[w].flight.Cleared?
                        && s'.workers[w].flight.id == id)
  {
  }

  /** It serves that message to the end. */
  lemma ServeOne(c: Config, run: Run, s: State, w: WorkerId, id: nat) returns (more: Run)
    requires Leads(c, run, s) && w < |s.workers| && s.workers[w].flight.Grounded? && id in s.workers[w].batch
    ensures Served(c, run, more, w) && Valid(c, more) && w < |After(c, more).workers|
    ensures After(c, more).workers[w] == Without(s.workers[w], id)
  {
    RunsHaveReferences(c, run);
    TakesUp(c, s, w, id);
    var step := if Budget.Exhausted(UsedNow(s, id), Ceiling(c, s.rows[id].mailbox)) then Gate(w, id) else Check(w, id);
    Extend(c, run, s, step);
    more := Then(run, step);
    if step.Check? {
      var rest := Land(c, Then(run, step), Apply(c, s, step), w);
      ServedOn(c, run, more, rest, w);
      more := rest;
    }
  }

  /** Worker `w` serves its whole batch. */
  lemma Finish(c: Config, run: Run, w: WorkerId) returns (more: Run)
    requires Valid(c, run) && w < |After(c, run).workers|
    ensures Served(c, run, more, w) && Valid(c, more) && w < |After(c, more).workers|
    ensures After(c, more).workers[w] == IDLE
    decreases |After(c, run).workers[w].batch|
  {
    RunsHaveReferences(c, run);
    var local := After(c, run).workers[w];
    if local == IDLE {
      more := run;
    } else {
      var next: Run;
      if local.flight.Grounded? {
        var id :| id in local.batch;
        next := ServeOne(c, run, After(c, run), w, id);
      } else {
        next := Land(c, run, After(c, run), w);
      }
      more := Finish(c, next, w);
      ServedOn(c, run, next, more, w);
    }
  }

  // ---- Reaching a worker -------------------------------------------------------------

  /** Only time, sweeps, claims that nobody locks out, and serving come after `run`. */
  predicate Orderly(run: Run, more: Run) {
    || more == run
    || (more.Then? && Orderly(run, more.before)
        && (more.step.Tick? || more.step.Reap? || (more.step.Claim? && more.step.locked == {})
            || IsServing(more.step)))
  }

  lemma {:induction false} OrderlyOn(a: Run, b: Run, c: Run)
    requires Orderly(a, b) && Orderly(b, c)
    ensures Orderly(a, c)
  {
    if b != c {
      OrderlyOn(a, b, c.before);
    }
  }

  /** An orderly, disciplined continuation. */
  ghost predicate Leaves(c: Config, run: Run, more: Run) {
    Valid(c, more) && Disciplined(c, more) && Extends(run, more) && Orderly(run, more)
  }

  lemma LeavesOn(c: Config, run: Run, mid: Run, more: Run)
    requires Leaves(c, run, mid) && Leaves(c, mid, more)
    ensures Leaves(c, run, more)
  {
    ExtendsOn(run, mid, more);
    OrderlyOn(run, mid, more);
  }

  ghost predicate InHand(c: Config, run: Run, id: nat)
    requires Valid(c, run)
  {
    exists w :: 0 <= w < |After(c, run).workers| && HeldBy(After(c, run), id, w)
  }

  /** An overdue message is claimed after finitely many batches. */
  lemma OverdueIsClaimed(c: Config, run: Run, id: nat) returns (more: Run)
    requires Valid(c, run) && Disciplined(c, run) && |After(c, run).workers| >= 1 && Overdue(After(c, run), id)
    ensures Leaves(c, run, more) && InHand(c, more, id)
    decreases |Ahead(After(c, run), id)|
  {
    var idle := Finish(c, run, 0);
    ServingIsOrderly(c, run, idle, 0, id);
    NoStarvation(c, run, idle, id);
    var s := After(c, idle);
    var ids := Queries.Select(s.rows, s.now, BATCH_SIZE, {});
    Queries.SelectIsSelection(s.rows, s.now, BATCH_SIZE, {});
    var claim := Claim(0, ids, {});
    var next := Then(idle, claim);
    assert Leaves(c, run, next);
    if id in ids {
      more := next;
      assert HeldBy(After(c, more), id, 0);
    } else {
      RunsAreHealthy(c, idle);
      AheadShrinks(c, s, claim, id);
      more := OverdueIsClaimed(c, next, id);
      LeavesOn(c, run, next, more);
    }
  }

  lemma StaysOrphan(s: State, s': State, w: WorkerId, id: nat)
    requires w < |s.workers| && Undisturbed(s, s', w) && Orphan(s, id)
    ensures Orphan(s', id) && s'.rows[id] == s.rows[id]
  {
    assert !HeldBy(s, id, w);
    forall v | 0 <= v < |s'.workers| ensures !HeldBy(s', id, v) {
      assert !HeldBy(s, id, v);
    }
  }

  /** The first `n` workers get through with their batches; a message nobody holds is not touched. */
  lemma {:induction false} AllFinish(c: Config, run: Run, n: nat, id: nat) returns (more: Run)
    requires Valid(c, run) && Disciplined(c, run) && n <= |After(c, run).workers| && Orphan(After(c, run), id)
    ensures Leaves(c, run, more) && |After(c, more).workers| == |After(c, run).workers|
    ensures forall w :: 0 <= w < n ==> After(c, more).workers[w] == IDLE
    ensures Orphan(After(c, more), id) && After(c, more).rows[id] == After(c, run).rows[id]
    decreases n
  {
    if n == 0 {
      more := run;
    } else {
      var before := AllFinish(c, run, n - 1, id);
      more := Finish(c, before, n - 1);
      ServingIsOrderly(c, before, more, n - 1, id);
      ServingIsLocal(c, before, more, n - 1);
      LeavesOn(c, run, before, more);
      StaysOrphan(After(c, before), After(c, more), n - 1, id);
    }
  }

  /** Once every worker is through, time and a sweep put an orphan back in the queue. */
  lemma OrphanIsOverdue(c: Config, run: Run, id: nat) returns (more: Run)
    requires Valid(c, run) && Disciplined(c, run) && Orphan(After(c, run), id)
    ensures Leaves(c, run, more) && Overdue(After(c, more), id)
    ensures |After(c, more).workers| == |After(c, run).workers|
  {
    var idle := AllFinish(c, run, |After(c, run).workers|, id);
    more := SweptUp(c, idle, id);
    LeavesOn(c, run, idle, more);
  }

  lemma SweptUp(c: Config, run: Run, id: nat) returns (more: Run)
    requires Valid(c, run) && Disciplined(c, run) && Orphan(After(c, run), id)
    requires forall w :: 0 <= w < |After(c, run).workers| ==> After(c, run).workers[w] == IDLE
    ensures Leaves(c, run, more) && Overdue(After(c, more), id)
    ensures |After(c, more).workers| == |After(c, run).workers|
  {
    var s := After(c, run);
    OrphansComeBack(c, run, id, 0.0);
    var stale := s.rows[id].claimedAt.value + STALE_CLAIM_AFTER;
    var seconds := if stale < s.now then 0.0 else stale - s.now + 1.0;
    OrphansComeBack(c, run, id, seconds);
    var ticked, reaped := Then(run, Tick(seconds)), Then(Then(run, Tick(seconds)), Reap);
    more := Then(reaped, Tick(1.0));
    var s1 := LeavesByOne(c, run, s, Tick(seconds));
    var s2 := LeavesByOne(c, ticked, s1, Reap);
    var s3 := LeavesByOne(c, reaped, s2, Tick(1.0));
    LeavesOn(c, run, ticked, reaped);
    LeavesOn(c, run, reaped, more);
    assert s3.rows == s2.rows && s2.now < s3.now;
  }

  lemma LeavesByOne(c: Config, run: Run, s: State, step: Step) returns (s': State)
    requires Leads(c, run, s) && Disciplined(c, run)
    requires (step.Tick? && step.seconds >= 0.0) || (step.Reap? && NoLiveClaimIsStale(s))
    ensures Leaves(c, run, Then(run, step)) && Leads(c, Then(run, step), s')
    ensures s' == Apply(c, s, step) && s'.workers == s.workers
  {
    Extend(c, run, s, step);
    s' := Apply(c, s, step);
  }

  /**
    From every state that a disciplined run reaches, every unfinished message can be brought into a
    worker's hands by time, sweeps, claims and serving alone: nobody need crash, shut down or be locked out.
  */
  lemma EveryMessageIsServed(c: Config, run: Run, id: nat) returns (more: Run)
    requires Valid(c, run) && Disciplined(c, run) && c.workers >= 1
    requires id < |After(c, run).rows| && !Life.Terminal(After(c, run).rows[id])
    ensures Leaves(c, run, more) && InHand(c, more, id)
  {
    var s := After(c, run);
    RunsHaveReferences(c, run);
    NeverLostNeverShared(c, run, id);
    if exists w :: 0 <= w < |s.workers| && HeldBy(s, id, w) {
      more := run;
    } else {
      var overdue: Run;
      if Pending(s.rows[id]) {
        var wait := if s.rows[id].nextAttemptAt < s.now then 0.0 else s.rows[id].nextAttemptAt - s.now + 1.0;
        overdue := Then(run, Tick(wait));
        assert After(c, overdue) == Apply(c, s, Tick(wait));
      } else {
        overdue := OrphanIsOverdue(c, run, id);
      }
      more := OverdueIsClaimed(c, overdue, id);
      LeavesOn(c, run, overdue, more);
    }
  }
}
