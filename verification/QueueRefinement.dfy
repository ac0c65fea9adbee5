/**
  Every step of the queue protocol moves every message by one move of its life. What a message's
  moves keep is therefore true of every message in every disciplined run.
*/
module QueueRefinement {
  import opened Prelude
  import opened Messages
  import opened Protocol
  import Life

  // ---- The life of one message -------------------------------------------------------

  function CustodyOf(s: State, id: nat): Life.Custody
    requires id < |s.rows|
  {
    var holder := s.rows[id].claimedBy;
    if holder.None? || holder.value >= |s.workers| || id !in s.workers[holder.value].batch then Life.Unheld
    else
      match s.workers[holder.value].flight
      case Grounded => Life.Held
      case Cleared(j, body, seen) => if j == id then Life.Cleared(body, seen) else Life.Held
      case OnWire(j, attempt, body, _) => if j == id then Life.OnWire(attempt, body) else Life.Held
      case Answered(j, attempt, result) => if j == id then Life.Answered(attempt, result) else Life.Held
  }

  /** The conversations with the provider about one message. */
  function SentFor(wire: seq<Life.Wire>, id: nat): seq<Life.Wire> {
    if wire == [] then []
    else SentFor(wire[..|wire| - 1], id) + if wire[|wire| - 1].id == id then [wire[|wire| - 1]] else []
  }

  predicate Tables(s: State) {
    |s.rows| == |s.logs| == |s.originals|
  }

  function LifeOf(s: State, id: nat): Life.Life
    requires Tables(s) && id < |s.rows|
  {
    Life.Life(s.rows[id], s.logs[id], CustodyOf(s, id), SentFor(s.wire, id), s.originals[id])
  }

  /** What a live worker means to serve is a sending row that names it, and it is delivering one of those. */
  predicate OwnedBy(s: State, w: WorkerId)
    requires w < |s.workers|
  {
    && (forall id :: id in s.workers[w].batch ==>
          id < |s.rows| && s.rows[id].status == Sending && s.rows[id].claimedBy == Some(w))
    && (!s.workers[w].flight.Grounded? ==> s.workers[w].flight.id in s.workers[w].batch)
  }

  predicate Owned(s: State) {
    && Tables(s)
    && (forall w :: 0 <= w < |s.workers| ==> OwnedBy(s, w))
    && (forall i :: 0 <= i < |s.wire| ==> s.wire[i].id < |s.rows|)
  }

  function MoveOf(c: Config, s: State, step: Step, id: nat): Life.Move
    requires Enabled(c, s, step) && Tables(s) && id < |s.rows|
  {
    match step
    case Tick(_) => Life.Stay
    case Ingest(_, _, _) => Life.Stay
    case Claim(w, ids, _) => if id in ids then Life.Take(w) else Life.Stay
    case Release(_, j) => if j == id then Life.GiveBack else Life.Stay
    case Gate(_, j) =>
      if j == id then
        Life.Gate(UsedNow(s, id), Ceiling(c, s.rows[id].mailbox),
                  Budget.NextWindowOpening(s.rows, s.rows[id].mailbox, s.now))
      else Life.Stay
    case NoHost(_, j) => if j == id then Life.GiveUp else Life.Stay
    case Check(_, j) => if j == id then Life.Clear else Life.Stay
    case Stamp(w) => if s.workers[w].flight.id == id then Life.Stamp else Life.Stay
    case Send(w, result) =>
      if s.workers[w].flight.id == id then Life.Transmit(WireEntry(s, s.workers[w].flight, result.success), result)
      else Life.Stay
    case Record(w, delay, suppressed) =>
      if s.workers[w].flight.id == id then Life.Record(c.classify(s.workers[w].flight.result), delay, suppressed)
      else Life.Stay
    case LoseOutcome(w) => if s.workers[w].flight.id == id then Life.Drop else Life.Stay
    case Crash(w) => if id in s.workers[w].batch then Life.Drop else Life.Stay
    case Reap =>
      if StaleClaim(s.rows[id], s.now - STALE_CLAIM_AFTER) then Life.Reap(s.now - STALE_CLAIM_AFTER) else Life.Stay
    case Purge(retention) => if Expired(s.rows[id], s.now - retention) then Life.Purge(s.now - retention) else Life.Stay
  }

  // ---- Single ownership --------------------------------------------------------------

  lemma {:induction false} StepKeepsOwned(c: Config, s: State, step: Step)
    requires Owned(s) && Enabled(c, s, step)
    requires step.Reap? ==> NoLiveClaimIsStale(s)
    ensures Owned(Apply(c, s, step))
  {
    var s' := Apply(c, s, step);
    forall w | 0 <= w < |s'.workers| ensures OwnedBy(s', w) {
      if step.Tick? || step.Ingest? || step.Reap? || step.Purge? {
        SweepKeepsOwnedBy(c, s, step, w);
      } else {
        WorkKeepsOwnedBy(c, s, step, w);
      }
    }
  }

  lemma SweepKeepsOwnedBy(c: Config, s: State, step: Step, w: WorkerId)
    requires Owned(s) && Enabled(c, s, step) && w < |s.workers|
    requires step.Tick? || step.Ingest? || step.Purge? || (step.Reap? && NoLiveClaimIsStale(s))
    ensures w < |Apply(c, s, step).workers| && OwnedBy(Apply(c, s, step), w)
  {
    assert OwnedBy(s, w);
  }

  lemma WorkKeepsOwnedBy(c: Config, s: State, step: Step, w: WorkerId)
    requires Owned(s) && Enabled(c, s, step) && w < |s.workers|
    requires !step.Tick? && !step.Ingest? && !step.Reap? && !step.Purge?
    ensures w < |Apply(c, s, step).workers| && OwnedBy(Apply(c, s, step), w)
  {
    assert OwnedBy(s, w) && OwnedBy(s, step.worker);
  }

  // ---- Refinement --------------------------------------------------------------------

  predicate Refines(c: Config, s: State, step: Step, id: nat)
    requires Enabled(c, s, step) && Owned(s) && id < |s.rows|
  {
    var s' := Apply(c, s, step);
    var move := MoveOf(c, s, step, id);
    && Tables(s') && |s.rows| <= |s'.rows|
    && Life.Possible(LifeOf(s, id), move, s.now)
    && LifeOf(s', id) == Life.Advance(LifeOf(s, id), move, s.now)
  }

  lemma SendRefines(c: Config, s: State, step: Step, id: nat)
    requires Enabled(c, s, step) && Owned(s) && id < |s.rows| && step.Send?
    ensures Refines(c, s, step, id)
  {
    var entry := WireEntry(s, s.workers[step.worker].flight, step.result.success);
    assert (s.wire + [entry])[..|s.wire|] == s.wire;
    assert OwnedBy(s, step.worker);
  }

  lemma ClaimRefines(c: Config, s: State, step: Step, id: nat)
    requires Enabled(c, s, step) && Owned(s) && id < |s.rows| && step.Claim?
    ensures Refines(c, s, step, id)
  {
    assert OwnedBy(s, step.worker);
  }

  lemma SweepRefines(c: Config, s: State, step: Step, id: nat)
    requires Enabled(c, s, step) && Owned(s) && id < |s.rows|
    requires step.Purge? || (step.Reap? && NoLiveClaimIsStale(s))
    ensures Refines(c, s, step, id)
  {
    var holder := s.rows[id].claimedBy;
    if holder.Some? && holder.value < |s.workers| {
      assert OwnedBy(s, holder.value);
    }
  }

  lemma SettleRefines(c: Config, s: State, step: Step, id: nat)
    requires Enabled(c, s, step) && Owned(s) && id < |s.rows|
    requires step.Gate? || step.NoHost? || step.Record?
    ensures Refines(c, s, step, id)
  {
    assert OwnedBy(s, step.worker);
  }

  lemma DropRefines(c: Config, s: State, step: Step, id: nat)
    requires Enabled(c, s, step) && Owned(s) && id < |s.rows|
    requires step.Release? || step.LoseOutcome? || step.Crash?
    ensures Refines(c, s, step, id)
  {
    assert OwnedBy(s, step.worker);
  }

  lemma OtherRefines(c: Config, s: State, step: Step, id: nat)
    requires Enabled(c, s, step) && Owned(s) && id < |s.rows|
    requires step.Tick? || step.Ingest? || step.Check? || step.Stamp?
    ensures Refines(c, s, step, id)
  {
    if !step.Tick? && !step.Ingest? {
      assert OwnedBy(s, step.worker);
    }
  }

  /** The whole protocol, one message at a time. */
  lemma StepRefines(c: Config, s: State, step: Step, id: nat)
    requires Enabled(c, s, step) && Owned(s) && id < |s.rows|
    requires step.Reap? ==> NoLiveClaimIsStale(s)
    ensures Refines(c, s, step, id)
  {
    match step
    case Send(_, _) => SendRefines(c, s, step, id);
    case Claim(_, _, _) => ClaimRefines(c, s, step, id);
    case Reap => SweepRefines(c, s, step, id);
    case Purge(_) => SweepRefines(c, s, step, id);
    case Tick(_) => OtherRefines(c, s, step, id);
    case Ingest(_, _, _) => OtherRefines(c, s, step, id);
    case Check(_, _) => OtherRefines(c, s, step, id);
    case Stamp(_) => OtherRefines(c, s, step, id);
    case Crash(_) => DropRefines(c, s, step, id);
    case Release(_, _) => DropRefines(c, s, step, id);
    case LoseOutcome(_) => DropRefines(c, s, step, id);
    case _ => SettleRefines(c, s, step, id);
  }

  // ---- All messages, all runs --------------------------------------------------------

  predicate Healthy(s: State) {
    Owned(s) && forall id :: 0 <= id < |s.rows| ==> Life.Sound(LifeOf(s, id))
  }

  lemma {:induction false} NothingSentYet(wire: seq<Life.Wire>, id: nat)
    requires forall i :: 0 <= i < |wire| ==> wire[i].id != id
    ensures SentFor(wire, id) == []
  {
    if wire != [] {
      NothingSentYet(wire[..|wire| - 1], id);
    }
  }

  lemma {:induction false} StepKeepsHealthy(c: Config, s: State, step: Step)
    requires Healthy(s) && Enabled(c, s, step)
    requires step.Reap? ==> NoLiveClaimIsStale(s)
    ensures Healthy(Apply(c, s, step))
  {
    var s' := Apply(c, s, step);
    StepKeepsOwned(c, s, step);
    forall id | 0 <= id < |s'.rows| ensures Life.Sound(LifeOf(s', id)) {
      if id < |s.rows| {
        StepRefines(c, s, step, id);
        Life.MoveKeepsSound(LifeOf(s, id), MoveOf(c, s, step, id), s.now);
      } else {
        Life.NewLifeIsSound(step.mailbox, step.recipients, step.body, s.now);
        NothingSentYet(s.wire, id);
      }
    }
  }

  /** In every disciplined run, whatever crashes, every message's life is sound. */
  lemma {:induction false} RunsAreHealthy(c: Config, run: Run)
    requires Valid(c, run) && Disciplined(c, run)
    ensures Healthy(After(c, run))
  {
    match run
    case Start =>
    case Then(before, step) =>
      RunsAreHealthy(c, before);
      StepKeepsHealthy(c, After(c, before), step);
  }
}
