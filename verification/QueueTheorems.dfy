/** What the queue promises, over every run. */
module QueueTheorems {
  import opened Prelude
  import opened Messages
  import opened Verdicts
  import opened Protocol
  import opened QueueRefinement
  import opened RetryBounds
  import Backoff
  import Life

  // ---- When single ownership holds ---------------------------------------------------

  /**
    The reaper does not look at who is alive. It preserves single ownership exactly when no live
    worker holds a claim older than the threshold.
  */
  lemma ReapKeepsOwnershipIff(c: Config, s: State)
    requires Owned(s)
    ensures Owned(Apply(c, s, Reap)) <==> NoLiveClaimIsStale(s)
  {
    var s' := Apply(c, s, Reap);
    if NoLiveClaimIsStale(s) {
      StepKeepsOwned(c, s, Reap);
    } else {
      var w, id :| 0 <= w < |s.workers| && id in s.workers[w].batch && id < |s.rows|
                   && StaleClaim(s.rows[id], s.now - STALE_CLAIM_AFTER);
      assert s'.rows[id].status == TemporarilyFailed;
      assert !OwnedBy(s', w);
    }
  }

  /** Ownership is single at every moment of the run. */
  predicate AlwaysOwned(c: Config, run: Run)
    requires Valid(c, run)
  {
    Owned(After(c, run)) && (run.Then? ==> AlwaysOwned(c, run.before))
  }

  /** Over whole runs too, discipline of the reaper is exactly what single ownership needs. */
  lemma {:induction false} OwnedIffDisciplined(c: Config, run: Run)
    requires Valid(c, run)
    ensures AlwaysOwned(c, run) <==> Disciplined(c, run)
  {
    if run.Then? {
      var s := After(c, run.before);
      OwnedIffDisciplined(c, run.before);
      if AlwaysOwned(c, run.before) {
        if run.step.Reap? {
          ReapKeepsOwnershipIff(c, s);
        } else {
          StepKeepsOwned(c, s, run.step);
        }
      }
    }
  }

  /** Maintenance runs only while every worker is between batches, as it does with a single worker process. */
  predicate ReapsBetweenBatches(c: Config, run: Run)
    requires Valid(c, run)
  {
    match run
    case Start => true
    case Then(before, step) =>
      && ReapsBetweenBatches(c, before)
      && (step.Reap? ==> forall w :: 0 <= w < |After(c, before).workers| ==> After(c, before).workers[w] == IDLE)
  }

  /** Every live worker finishes a batch before its claims go stale. */
  predicate Prompt(c: Config, run: Run)
    requires Valid(c, run)
  {
    var s := After(c, run);
    && (forall w, id ::
          0 <= w < |s.workers| && id in s.workers[w].batch && id < |s.rows| && s.rows[id].claimedAt.Some? ==>
          s.now <= s.rows[id].claimedAt.value + STALE_CLAIM_AFTER)
    && (run.Then? ==> Prompt(c, run.before))
  }

  lemma {:induction false} OneWorkerIsDisciplined(c: Config, run: Run)
    requires Valid(c, run) && ReapsBetweenBatches(c, run)
    ensures Disciplined(c, run)
  {
    if run.Then? {
      OneWorkerIsDisciplined(c, run.before);
    }
  }

  lemma {:induction false} PromptWorkersAreDisciplined(c: Config, run: Run)
    requires Valid(c, run) && Prompt(c, run)
    ensures Disciplined(c, run)
  {
    if run.Then? {
      PromptWorkersAreDisciplined(c, run.before);
    }
  }

  // ---- Duplicates --------------------------------------------------------------------

  /** How often the provider said yes to a message. */
  function Successes(wire: seq<Life.Wire>, id: nat): nat {
    if wire == [] then 0
    else Successes(wire[..|wire| - 1], id)
         + if wire[|wire| - 1].id == id && wire[|wire| - 1].success then 1 else 0
  }

  /** How often a worker died, or lost the outcome, with an attempt of this message in flight. */
  function Losses(c: Config, run: Run, id: nat): nat
    requires Valid(c, run)
  {
    match run
    case Start => 0
    case Then(before, step) =>
      var s := After(c, before);
      Losses(c, before, id) +
      if (step.Crash? || step.LoseOutcome?) && Airborne(s.workers[step.worker].flight, id) then 1 else 0
  }

  lemma {:induction false} SuccessesAreWins(wire: seq<Life.Wire>, id: nat)
    ensures Successes(wire, id) == Life.Wins(SentFor(wire, id))
  {
    if wire != [] {
      var before := wire[..|wire| - 1];
      SuccessesAreWins(before, id);
      assert SentFor(before, id) + [] == SentFor(before, id);
      if wire[|wire| - 1].id == id {
        assert SentFor(wire, id)[..|SentFor(before, id)|] == SentFor(before, id);
      }
    }
  }

  lemma {:induction false} LossesAreCounted(c: Config, run: Run, id: nat)
    requires Valid(c, run) && Disciplined(c, run)
    ensures Healthy(After(c, run))
    ensures Losses(c, run, id) == if id < |After(c, run).rows| then Life.Lost(LifeOf(After(c, run), id)) else 0
  {
    RunsAreHealthy(c, run);
    match run
    case Start =>
    case Then(before, step) =>
      var s := After(c, before);
      LossesAreCounted(c, before, id);
      if id < |s.rows| {
        StepLoses(c, s, step, id);
      } else {
        NothingLostYet(c, s, step, id);
      }
  }

  lemma StepLoses(c: Config, s: State, step: Step, id: nat)
    requires Healthy(s) && Enabled(c, s, step) && id < |s.rows| && (step.Reap? ==> NoLiveClaimIsStale(s))
    ensures Tables(Apply(c, s, step)) && id < |Apply(c, s, step).rows|
    ensures Life.Lost(LifeOf(Apply(c, s, step), id)) == Life.Lost(LifeOf(s, id)) +
              if (step.Crash? || step.LoseOutcome?) && Airborne(s.workers[step.worker].flight, id) then 1 else 0
  {
    StepRefines(c, s, step, id);
    Life.MoveLoses(LifeOf(s, id), MoveOf(c, s, step, id), s.now);
    DropIsAirborne(c, s, step, id);
  }

  lemma NothingLostYet(c: Config, s: State, step: Step, id: nat)
    requires Healthy(s) && Enabled(c, s, step) && id >= |s.rows| && Tables(Apply(c, s, step))
    ensures !((step.Crash? || step.LoseOutcome?) && Airborne(s.workers[step.worker].flight, id))
    ensures id < |Apply(c, s, step).rows| ==> Life.Lost(LifeOf(Apply(c, s, step), id)) == 0
  {
    if step.Ingest? {
      Life.EmitTells([], ApiAccepted, s.now);
      Life.EmitTells(Emit([], ApiAccepted, s.now), MessageQueued, s.now);
      Life.ReadMeans(NewLog(s.now));
    } else if step.Crash? || step.LoseOutcome? {
      assert OwnedBy(s, step.worker);
    }
  }

  lemma DropIsAirborne(c: Config, s: State, step: Step, id: nat)
    requires Enabled(c, s, step) && Owned(s) && id < |s.rows|
    ensures (MoveOf(c, s, step, id).Drop? && Life.InFlight(CustodyOf(s, id))) <==>
            ((step.Crash? || step.LoseOutcome?) && Airborne(s.workers[step.worker].flight, id))
  {
    if step.Crash? || step.LoseOutcome? {
      assert OwnedBy(s, step.worker);
    }
  }

  /**
    At least once, with a bound: the provider accepts a message at most once more than the number of
    its attempts that died in flight. Without such a death it is accepted at most once.
  */
  lemma DuplicateBound(c: Config, run: Run, id: nat)
    requires Valid(c, run) && Disciplined(c, run) && id < |After(c, run).rows|
    ensures Successes(After(c, run).wire, id) <= 1 + Losses(c, run, id)
    ensures After(c, run).rows[id].status != AcceptedByProvider && !Life.InFlight(CustodyOf(After(c, run), id)) ==>
              Successes(After(c, run).wire, id) <= Losses(c, run, id)
  {
    LossesAreCounted(c, run, id);
    SuccessesAreWins(After(c, run).wire, id);
    Life.ReadMeans(After(c, run).logs[id]);
  }

  // ---- The timeline ------------------------------------------------------------------

  /** The timeline is complete, numbered and final, and the row says no more than it does. */
  lemma HonestTimeline(c: Config, run: Run, id: nat)
    requires Valid(c, run) && Disciplined(c, run) && id < |After(c, run).rows|
    ensures Tables(After(c, run))
    ensures var row, log := After(c, run).rows[id], After(c, run).logs[id];
            && Numbered(log)
            && row.attempts == Attempts(log)
            && Endings(log) <= 1
            && (Life.Terminal(row) <==> Endings(log) == 1)
            && NoAttemptAfterEnding(log)
  {
    RunsAreHealthy(c, run);
    assert Life.Sound(LifeOf(After(c, run), id));
    Life.ReadMeans(After(c, run).logs[id]);
    Life.NoLateAttemptMeans(After(c, run).logs[id]);
  }

  /** Terminal states absorb: whatever happens later, the status, the timeline and the wire record stay as they are. */
  lemma {:induction false} TerminalIsAbsorbing(c: Config, run: Run, more: Run, id: nat)
    requires Valid(c, more) && Disciplined(c, more) && Extends(run, more)
    requires Valid(c, run) && id < |After(c, run).rows| && Life.Terminal(After(c, run).rows[id])
    ensures Tables(After(c, run)) && Tables(After(c, more)) && id < |After(c, more).rows|
    ensures After(c, more).rows[id].status == After(c, run).rows[id].status
    ensures After(c, more).logs[id] == After(c, run).logs[id]
    ensures SentFor(After(c, more).wire, id) == SentFor(After(c, run).wire, id)
  {
    RunsAreHealthy(c, more);
    if more != run {
      TerminalIsAbsorbing(c, run, more.before, id);
      var s := After(c, more.before);
      RunsAreHealthy(c, more.before);
      StepRefines(c, s, more.step, id);
      Life.TerminalIsFinal(LifeOf(s, id), MoveOf(c, s, more.step, id), s.now);
    }
  }

  // ---- Never lost, never shared ------------------------------------------------------

  predicate HeldBy(s: State, id: nat, w: WorkerId) {
    w < |s.workers| && id in s.workers[w].batch
  }

  /** A claim whose worker died: sending, and nobody will finish it. */
  predicate Orphan(s: State, id: nat) {
    id < |s.rows| && s.rows[id].status == Sending && forall w :: 0 <= w < |s.workers| ==> !HeldBy(s, id, w)
  }

  predicate ExactlyOne(a: bool, b: bool, c: bool) {
    (a && !b && !c) || (!a && b && !c) || (!a && !b && c)
  }

  /** Every message is in exactly one place, a message in a worker's hands is sending, and no two workers share one. */
  lemma NeverLostNeverShared(c: Config, run: Run, id: nat)
    requires Valid(c, run) && Disciplined(c, run) && id < |After(c, run).rows|
    ensures var s := After(c, run);
            && ExactlyOne(Life.PendingShape(s.rows[id]), Life.SendingShape(s.rows[id]), Life.TerminalShape(s.rows[id]))
            && (forall w :: HeldBy(s, id, w) ==> s.rows[id].status == Sending)
            && (forall v, w :: HeldBy(s, id, v) && HeldBy(s, id, w) ==> v == w)
            && (s.rows[id].status == Sending ==> Orphan(s, id) || exists w :: HeldBy(s, id, w))
  {
    RunsAreHealthy(c, run);
    var s := After(c, run);
    assert Life.Sound(LifeOf(s, id));
    forall w: WorkerId | HeldBy(s, id, w) ensures s.rows[id].claimedBy == Some(w) && s.rows[id].status == Sending {
      assert OwnedBy(s, w);
    }
  }

  /** Time and one sweep return every orphan to the queue, due at once: past the threshold, none is left behind. */
  lemma OrphansComeBack(c: Config, run: Run, id: nat, seconds: real)
    requires Valid(c, run) && Disciplined(c, run) && Orphan(After(c, run), id) && seconds >= 0.0
    ensures After(c, run).rows[id].claimedAt.Some?
    ensures After(c, run).rows[id].claimedAt.value + STALE_CLAIM_AFTER < After(c, run).now + seconds ==>
              var s' := After(c, Then(Then(run, Tick(seconds)), Reap));
              id < |s'.rows| && Life.PendingShape(s'.rows[id]) && Due(s'.rows[id], s'.now)
  {
    RunsAreHealthy(c, run);
    assert Life.Sound(LifeOf(After(c, run), id));
    var ticked := Apply(c, After(c, run), Tick(seconds));
    assert After(c, Then(run, Tick(seconds))) == ticked;
    assert After(c, Then(Then(run, Tick(seconds)), Reap)) == Apply(c, ticked, Reap);
  }

  // ---- Purging -----------------------------------------------------------------------

  /** Whatever was purged was finished, and whatever reached the wire carried the body accepted at ingest. */
  lemma PurgeIsSafe(c: Config, run: Run)
    requires Valid(c, run) && Disciplined(c, run)
    ensures var s := After(c, run);
            && Tables(s)
            && (forall id :: 0 <= id < |s.rows| && s.rows[id].purgedAt.Some? ==> Life.Terminal(s.rows[id]))
            && (forall id :: 0 <= id < |s.rows| && s.rows[id].purgedAt.None? ==> s.rows[id].body == s.originals[id])
            && (forall i :: 0 <= i < |s.wire| ==>
                  s.wire[i].id < |s.rows| && s.wire[i].body == s.originals[s.wire[i].id])
  {
    RunsAreHealthy(c, run);
    var s := After(c, run);
    forall id | 0 <= id < |s.rows|
      ensures s.rows[id].purgedAt.Some? ==> Life.Terminal(s.rows[id])
      ensures s.rows[id].purgedAt.None? ==> s.rows[id].body == s.originals[id]
    {
      assert Life.Sound(LifeOf(s, id));
    }
    forall i | 0 <= i < |s.wire| ensures s.wire[i].body == s.originals[s.wire[i].id] {
      assert Life.Sound(LifeOf(s, s.wire[i].id));
      SentIncludes(s.wire, i);
    }
  }

  lemma {:induction false} SentIncludes(wire: seq<Life.Wire>, i: nat)
    requires i < |wire|
    ensures wire[i] in SentFor(wire, wire[i].id)
  {
    if i < |wire| - 1 {
      SentIncludes(wire[..|wire| - 1], i);
    }
  }

  /** A sweep clears exactly the finished messages past retention, and touches no timeline. */
  lemma PurgeIsExact(c: Config, run: Run, retention: real, id: nat)
    requires Valid(c, run) && Disciplined(c, run) && id < |After(c, run).rows|
    ensures var s, s' := After(c, run), Apply(c, After(c, run), Purge(retention));
            && s'.logs == s.logs
            && (s'.rows[id] != s.rows[id] <==>
                  && Life.Terminal(s.rows[id]) && s.rows[id].purgedAt.None?
                  && s.rows[id].completedAt.Some? && s.rows[id].completedAt.value < s.now - retention)
            && (s'.rows[id] != s.rows[id] ==>
                  s'.rows[id] == s.rows[id].(body := Body(None, None), purgedAt := Some(s.now)))
  {
    RunsAreHealthy(c, run);
    assert Life.Sound(LifeOf(After(c, run), id));
  }

  // ---- Retries -----------------------------------------------------------------------

  /**
    In every run, however often workers crash and whatever the reaper takes from whom: at most seven
    deferrals, waiting together at most 89,460 seconds, and as much again for each stale stamp.
  */
  lemma BoundedRetries(c: Config, run: Run, id: nat)
    requires Valid(c, run) && id < |After(c, run).rows|
    ensures Tables(After(c, run))
    ensures Deferrals(After(c, run).logs[id]) <= 7 * (1 + Stale(c, run, id))
    ensures Backlog(After(c, run).logs[id]) <= (1 + Stale(c, run, id)) as real * 89460.0
  {
    DeferralsArePaidFor(c, run, id);
  }

  /**
    Where every stamp finds the count that its check loaded: at most seven deferrals, of different
    attempts, a later attempt always waiting strictly longer, and together at most 89,460 seconds.
  */
  lemma FreshRetries(c: Config, run: Run, id: nat)
    requires Valid(c, run) && id < |After(c, run).rows| && Stale(c, run, id) == 0
    ensures Tables(After(c, run))
    ensures var log := After(c, run).logs[id];
            && Deferrals(log) <= 7
            && Backlog(log) <= 89460.0
            && (forall i, j ::
                  0 <= i < |log| && 0 <= j < |log| && i != j && log[i].kind.Deferred? && log[j].kind.Deferred? ==>
                    && log[i].kind.attempt != log[j].kind.attempt
                    && (log[i].kind.attempt < log[j].kind.attempt ==> log[i].kind.delay < log[j].kind.delay))
  {
    DeferralsArePaidFor(c, run, id);
    var log := After(c, run).logs[id];
    forall i, j | 0 <= i < |log| && 0 <= j < |log| && i != j && log[i].kind.Deferred? && log[j].kind.Deferred?
      ensures log[i].kind.attempt != log[j].kind.attempt
      ensures log[i].kind.attempt < log[j].kind.attempt ==> log[i].kind.delay < log[j].kind.delay
    {
      FreshDeferralsDiffer(c, run, id, i, j);
    }
  }

  /** Single ownership leaves no stamp stale: what a worker loaded is what the row still says. */
  lemma {:induction false} DisciplinedStampsAreFresh(c: Config, run: Run, id: nat)
    requires Valid(c, run) && Disciplined(c, run)
    ensures Stale(c, run, id) == 0
  {
    if run.Then? {
      var s := After(c, run.before);
      DisciplinedStampsAreFresh(c, run.before, id);
      RunsAreHealthy(c, run.before);
      if StampsOn(s, run.step, id) && id < |s.rows| {
        StepRefines(c, s, run.step, id);
        assert Life.Sound(LifeOf(s, id));
      }
    }
  }

  /**
    In every run, a message is given up only for a stated reason, and a person is told unless the verdict
    was final.
  */
  lemma RejectionIsJustified(c: Config, run: Run, id: nat, i: nat)
    requires Valid(c, run) && id < |After(c, run).rows|
    requires Tables(After(c, run)) && i < |After(c, run).logs[id]| && After(c, run).logs[id][i].kind.Failed?
    ensures var cause := After(c, run).logs[id][i].kind.cause;
            && (cause.NoHost? || !cause.retryable || cause.attempt >= Backoff.MAX_ATTEMPTS)
            && (cause.NoHost? || cause.retryable ==> After(c, run).rows[id].needsReview)
  {
    RunsAreDecided(c, run, id);
    assert Reasoned(After(c, run), id);
  }

  /**
    With single ownership, deferrals are recorded in the order of their attempts, and there are at most
    eight attempts besides the ones that died in flight.
  */
  lemma RetriesInOrder(c: Config, run: Run, id: nat)
    requires Valid(c, run) && Disciplined(c, run) && id < |After(c, run).rows|
    ensures Tables(After(c, run))
    ensures var row, log := After(c, run).rows[id], After(c, run).logs[id];
            && (forall i, j :: 0 <= i < j < |log| && log[i].kind.Deferred? && log[j].kind.Deferred? ==>
                  log[i].kind.attempt < log[j].kind.attempt)
            && row.attempts <= Backoff.MAX_ATTEMPTS + Losses(c, run, id)
  {
    LossesAreCounted(c, run, id);
    var s := After(c, run);
    assert Life.Sound(LifeOf(s, id));
    Life.ReadMeans(s.logs[id]);
    Life.OrderlyMeans(s.logs[id]);
    Life.OrderlyIsBounded(s.logs[id]);
  }
}
