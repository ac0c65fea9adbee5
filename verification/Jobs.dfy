/**
  The provisioning job queue (`emaild/jobs.py`, driven by `emaild/provisioner.py`) as a protocol.
  `enqueue` reads the outstanding jobs and then inserts, in a transaction that was opened before, so it is
  three steps, and the row is dated from the first of them; a provisioner holds the row
  lock of its job, and its claim uncommitted, until the job is finished in the same transaction.
*/
module Jobs {
  import opened Prelude

  const STALE_CLAIM_AFTER: real := 600.0

  datatype JobType = AddDomain | VerifyDomain
  datatype JobStatus = Pending | Running | Succeeded | Failed

  /** What a job is outstanding for. The domain is a cleaned one, see `DomainNames.CleanDomain`. */
  datatype Target = Target(jobType: JobType, domain: string)

  datatype Job = Job(
    target: Target,
    createdAt: Time,
    status: JobStatus,
    claimedAt: Option<Time>,
    completedAt: Option<Time>)

  predicate Outstanding(job: Job) {
    job.status == Pending || job.status == Running
  }

  predicate Completed(job: Job) {
    job.status == Succeeded || job.status == Failed
  }

  // ---- Row updates -------------------------------------------------------------------

  /** `created_at` is the database's time at the start of the inserting transaction. */
  function NewJob(target: Target, since: Time): Job {
    Job(target, since, Pending, None, None)
  }

  function ClaimRow(job: Job, now: Time): Job {
    job.(status := Running, claimedAt := Some(now))
  }

  function FinishRow(job: Job, claimedAt: Time, ok: bool, now: Time): Job {
    job.(status := if ok then Succeeded else Failed, claimedAt := Some(claimedAt), completedAt := Some(now))
  }

  predicate Stale(job: Job, cutoff: Time) {
    job.status == Running && job.claimedAt.Some? && job.claimedAt.value < cutoff
  }

  function ReapRow(job: Job, cutoff: Time): Job {
    if Stale(job, cutoff) then job.(status := Pending, claimedAt := None) else job
  }

  function ReapAll(jobs: seq<Job>, now: Time): (r: seq<Job>)
    ensures |r| == |jobs|
    ensures forall i :: 0 <= i < |jobs| ==> r[i] == ReapRow(jobs[i], now - STALE_CLAIM_AFTER)
  {
    seq(|jobs|, i requires 0 <= i < |jobs| => ReapRow(jobs[i], now - STALE_CLAIM_AFTER))
  }

  // ---- Steps -------------------------------------------------------------------------

  /** The job a provisioner is executing, and when it claimed it. */
  datatype Claim = Claim(id: nat, at: Time)

  /** A requester: without a transaction, in one opened at `since`, or there and about to insert. */
  datatype Client = Away | Opened(since: Time) | Asking(target: Target, since: Time)

  /**
    The multisets count, by job, the
    executions begun, those that ended with a recorded result, and those that crashed.
  */
  datatype State = State(
    now: Time,
    jobs: seq<Job>,
    clients: seq<Client>,
    workers: seq<Option<Claim>>,
    begun: multiset<nat>,
    ended: multiset<nat>,
    crashed: multiset<nat>)

  datatype Step =
    | Tick(seconds: real)
    | Open(client: nat)
    | Look(client: nat, target: Target)
    | Insert(client: nat)
    | Begin(worker: nat, id: nat)
    | Finish(worker: nat, ok: bool)
    | Crash(worker: nat)
    | Reserve(id: nat)
    | Reap

  /** The rows that `claim_one` may take. */
  predicate Claimable(jobs: seq<Job>, locked: set<nat>, id: nat) {
    id < |jobs| && jobs[id].status == Pending && id !in locked
  }

  function Locked(s: State): set<nat> {
    set w | 0 <= w < |s.workers| && s.workers[w].Some? :: s.workers[w].value.id
  }

  /** No claimable job is older. */
  predicate Oldest(jobs: seq<Job>, locked: set<nat>, id: nat) {
    && Claimable(jobs, locked, id)
    && forall j :: 0 <= j < |jobs| && Claimable(jobs, locked, j) ==> jobs[id].createdAt <= jobs[j].createdAt
  }

  predicate Wanted(jobs: seq<Job>, target: Target) {
    exists i :: 0 <= i < |jobs| && Outstanding(jobs[i]) && jobs[i].target == target
  }

  predicate Enabled(s: State, step: Step) {
    match step
    case Tick(seconds) => seconds >= 0.0
    case Open(c) => c < |s.clients| && s.clients[c].Away?
    case Look(c, _) => c < |s.clients| && s.clients[c].Opened?
    case Insert(c) => c < |s.clients| && s.clients[c].Asking?
    case Begin(w, id) => w < |s.workers| && s.workers[w].None? && Oldest(s.jobs, Locked(s), id)
    case Finish(w, _) => w < |s.workers| && s.workers[w].Some? && s.workers[w].value.id < |s.jobs|
    case Crash(w) => w < |s.workers| && s.workers[w].Some?
    case Reserve(id) => Oldest(s.jobs, Locked(s), id)
    case Reap => true
  }

  /**
    A look that finds the target outstanding returns that job and asks for nothing more. `Reserve` is
    `claim_one` committed by itself; `Begin` is `claim_one` inside `run_one`.
  */
  function Apply(s: State, step: Step): State
    requires Enabled(s, step)
  {
    match step
    case Tick(seconds) => s.(now := s.now + seconds)
    case Open(c) => s.(clients := s.clients[c := Opened(s.now)])
    case Look(c, target) =>
      s.(clients := s.clients[c := if Wanted(s.jobs, target) then Away else Asking(target, s.clients[c].since)])
    case Insert(c) =>
      s.(jobs := s.jobs + [NewJob(s.clients[c].target, s.clients[c].since)], clients := s.clients[c := Away])
    case Begin(w, id) => s.(workers := s.workers[w := Some(Claim(id, s.now))], begun := s.begun + multiset{id})
    case Finish(w, ok) =>
      var claim := s.workers[w].value;
      s.(jobs := s.jobs[claim.id := FinishRow(s.jobs[claim.id], claim.at, ok, s.now)],
         workers := s.workers[w := None],
         ended := s.ended + multiset{claim.id})
    case Crash(w) => s.(workers := s.workers[w := None], crashed := s.crashed + multiset{s.workers[w].value.id})
    case Reserve(id) => s.(jobs := s.jobs[id := ClaimRow(s.jobs[id], s.now)])
    case Reap => s.(jobs := ReapAll(s.jobs, s.now))
  }

  // ---- Runs --------------------------------------------------------------------------

  datatype Run = Start | Then(before: Run, step: Step)

  function Init(clients: nat, workers: nat): State {
    State(0.0, [], seq(clients, _ => Away), seq(workers, _ => None), multiset{}, multiset{}, multiset{})
  }

  predicate Valid(init: State, run: Run)
    decreases run, 0
  {
    match run
    case Start => true
    case Then(before, step) => Valid(init, before) && Enabled(After(init, before), step)
  }

  function After(init: State, run: Run): State
    requires Valid(init, run)
    decreases run, 1
  {
    match run
    case Start => init
    case Then(before, step) => Apply(After(init, before), step)
  }

  /** Taking one more step. */
  lemma Extend(init: State, run: Run, s: State, step: Step)
    requires Valid(init, run) && After(init, run) == s && Enabled(s, step)
    ensures Valid(init, Then(run, step)) && After(init, Then(run, step)) == Apply(s, step)
  {
  }

  // ---- At most one outstanding job per target ----------------------------------------

  predicate OneEach(jobs: seq<Job>) {
    forall i, j :: 0 <= i < j < |jobs| && Outstanding(jobs[i]) && Outstanding(jobs[j]) ==>
      jobs[i].target != jobs[j].target
  }

  /** An insert keeps it exactly when its target is not outstanding by then; every other step keeps it always. */
  lemma StepKeepsOneEachIff(s: State, step: Step)
    requires OneEach(s.jobs) && Enabled(s, step)
    ensures OneEach(Apply(s, step).jobs) <==> !(step.Insert? && Wanted(s.jobs, s.clients[step.client].target))
  {
    if step.Insert? {
      var jobs' := Apply(s, step).jobs;
      if Wanted(s.jobs, s.clients[step.client].target) {
        var i :| 0 <= i < |s.jobs| && Outstanding(s.jobs[i]) && s.jobs[i].target == s.clients[step.client].target;
        assert jobs'[i] == s.jobs[i] && Outstanding(jobs'[|s.jobs|]);
      }
    } else {
      OnlyInsertsAdd(s, step);
    }
  }

  /** Steps other than an insert add no row, keep what identifies a row, and reopen nothing. */
  lemma OnlyInsertsAdd(s: State, step: Step)
    requires Enabled(s, step) && !step.Insert?
    ensures |Apply(s, step).jobs| == |s.jobs|
    ensures forall i :: 0 <= i < |s.jobs| ==>
              var before, after := s.jobs[i], Apply(s, step).jobs[i];
              && after.target == before.target && after.createdAt == before.createdAt
              && (Outstanding(after) ==> Outstanding(before))
  {
  }

  /** Every insert of the run finds its target not outstanding. */
  predicate Guarded(init: State, run: Run)
    requires Valid(init, run)
  {
    match run
    case Start => true
    case Then(before, step) =>
      var s := After(init, before);
      Guarded(init, before) && !(step.Insert? && Wanted(s.jobs, s.clients[step.client].target))
  }

  /** At no moment of the run are two jobs outstanding for one target. */
  predicate AlwaysOneEach(init: State, run: Run)
    requires Valid(init, run)
  {
    OneEach(After(init, run).jobs) && (run.Then? ==> AlwaysOneEach(init, run.before))
  }

  /** Exactly the guarded runs have at most one outstanding job per target throughout, crashes and reaps included. */
  lemma {:induction false} OneEachIffGuarded(init: State, run: Run)
    requires Valid(init, run) && OneEach(init.jobs)
    ensures AlwaysOneEach(init, run) <==> Guarded(init, run)
  {
    if run.Then? {
      OneEachIffGuarded(init, run.before);
      if AlwaysOneEach(init, run.before) {
        StepKeepsOneEachIff(After(init, run.before), run.step);
      }
    }
  }

  /** No step of anybody else comes between the three steps of an `enqueue`. */
  predicate Atomic(run: Run) {
    match run
    case Start => true
    case Then(before, step) =>
      && Atomic(before)
      && (step.Look? ==> before.Then? && before.step == Open(step.client))
      && (step.Insert? ==> before.Then? && before.step.Look? && before.step.client == step.client)
  }

  /** Atomic enqueues are enough. */
  lemma {:induction false} AtomicRunsAreGuarded(init: State, run: Run)
    requires Valid(init, run) && Atomic(run)
    ensures Guarded(init, run)
  {
    if run.Then? {
      AtomicRunsAreGuarded(init, run.before);
      if run.step.Insert? {
        var s := After(init, run.before.before);
        assert After(init, run.before) == Apply(s, run.before.step);
        assert s.clients[run.step.client].Opened?;
      }
    }
  }

  /** Without that, two requests for one target at the same time leave two jobs for it. */
  lemma DoubleClick(target: Target)
    ensures exists run :: Valid(Init(2, 0), run) && !OneEach(After(Init(2, 0), run).jobs)
  {
    var init := Init(2, 0);
    assert init.clients == [Away, Away];
    Extend(init, Start, init, Open(0));
    var run := Then(Start, Open(0));
    var s := Apply(init, Open(0));
    Extend(init, run, s, Open(1));
    run, s := Then(run, Open(1)), Apply(s, Open(1));
    Extend(init, run, s, Look(0, target));
    run, s := Then(run, Look(0, target)), Apply(s, Look(0, target));
    Extend(init, run, s, Look(1, target));
    run, s := Then(run, Look(1, target)), Apply(s, Look(1, target));
    assert s.clients == [Asking(target, 0.0), Asking(target, 0.0)] && s.jobs == [];
    Extend(init, run, s, Insert(0));
    run, s := Then(run, Insert(0)), Apply(s, Insert(0));
    Extend(init, run, s, Insert(1));
    run, s := Then(run, Insert(1)), Apply(s, Insert(1));
    assert s.jobs == [NewJob(target, 0.0), NewJob(target, 0.0)];
    assert Outstanding(s.jobs[0]) && Outstanding(s.jobs[1]);
  }

  // ---- Executions --------------------------------------------------------------------

  function Holding(s: State, id: nat): nat {
    if id in Locked(s) then 1 else 0
  }

  function Recorded(s: State, id: nat): nat {
    if id < |s.jobs| && Completed(s.jobs[id]) then 1 else 0
  }

  /** Row locks: an executing provisioner has a pending row, and has it alone. */
  predicate LocksHold(s: State) {
    && (forall w :: 0 <= w < |s.workers| && s.workers[w].Some? ==>
          s.workers[w].value.id < |s.jobs| && s.jobs[s.workers[w].value.id].status == Pending)
    && (forall v, w :: 0 <= v < w < |s.workers| && s.workers[v].Some? && s.workers[w].Some? ==>
          s.workers[v].value.id != s.workers[w].value.id)
  }

  predicate Clocked(s: State) {
    && (forall i :: 0 <= i < |s.jobs| ==>
          s.jobs[i].createdAt <= s.now && (s.jobs[i].status == Running ==> s.jobs[i].claimedAt.Some?))
    && (forall c :: 0 <= c < |s.clients| && !s.clients[c].Away? ==> s.clients[c].since <= s.now)
  }

  predicate Accounted(s: State, id: nat) {
    s.begun[id] == s.ended[id] + s.crashed[id] + Holding(s, id) && s.ended[id] == Recorded(s, id)
  }

  ghost predicate Counted(s: State) {
    forall id: nat :: Accounted(s, id)
  }

  ghost predicate Sound(s: State) {
    LocksHold(s) && Clocked(s) && Counted(s)
  }

  lemma {:induction false} RunsAreSound(init: State, run: Run)
    requires Valid(init, run) && Sound(init)
    ensures Sound(After(init, run))
  {
    if run.Then? {
      RunsAreSound(init, run.before);
      StepKeepsLocks(After(init, run.before), run.step);
      StepKeepsClocked(After(init, run.before), run.step);
      StepKeepsCounts(After(init, run.before), run.step);
    }
  }

  lemma StepKeepsLocks(s: State, step: Step)
    requires LocksHold(s) && Enabled(s, step)
    ensures LocksHold(Apply(s, step))
  {
    if step.Begin? || step.Reserve? {
      forall w | 0 <= w < |s.workers| && s.workers[w].Some? ensures s.workers[w].value.id != step.id {
        assert s.workers[w].value.id in Locked(s);
      }
    }
  }

  lemma StepKeepsClocked(s: State, step: Step)
    requires Clocked(s) && Enabled(s, step)
    ensures Clocked(Apply(s, step))
  {
  }

  lemma StepKeepsCounts(s: State, step: Step)
    requires Sound(s) && Enabled(s, step)
    ensures Counted(Apply(s, step))
  {
    forall id: nat ensures Accounted(Apply(s, step), id) {
      assert Accounted(s, id);
      LocksMove(s, step, id);
      StepKeepsAccount(s, step, id);
    }
  }

  lemma StepKeepsAccount(s: State, step: Step, id: nat)
    requires LocksHold(s) && Enabled(s, step) && Accounted(s, id) && LocksMoved(s, step, id)
    ensures Accounted(Apply(s, step), id)
  {
    assert step.Finish? || step.Crash? ==> s.workers[step.worker].value.id in Locked(s);
  }

  predicate LocksMoved(s: State, step: Step, id: nat)
    requires Enabled(s, step)
  {
    id in Locked(Apply(s, step)) <==>
      if step.Begin? && id == step.id then true
      else if (step.Finish? || step.Crash?) && id == s.workers[step.worker].value.id then false
      else id in Locked(s)
  }

  /** Only beginning, finishing and crashing move a lock. */
  lemma LocksMove(s: State, step: Step, id: nat)
    requires LocksHold(s) && Enabled(s, step)
    ensures LocksMoved(s, step, id)
  {
    var s' := Apply(s, step);
    if id in Locked(s) {
      var w :| 0 <= w < |s.workers| && s.workers[w].Some? && s.workers[w].value.id == id;
      if !((step.Finish? || step.Crash?) && step.worker == w) {
        assert s'.workers[w] == s.workers[w];
      }
    }
    if step.Begin? {
      assert s'.workers[step.worker].value.id == step.id;
    }
  }

  /**
    Conservation: every execution begun has been recorded, has crashed, or is going on. A job is
    recorded at most once, and executed at most once more than it crashed.
  */
  lemma ExecutionsAreAccountedFor(init: State, run: Run, id: nat)
    requires Valid(init, run) && Sound(init)
    ensures var s := After(init, run);
            && s.begun[id] == s.ended[id] + s.crashed[id] + Holding(s, id)
            && s.ended[id] == Recorded(s, id) <= 1
            && s.begun[id] <= 1 + s.crashed[id]
  {
    RunsAreSound(init, run);
    var s := After(init, run);
    assert Accounted(s, id);
    if id in Locked(s) {
      var w :| 0 <= w < |s.workers| && s.workers[w].Some? && s.workers[w].value.id == id;
    }
  }

  // ---- Completed jobs ----------------------------------------------------------------

  /** `later` is `run` with more steps. */
  predicate Continues(run: Run, later: Run) {
    later == run || (later.Then? && Continues(run, later.before))
  }

  /** A recorded result is final: no crash, reap or other provisioner touches the row again. */
  lemma {:induction false} CompletedForGood(init: State, run: Run, later: Run, id: nat)
    requires Valid(init, later) && Continues(run, later) && Sound(init)
    requires Valid(init, run) && id < |After(init, run).jobs| && Completed(After(init, run).jobs[id])
    ensures id < |After(init, later).jobs| && After(init, later).jobs[id] == After(init, run).jobs[id]
  {
    if later != run {
      CompletedForGood(init, run, later.before, id);
      RunsAreSound(init, later.before);
      StepKeepsCompleted(After(init, later.before), later.step, id);
    }
  }

  lemma StepKeepsCompleted(s: State, step: Step, id: nat)
    requires LocksHold(s) && Enabled(s, step) && id < |s.jobs| && Completed(s.jobs[id])
    ensures id < |Apply(s, step).jobs| && Apply(s, step).jobs[id] == s.jobs[id]
  {
    assert step.Finish? ==> s.jobs[s.workers[step.worker].value.id].status == Pending;
  }

  /** The last execution of job `id` that ended with a result: whether it went well, and when it ended. */
  function Ended(init: State, run: Run, id: nat): Option<(bool, Time)>
    requires Valid(init, run)
  {
    match run
    case Start => None
    case Then(before, step) =>
      var s := After(init, before);
      if step.Finish? && s.workers[step.worker].value.id == id then Some((step.ok, s.now)) else Ended(init, before, id)
  }

  /** What a row says of its job: nothing yet, or what the execution came to, and when. */
  predicate Reports(job: Job, result: Option<(bool, Time)>) {
    if result.None? then job.status == Pending || job.status == Running
    else job.status == (if result.value.0 then Succeeded else Failed) && job.completedAt == Some(result.value.1)
  }

  predicate NoneCompleted(jobs: seq<Job>) {
    forall i :: 0 <= i < |jobs| ==> Reports(jobs[i], None)
  }

  lemma {:induction false} NothingEndedYet(init: State, run: Run, id: nat)
    requires Valid(init, run) && Sound(init) && |After(init, run).jobs| <= id
    ensures Ended(init, run, id) == None
  {
    if run.Then? {
      RunsAreSound(init, run.before);
      JobsStay(After(init, run.before), run.step);
      NothingEndedYet(init, run.before, id);
    }
  }

  lemma JobsStay(s: State, step: Step)
    requires Enabled(s, step)
    ensures |s.jobs| <= |Apply(s, step).jobs|
  {
  }

  /** A job is completed exactly if an execution of it ended with a result, and then its row reports that one. */
  lemma {:induction false} ResultsAreReported(init: State, run: Run, id: nat)
    requires Valid(init, run) && Sound(init) && NoneCompleted(init.jobs) && id < |After(init, run).jobs|
    ensures Reports(After(init, run).jobs[id], Ended(init, run, id))
  {
    if run.Then? {
      var s := After(init, run.before);
      RunsAreSound(init, run.before);
      if id < |s.jobs| {
        ResultsAreReported(init, run.before, id);
        StepReports(s, run.step, id, Ended(init, run.before, id));
      } else {
        NothingEndedYet(init, run.before, id);
      }
    }
  }

  lemma StepReports(s: State, step: Step, id: nat, result: Option<(bool, Time)>)
    requires LocksHold(s) && Enabled(s, step) && id < |s.jobs| && Reports(s.jobs[id], result)
    ensures id < |Apply(s, step).jobs|
    ensures Reports(Apply(s, step).jobs[id],
                    if step.Finish? && s.workers[step.worker].value.id == id then Some((step.ok, s.now)) else result)
  {
  }

  // ---- Order -------------------------------------------------------------------------

  /** The jobs that may still be served before job `j`: no younger, and not completed. */
  function Ahead(s: State, j: nat): set<nat>
    requires j < |s.jobs|
  {
    set i | 0 <= i < |s.jobs| && i != j && Outstanding(s.jobs[i]) && s.jobs[i].createdAt <= s.jobs[j].createdAt
  }

  /** The requesters whose jobs, if they come to insert any, will be dated no later than job `j`. */
  function Rivals(s: State, j: nat): set<nat>
    requires j < |s.jobs|
  {
    set c | 0 <= c < |s.clients| && !s.clients[c].Away? && s.clients[c].since <= s.jobs[j].createdAt
  }

  /** Once the clock has moved on, only a rival's insert joins the jobs ahead, and a reaped job keeps its place. */
  lemma AheadShrinks(s: State, step: Step, j: nat)
    requires Clocked(s) && Enabled(s, step) && j < |s.jobs| && s.jobs[j].createdAt < s.now
    ensures j < |Apply(s, step).jobs| && Apply(s, step).jobs[j].createdAt == s.jobs[j].createdAt
    ensures s.now <= Apply(s, step).now
    ensures Rivals(Apply(s, step), j) <= Rivals(s, j)
    ensures if step.Insert? && step.client in Rivals(s, j)
            then Ahead(Apply(s, step), j) <= Ahead(s, j) + {|s.jobs|}
                 && Rivals(Apply(s, step), j) == Rivals(s, j) - {step.client}
            else Ahead(Apply(s, step), j) <= Ahead(s, j)
  {
    if step.Insert? {
      assert forall i :: 0 <= i < |s.jobs| ==> Apply(s, step).jobs[i] == s.jobs[i];
    } else {
      OnlyInsertsAdd(s, step);
    }
  }

  /** Between `run` and `later`, requester `c` inserted job `id`. */
  predicate InsertedBetween(init: State, run: Run, later: Run, id: nat, c: nat)
    requires Valid(init, later)
  {
    && later != run && later.Then?
    && ((later.step == Insert(c) && id == |After(init, later.before).jobs|)
        || InsertedBetween(init, run, later.before, id, c))
  }

  /** Job `id` was inserted in between, by one of the rivals that job `j` had at the beginning. */
  predicate Overtook(init: State, run: Run, later: Run, id: nat, j: nat)
    requires Valid(init, run) && Valid(init, later) && j < |After(init, run).jobs|
  {
    exists c: nat :: c in Rivals(After(init, run), j) && InsertedBetween(init, run, later, id, c)
  }

  lemma {:induction false} AheadShrinksOverRuns(init: State, run: Run, later: Run, j: nat)
    requires Valid(init, later) && Continues(run, later) && Sound(init) && Valid(init, run)
    requires j < |After(init, run).jobs| && After(init, run).jobs[j].createdAt < After(init, run).now
    ensures var s, s' := After(init, run), After(init, later);
            && j < |s'.jobs| && s'.jobs[j].createdAt == s.jobs[j].createdAt < s'.now
            && Rivals(s', j) <= Rivals(s, j)
            && |Ahead(s', j)| + |Rivals(s', j)| <= |Ahead(s, j)| + |Rivals(s, j)|
            && forall id :: id in Ahead(s', j) ==> id in Ahead(s, j) || Overtook(init, run, later, id, j)
  {
    if later != run {
      AheadShrinksOverRuns(init, run, later.before, j);
      RunsAreSound(init, later.before);
      AheadShrinks(After(init, later.before), later.step, j);
      AheadIsCounted(After(init, later.before), later.step, j);
      forall id | id in Ahead(After(init, later), j)
        ensures id in Ahead(After(init, run), j) || Overtook(init, run, later, id, j)
      {
        AheadHasComeFrom(init, run, later, id, j);
      }
    }
  }

  /** What a rival adds to the jobs ahead, it is taken off the rivals. */
  lemma AheadIsCounted(s: State, step: Step, j: nat)
    requires Clocked(s) && Enabled(s, step) && j < |s.jobs| && s.jobs[j].createdAt < s.now
    ensures var s' := Apply(s, step);
            && j < |s'.jobs| && |Ahead(s', j)| + |Rivals(s', j)| <= |Ahead(s, j)| + |Rivals(s, j)|
  {
    var s' := Apply(s, step);
    AheadShrinks(s, step, j);
    SubsetIsSmaller(Rivals(s', j), Rivals(s, j));
    if step.Insert? && step.client in Rivals(s, j) {
      SubsetIsSmaller(Ahead(s', j), Ahead(s, j) + {|s.jobs|});
    } else {
      SubsetIsSmaller(Ahead(s', j), Ahead(s, j));
    }
  }

  lemma {:induction false} SubsetIsSmaller(a: set<nat>, b: set<nat>)
    requires a <= b
    ensures |a| <= |b|
  {
    if a != {} {
      var x :| x in a;
      SubsetIsSmaller(a - {x}, b - {x});
    }
  }

  lemma AheadHasComeFrom(init: State, run: Run, later: Run, id: nat, j: nat)
    requires Valid(init, run) && Valid(init, later) && later.Then? && later != run && j < |After(init, run).jobs|
    requires
      var s, s' := After(init, later.before), After(init, later);
      && j < |s.jobs| && j < |s'.jobs| && Rivals(s, j) <= Rivals(After(init, run), j)
      && id in Ahead(s', j)
      && (id in Ahead(s, j) || (later.step.Insert? && later.step.client in Rivals(s, j) && id == |s.jobs|))
      && (id in Ahead(s, j) ==> id in Ahead(After(init, run), j) || Overtook(init, run, later.before, id, j))
    ensures id in Ahead(After(init, run), j) || Overtook(init, run, later, id, j)
  {
    var s := After(init, later.before);
    if id !in Ahead(After(init, run), j) {
      if id in Ahead(s, j) {
        var c: nat :| c in Rivals(After(init, run), j) && InsertedBetween(init, run, later.before, id, c);
        assert InsertedBetween(init, run, later, id, c);
      } else {
        assert later.step == Insert(later.step.client);
        assert InsertedBetween(init, run, later, id, later.step.client);
      }
    }
  }

  /**
    First come, first served, by the time the requester's transaction was opened: from a moment on, while
    job `j` can be claimed, provisioners only begin it, one of the jobs that were ahead of it then, or one
    inserted since by a requester that was then already in a transaction as old as the job. Nothing else
    that is enqueued later overtakes it, and nothing that is reaped; and the jobs ahead, with the
    requesters that may still add to them, never become more.
  */
  lemma FirstComeFirstServed(init: State, run: Run, later: Run, j: nat)
    requires Valid(init, later) && Sound(init) && later.Then? && later.step.Begin? && Continues(run, later.before)
    requires Valid(init, run)
    requires j < |After(init, run).jobs| && After(init, run).jobs[j].createdAt < After(init, run).now
    requires Claimable(After(init, later.before).jobs, Locked(After(init, later.before)), j)
    ensures || later.step.id == j || later.step.id in Ahead(After(init, run), j)
            || Overtook(init, run, later.before, later.step.id, j)
    ensures |Ahead(After(init, later.before), j)| <= |Ahead(After(init, run), j)| + |Rivals(After(init, run), j)|
  {
    AheadShrinksOverRuns(init, run, later.before, j);
  }

  /** An enqueue that is not interrupted dates its job from the moment it is inserted. */
  lemma AtomicInsertsAreFresh(init: State, run: Run)
    requires Valid(init, run) && Atomic(run) && run.Then? && run.step.Insert?
    ensures var s := After(init, run.before); s.clients[run.step.client].since == s.now
  {
    var looked := run.before;
    var began := looked.before;
    assert Valid(init, looked) && Atomic(looked) && looked.step.Look?;
    assert Valid(init, began) && began.Then? && began.step == Open(run.step.client);
    assert Valid(init, began.before);
    var s := After(init, began.before);
    assert After(init, began) == Apply(s, began.step);
    assert After(init, looked) == Apply(After(init, began), looked.step);
  }

  lemma {:induction false} AtomicAheadShrinks(init: State, run: Run, later: Run, j: nat)
    requires Valid(init, later) && Continues(run, later) && Sound(init) && Valid(init, run) && Atomic(later)
    requires j < |After(init, run).jobs| && After(init, run).jobs[j].createdAt < After(init, run).now
    ensures j < |After(init, later).jobs| && Ahead(After(init, later), j) <= Ahead(After(init, run), j)
  {
    if later != run {
      AtomicAheadShrinks(init, run, later.before, j);
      AheadShrinksOverRuns(init, run, later.before, j);
      RunsAreSound(init, later.before);
      AheadShrinks(After(init, later.before), later.step, j);
      if later.step.Insert? {
        AtomicInsertsAreFresh(init, later);
      }
    }
  }

  /** If no enqueue is interrupted, nothing enqueued later overtakes a job at all. */
  lemma UninterruptedIsServedInOrder(init: State, run: Run, later: Run, j: nat)
    requires Valid(init, later) && Sound(init) && later.Then? && later.step.Begin? && Continues(run, later.before)
    requires Valid(init, run) && Atomic(later)
    requires j < |After(init, run).jobs| && After(init, run).jobs[j].createdAt < After(init, run).now
    requires Claimable(After(init, later.before).jobs, Locked(After(init, later.before)), j)
    ensures later.step.id == j || later.step.id in Ahead(After(init, run), j)
  {
    AtomicAheadShrinks(init, run, later.before, j);
    AheadShrinksOverRuns(init, run, later.before, j);
  }

  function Empty(now: Time, jobs: seq<Job>, clients: seq<Client>): State {
    State(now, jobs, clients, [None], multiset{}, multiset{}, multiset{})
  }

  /** A requester opens a transaction; a second after, another enqueues a job; another second passes. */
  function OneWaits(target: Target): Run {
    Then(Then(Then(Then(Then(Then(Start, Open(0)), Tick(1.0)), Open(1)), Look(1, target)), Insert(1)), Tick(1.0))
  }

  lemma OneWaitsLeads(target: Target)
    ensures Valid(Init(2, 1), OneWaits(target))
    ensures After(Init(2, 1), OneWaits(target)) == Empty(2.0, [NewJob(target, 1.0)], [Opened(0.0), Away])
  {
    var init := Init(2, 1);
    assert init == Empty(0.0, [], [Away, Away]);
    Extend(init, Start, init, Open(0));
    var run1 := Then(Start, Open(0));
    assert After(init, run1) == Empty(0.0, [], [Opened(0.0), Away]);
    Extend(init, run1, Empty(0.0, [], [Opened(0.0), Away]), Tick(1.0));
    var run2 := Then(run1, Tick(1.0));
    Extend(init, run2, Empty(1.0, [], [Opened(0.0), Away]), Open(1));
    var run3 := Then(run2, Open(1));
    assert After(init, run3) == Empty(1.0, [], [Opened(0.0), Opened(1.0)]);
    Extend(init, run3, Empty(1.0, [], [Opened(0.0), Opened(1.0)]), Look(1, target));
    var run4 := Then(run3, Look(1, target));
    assert After(init, run4) == Empty(1.0, [], [Opened(0.0), Asking(target, 1.0)]);
    Extend(init, run4, Empty(1.0, [], [Opened(0.0), Asking(target, 1.0)]), Insert(1));
    var run5 := Then(run4, Insert(1));
    assert After(init, run5) == Empty(1.0, [NewJob(target, 1.0)], [Opened(0.0), Away]);
    Extend(init, run5, Empty(1.0, [NewJob(target, 1.0)], [Opened(0.0), Away]), Tick(1.0));
  }

  /** The first requester then asks for something else, and its job is the older row. */
  lemma OldTransactionsOvertake(target: Target, other: Target)
    requires target != other
    ensures var init, run := Init(2, 1), OneWaits(target);
            var later := Then(Then(run, Look(0, other)), Insert(0));
            && Valid(init, run) && Valid(init, Then(later, Begin(0, 1)))
            && |After(init, run).jobs| == 1 && After(init, run).jobs[0].createdAt < After(init, run).now
            && Claimable(After(init, later).jobs, Locked(After(init, later)), 0)
  {
    var init, run := Init(2, 1), OneWaits(target);
    OneWaitsLeads(target);
    var s := Empty(2.0, [NewJob(target, 1.0)], [Opened(0.0), Away]);
    assert !Wanted(s.jobs, other);
    Extend(init, run, s, Look(0, other));
    var s1 := Empty(2.0, [NewJob(target, 1.0)], [Asking(other, 0.0), Away]);
    assert Apply(s, Look(0, other)) == s1;
    Extend(init, Then(run, Look(0, other)), s1, Insert(0));
    var s2 := Empty(2.0, [NewJob(target, 1.0), NewJob(other, 0.0)], [Away, Away]);
    assert Apply(s1, Insert(0)) == s2;
    assert Locked(s2) == {} && Oldest(s2.jobs, Locked(s2), 1);
    Extend(init, Then(Then(run, Look(0, other)), Insert(0)), s2, Begin(0, 1));
  }

  // ---- Claims that outlive their transaction ------------------------------------------

  predicate NoReserve(run: Run) {
    run.Then? ==> NoReserve(run.before) && !run.step.Reserve?
  }

  /** `run_one` never commits a claim, so no row is ever seen running and the reaper finds nothing to do. */
  lemma {:induction false} ReaperIsIdle(init: State, run: Run)
    requires Valid(init, run) && NoReserve(run)
    requires NoneRunning(init.jobs)
    ensures NoneRunning(After(init, run).jobs)
    ensures ReapAll(After(init, run).jobs, After(init, run).now) == After(init, run).jobs
  {
    if run.Then? {
      ReaperIsIdle(init, run.before);
      NoneStartsRunning(After(init, run.before), run.step);
    }
  }

  predicate NoneRunning(jobs: seq<Job>) {
    forall i :: 0 <= i < |jobs| ==> jobs[i].status != Running
  }

  lemma NoneStartsRunning(s: State, step: Step)
    requires Enabled(s, step) && !step.Reserve? && NoneRunning(s.jobs)
    ensures NoneRunning(Apply(s, step).jobs)
  {
  }

  /** A committed claim is safe from the reaper for ten minutes, and no longer. */
  lemma ReservedIsSafe(s: State, id: nat, t: Time)
    requires Enabled(s, Reserve(id))
    ensures var s' := Apply(s, Reserve(id));
            && id < |s'.jobs| && s'.jobs[id].status == Running
            && (Stale(s'.jobs[id], t - STALE_CLAIM_AFTER) <==> t > s.now + 600.0)
  {
  }

  /**
    A committed claim that is abandoned comes back: ten minutes and one reap later it is claimable, in its
    old place.
  */
  lemma ReservedComesBack(init: State, run: Run, id: nat, seconds: real)
    requires Valid(init, run) && Sound(init)
    requires id < |After(init, run).jobs| && After(init, run).jobs[id].status == Running
    requires After(init, run).jobs[id].claimedAt.GetOr(0.0) + STALE_CLAIM_AFTER < After(init, run).now + seconds
    requires seconds >= 0.0
    ensures var s := After(init, Then(Then(run, Tick(seconds)), Reap));
            && Claimable(s.jobs, Locked(s), id)
            && s.jobs[id].createdAt == After(init, run).jobs[id].createdAt
  {
    RunsAreSound(init, run);
    var s := After(init, run);
    var ticked := Apply(s, Tick(seconds));
    Extend(init, run, s, Tick(seconds));
    var reaped := Apply(ticked, Reap);
    Extend(init, Then(run, Tick(seconds)), ticked, Reap);
    assert reaped.jobs[id] == ReapRow(s.jobs[id], ticked.now - STALE_CLAIM_AFTER);
    assert Locked(reaped) == Locked(s);
  }

  /** A queue starts sound. */
  lemma StartsSound(clients: nat, workers: nat)
    ensures Sound(Init(clients, workers)) && OneEach(Init(clients, workers).jobs)
            && NoneRunning(Init(clients, workers).jobs)
  {
    assert Locked(Init(clients, workers)) == {};
  }

  /** So all of this holds of every queue that started empty; together, for runs of `run_one` and atomic enqueues. */
  lemma EmptyQueuesKeepTheirPromises(clients: nat, workers: nat, run: Run, id: nat)
    requires Valid(Init(clients, workers), run) && Atomic(run) && NoReserve(run)
    ensures var s := After(Init(clients, workers), run);
            && OneEach(s.jobs) && NoneRunning(s.jobs)
            && s.ended[id] == Recorded(s, id) <= 1 && s.begun[id] <= 1 + s.crashed[id]
            && (id < |s.jobs| ==> Reports(s.jobs[id], Ended(Init(clients, workers), run, id)))
  {
    var init := Init(clients, workers);
    if id < |After(init, run).jobs| {
      StartsSound(clients, workers);
      ResultsAreReported(init, run, id);
    }
    StartsSound(clients, workers);
    AtomicRunsAreGuarded(init, run);
    OneEachIffGuarded(init, run);
    ReaperIsIdle(init, run);
    ExecutionsAreAccountedFor(init, run, id);
  }
}
