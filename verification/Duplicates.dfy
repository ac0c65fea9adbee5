/**
  How often a message can be accepted, in every run at all. A message is a token that is in the queue,
  in a worker's hands, or orphaned; only a reap that takes it from its live claimant makes a second one,
  and only an attempt that dies in flight gives one back after it was spent.
*/
module Duplicates {
  import opened Messages
  import opened Protocol
  import opened QueueTheorems
  import Life

  // ---- Tokens ------------------------------------------------------------------------

  /** The worker means to serve the message, and the provider has not yet said yes to it for this claim. */
  predicate Carries(local: Local, id: nat) {
    id in local.batch && !(local.flight.Answered? && local.flight.id == id && local.flight.result.success)
  }

  function Carried(workers: seq<Local>, id: nat): nat {
    if workers == [] then 0
    else Carried(workers[..|workers| - 1], id) + if Carries(workers[|workers| - 1], id) then 1 else 0
  }

  lemma {:induction false} CarriedUpdate(workers: seq<Local>, w: nat, local: Local, id: nat)
    requires w < |workers|
    ensures Carried(workers[w := local], id) + (if Carries(workers[w], id) then 1 else 0)
         == Carried(workers, id) + (if Carries(local, id) then 1 else 0)
  {
    var n := |workers| - 1;
    if w == n {
      assert workers[w := local][..n] == workers[..n];
    } else {
      assert workers[w := local][..n] == workers[..n][w := local];
      CarriedUpdate(workers[..n], w, local, id);
    }
  }

  lemma {:induction false} NobodyCarries(workers: seq<Local>, id: nat)
    requires forall w :: 0 <= w < |workers| ==> !Carries(workers[w], id)
    ensures Carried(workers, id) == 0
  {
    if workers != [] {
      NobodyCarries(workers[..|workers| - 1], id);
    }
  }

  /** The worker that the row names is alive and means to serve it. */
  predicate ClaimantHolds(row: Message, workers: seq<Local>, id: nat) {
    row.claimedBy.Some? && row.claimedBy.value < |workers| && id in workers[row.claimedBy.value].batch
  }

  /** In the queue, or orphaned. */
  function Waiting(row: Message, workers: seq<Local>, id: nat): nat {
    if Pending(row) || (row.status == Sending && !ClaimantHolds(row, workers, id)) then 1 else 0
  }

  function Tokens(s: State, id: nat): nat
    requires id < |s.rows|
  {
    Successes(s.wire, id) + Carried(s.workers, id) + Waiting(s.rows[id], s.workers, id)
  }

  // ---- Losses and thefts -------------------------------------------------------------

  /** This reap takes the message from the live worker that claimed it. */
  predicate Steals(s: State, step: Step, id: nat) {
    && step.Reap? && id < |s.rows|
    && StaleClaim(s.rows[id], s.now - STALE_CLAIM_AFTER) && ClaimantHolds(s.rows[id], s.workers, id)
  }

  /** This step ends an attempt of the message in flight, its outcome unrecorded. */
  predicate Drops(s: State, step: Step, id: nat) {
    (step.Crash? || step.LoseOutcome?) && step.worker < |s.workers| && Airborne(s.workers[step.worker].flight, id)
  }

  function Thefts(c: Config, run: Run, id: nat): nat
    requires Valid(c, run)
  {
    match run
    case Start => 0
    case Then(before, step) => Thefts(c, before, id) + if Steals(After(c, before), step, id) then 1 else 0
  }

  /** What a step may add to the tokens. */
  function Gain(s: State, step: Step, id: nat): nat {
    (if Steals(s, step, id) then 1 else 0) + (if Drops(s, step, id) then 1 else 0)
  }

  predicate Balanced(c: Config, s: State, step: Step, id: nat)
    requires Enabled(c, s, step) && id < |s.rows|
  {
    id < |Apply(c, s, step).rows| && Tokens(Apply(c, s, step), id) <= Tokens(s, id) + Gain(s, step, id)
  }

  // ---- Every step balances -----------------------------------------------------------

  lemma ClaimBalances(c: Config, s: State, step: Step, id: nat)
    requires References(c, s) && Enabled(c, s, step) && id < |s.rows| && step.Claim?
    ensures Balanced(c, s, step, id)
  {
    CarriedUpdate(s.workers, step.worker, Apply(c, s, step).workers[step.worker], id);
  }

  /** A message handed back, held back or given up leaves the worker's hands. */
  lemma ReturnBalances(c: Config, s: State, step: Step, id: nat)
    requires References(c, s) && Enabled(c, s, step) && id < |s.rows|
    requires step.Release? || step.Gate? || step.NoHost?
    ensures Balanced(c, s, step, id)
  {
    CarriedUpdate(s.workers, step.worker, Apply(c, s, step).workers[step.worker], id);
  }

  lemma FlightBalances(c: Config, s: State, step: Step, id: nat)
    requires References(c, s) && Enabled(c, s, step) && id < |s.rows| && (step.Check? || step.Stamp?)
    ensures Balanced(c, s, step, id)
  {
    CarriedUpdate(s.workers, step.worker, Apply(c, s, step).workers[step.worker], id);
  }

  /** An acceptance spends the token. */
  lemma SendBalances(c: Config, s: State, step: Step, id: nat)
    requires References(c, s) && Enabled(c, s, step) && id < |s.rows| && step.Send?
    ensures Balanced(c, s, step, id)
  {
    var s' := Apply(c, s, step);
    assert s'.wire[..|s.wire|] == s.wire;
    CarriedUpdate(s.workers, step.worker, s'.workers[step.worker], id);
  }

  lemma RecordBalances(c: Config, s: State, step: Step, id: nat)
    requires References(c, s) && Enabled(c, s, step) && id < |s.rows| && step.Record?
    ensures Balanced(c, s, step, id)
  {
    CarriedUpdate(s.workers, step.worker, Apply(c, s, step).workers[step.worker], id);
  }

  lemma DropBalances(c: Config, s: State, step: Step, id: nat)
    requires References(c, s) && Enabled(c, s, step) && id < |s.rows| && (step.Crash? || step.LoseOutcome?)
    ensures Balanced(c, s, step, id)
  {
    CarriedUpdate(s.workers, step.worker, Apply(c, s, step).workers[step.worker], id);
  }

  lemma SweepBalances(c: Config, s: State, step: Step, id: nat)
    requires References(c, s) && Enabled(c, s, step) && id < |s.rows|
    requires step.Tick? || step.Ingest? || step.Reap? || step.Purge?
    ensures Balanced(c, s, step, id)
  {
  }

  lemma StepBalances(c: Config, s: State, step: Step, id: nat)
    requires References(c, s) && Enabled(c, s, step) && id < |s.rows|
    ensures Balanced(c, s, step, id)
  {
    match step
    case Claim(_, _, _) => ClaimBalances(c, s, step, id);
    case Release(_, _) => ReturnBalances(c, s, step, id);
    case Gate(_, _) => ReturnBalances(c, s, step, id);
    case NoHost(_, _) => ReturnBalances(c, s, step, id);
    case Check(_, _) => FlightBalances(c, s, step, id);
    case Stamp(_) => FlightBalances(c, s, step, id);
    case Send(_, _) => SendBalances(c, s, step, id);
    case Record(_, _, _) => RecordBalances(c, s, step, id);
    case LoseOutcome(_) => DropBalances(c, s, step, id);
    case Crash(_) => DropBalances(c, s, step, id);
    case _ => SweepBalances(c, s, step, id);
  }

  // ---- Every run ---------------------------------------------------------------------

  predicate WireKnown(s: State) {
    forall i :: 0 <= i < |s.wire| ==> s.wire[i].id < |s.rows|
  }

  lemma {:induction false} RunsKnowTheirWire(c: Config, run: Run)
    requires Valid(c, run)
    ensures WireKnown(After(c, run))
  {
    if run.Then? {
      RunsKnowTheirWire(c, run.before);
    }
  }

  lemma {:induction false} NoSuccessYet(wire: seq<Life.Wire>, id: nat)
    requires forall i :: 0 <= i < |wire| ==> wire[i].id != id
    ensures Successes(wire, id) == 0
  {
    if wire != [] {
      NoSuccessYet(wire[..|wire| - 1], id);
    }
  }

  /** A new message is one token, in the queue. */
  lemma NewIsOneToken(c: Config, s: State, step: Step, id: nat)
    requires References(c, s) && WireKnown(s) && Enabled(c, s, step) && |s.rows| <= id < |Apply(c, s, step).rows|
    ensures Tokens(Apply(c, s, step), id) == 1
  {
    var s' := Apply(c, s, step);
    NoSuccessYet(s'.wire, id);
    NobodyCarries(s'.workers, id);
  }

  lemma {:induction false} TokensAreAccountedFor(c: Config, run: Run, id: nat)
    requires Valid(c, run) && id < |After(c, run).rows|
    ensures Tokens(After(c, run), id) <= 1 + Losses(c, run, id) + Thefts(c, run, id)
  {
    var s := After(c, run.before);
    RunsHaveReferences(c, run.before);
    RunsKnowTheirWire(c, run.before);
    if id < |s.rows| {
      TokensAreAccountedFor(c, run.before, id);
      StepBalances(c, s, run.step, id);
    } else {
      NewIsOneToken(c, s, run.step, id);
    }
  }

  /**
    In every run: the provider accepts a message at most once more than the attempts of it that died
    in flight and the reaps that took it from the live worker that had claimed it.
  */
  lemma DuplicatesArePaidFor(c: Config, run: Run, id: nat)
    requires Valid(c, run) && id < |After(c, run).rows|
    ensures Successes(After(c, run).wire, id) <= 1 + Losses(c, run, id) + Thefts(c, run, id)
  {
    TokensAreAccountedFor(c, run, id);
  }

  /** A disciplined reaper steals nothing. */
  lemma {:induction false} DisciplineIsNoTheft(c: Config, run: Run, id: nat)
    requires Valid(c, run) && Disciplined(c, run)
    ensures Thefts(c, run, id) == 0
  {
    if run.Then? {
      DisciplineIsNoTheft(c, run.before, id);
    }
  }
}
