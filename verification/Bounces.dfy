/**
  Runs whose suppressions are those of the worker: what a record step adds to the list, and notes in
  the timeline, is what counting the candidates of the recorded reply yields.
*/
module Bounces {
  import opened Messages
  import opened Protocol
  import opened RetryBounds
  import Addresses
  import Casualties

  /** Counting the candidates of this reply, with some list of suppressions, creates just these. */
  ghost predicate Yields(
    parse: Addresses.Parser, dead: Casualties.Evidence, result: DeliveryResult, recipients: Recipients,
    created: seq<string>)
  {
    exists list: set<string> ::
      Casualties.Count(parse, dead, list, Casualties.Candidates(result, recipients)).created == created
  }

  ghost predicate Tallies(parse: Addresses.Parser, dead: Casualties.Evidence, s: State, step: Step)
    requires step.Record? ==>
               step.worker < |s.workers| && s.workers[step.worker].flight.Answered?
               && s.workers[step.worker].flight.id < |s.rows|
  {
    step.Record? ==>
      var flight := s.workers[step.worker].flight;
      Yields(parse, dead, flight.result, s.rows[flight.id].recipients, step.suppressed)
  }

  /** `at` ends with a step of `run`. */
  predicate EndsInside(at: Run, run: Run) {
    at.Then? && Extends(at, run)
  }

  /** Every record step of the run does. */
  ghost predicate AlwaysTallies(parse: Addresses.Parser, dead: Casualties.Evidence, c: Config, run: Run) {
    forall at: Run {:trigger EndsInside(at, run)} :: EndsInside(at, run) && Valid(c, at) ==>
      Tallies(parse, dead, After(c, at.before), at.step)
  }

  /** Step by step. */
  lemma TalliesOn(parse: Addresses.Parser, dead: Casualties.Evidence, c: Config, run: Run)
    requires Valid(c, run) && run.Then?
    ensures AlwaysTallies(parse, dead, c, run)
       <==> AlwaysTallies(parse, dead, c, run.before) && Tallies(parse, dead, After(c, run.before), run.step)
  {
    assert EndsInside(run, run);
    assert forall at: Run {:trigger EndsInside(at, run)} ::
        EndsInside(at, run) <==> at == run || EndsInside(at, run.before);
    assert forall at: Run {:trigger EndsInside(at, run.before)} :: EndsInside(at, run.before) ==> EndsInside(at, run);
  }

  /** `run` leads to `s`; a lone worker is disciplined, and suppressions are accounted for. */
  ghost predicate Follows(
    parse: Addresses.Parser, dead: Casualties.Evidence, c: Config, run: Run, s: State)
  {
    && Leads(c, run, s) && References(c, s)
    && (c.workers == 1 ==> Disciplined(c, run))
    && AlwaysTallies(parse, dead, c, run)
  }

  /** One more step. */
  lemma FollowsOn(parse: Addresses.Parser, dead: Casualties.Evidence, c: Config, run: Run, s: State, step: Step)
    requires Follows(parse, dead, c, run, s) && Enabled(c, s, step) && Tallies(parse, dead, s, step)
    requires c.workers == 1 && step.Reap? ==> NoLiveClaimIsStale(s)
    ensures Follows(parse, dead, c, Then(run, step), Apply(c, s, step))
  {
    Extend(c, run, s, step);
    StepKeepsReferences(c, s, step);
    TalliesOn(parse, dead, c, Then(run, step));
  }

  lemma {:induction false} CreatedOnEvidence(
    parse: Addresses.Parser, dead: Casualties.Evidence, list: set<string>, candidates: seq<Casualties.Candidate>,
    address: string) returns (candidate: Casualties.Candidate)
    requires address in Casualties.Count(parse, dead, list, candidates).created
    ensures candidate in candidates && candidate.address == address
    ensures dead(candidate.code, candidate.text) && Addresses.Normalise(parse, address).Some?
  {
    var n := |candidates| - 1;
    if address in Casualties.Count(parse, dead, list, candidates[..n]).created {
      candidate := CreatedOnEvidence(parse, dead, list, candidates[..n], address);
    } else {
      candidate := candidates[n];
    }
  }

  /** Nobody's recipients ever change. */
  lemma RecipientsStay(c: Config, s: State, step: Step, id: nat)
    requires References(c, s) && Enabled(c, s, step) && id < |s.rows|
    ensures id < |Apply(c, s, step).rows| && Apply(c, s, step).rows[id].recipients == s.rows[id].recipients
  {
  }

  /** Step `at.step` recorded a reply about message `id` in which this candidate was found dead. */
  predicate Buried(
    c: Config, dead: Casualties.Evidence, at: Run, id: nat, recipients: Recipients, candidate: Casualties.Candidate)
  {
    && at.Then? && Valid(c, at)
    && Records(After(c, at.before), at.step, id)
    && var result := After(c, at.before).workers[at.step.worker].flight.result;
       candidate in Casualties.Candidates(result, recipients) && dead(candidate.code, candidate.text)
  }

  /** In every such run, a suppression in a timeline has a recorded reply with the evidence behind it. */
  lemma {:induction false} SuppressionsHaveAReply(
    parse: Addresses.Parser, dead: Casualties.Evidence, c: Config, run: Run, id: nat, i: nat)
    returns (at: Run, candidate: Casualties.Candidate)
    requires Valid(c, run) && AlwaysTallies(parse, dead, c, run)
    requires id < |After(c, run).rows| == |After(c, run).logs| && i < |After(c, run).logs[id]|
    requires After(c, run).logs[id][i].kind.RecipientSuppressed?
    ensures Extends(at, run) && Buried(c, dead, at, id, After(c, run).rows[id].recipients, candidate)
    ensures candidate.address == After(c, run).logs[id][i].kind.address
    ensures Addresses.Normalise(parse, candidate.address).Some?
    decreases run
  {
    var s := After(c, run.before);
    at := run;
    RunsHaveReferences(c, run.before);
    TalliesOn(parse, dead, c, run);
    if id < |s.rows| {
      StepContinues(c, s, run.step, id);
      RecipientsStay(c, s, run.step, id);
      if i < |s.logs[id]| {
        at, candidate := SuppressionsHaveAReply(parse, dead, c, run.before, id, i);
      } else {
        candidate := NewlyBuried(parse, dead, c, s, run.step, id, After(c, run).logs[id][i].kind);
      }
    } else {
      assert false;
    }
  }

  lemma NewlyBuried(
    parse: Addresses.Parser, dead: Casualties.Evidence, c: Config, s: State, step: Step, id: nat, kind: Kind)
    returns (candidate: Casualties.Candidate)
    requires MayAdd(c, s, step, id, kind) && kind.RecipientSuppressed? && id < |s.rows| && Tallies(parse, dead, s, step)
    ensures Records(s, step, id)
    ensures candidate in Casualties.Candidates(s.workers[step.worker].flight.result, s.rows[id].recipients)
    ensures dead(candidate.code, candidate.text)
    ensures candidate.address == kind.address && Addresses.Normalise(parse, candidate.address).Some?
  {
    var result := s.workers[step.worker].flight.result;
    var candidates := Casualties.Candidates(result, s.rows[id].recipients);
    var list: set<string> :| Casualties.Count(parse, dead, list, candidates).created == step.suppressed;
    candidate := CreatedOnEvidence(parse, dead, list, candidates, kind.address);
  }
}
