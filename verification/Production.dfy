/** The queue with the classification and the evidence test of `Verdicts` in force. */
module Production {
  import opened Messages
  import opened Protocol
  import opened QueueRefinement
  import opened RetryBounds
  import Addresses
  import Backoff
  import Bounces
  import Casualties
  import Verdicts

  function Settings(limits: seq<int>, margin: real, workers: nat): Config {
    Config(limits, margin, workers, (result: DeliveryResult) => Verdicts.Classify(result.code, result.response))
  }

  function Evidence(): Casualties.Evidence {
    (code, text) => Verdicts.Condemns(code, text)
  }

  predicate Fatal(result: DeliveryResult) {
    Verdicts.Fatal(result.code, result.response)
  }

  lemma SettingsClassify(limits: seq<int>, margin: real, workers: nat, result: DeliveryResult)
    ensures Settings(limits, margin, workers).classify(result).retryable <==> !Fatal(result)
  {
    Verdicts.GivesUpExactlyWhen(result.code, result.response);
  }

  /** What the provider last said of message `id`, at the step that records it. */
  function Recorded(s: State, step: Step, id: nat): Flight
    requires Records(s, step, id)
  {
    s.workers[step.worker].flight
  }

  /** Step `at.step` gave message `id` up for a reply, with this event. */
  predicate GaveUp(c: Config, at: Run, id: nat, kind: Kind) {
    && at.Then? && Valid(c, at)
    && Records(After(c, at.before), at.step, id)
    && var flight := Recorded(After(c, at.before), at.step, id);
       && !flight.result.success
       && kind == Failed(Outcome(flight.attempt, !Fatal(flight.result)))
       && (Fatal(flight.result) || flight.attempt >= Backoff.MAX_ATTEMPTS)
  }

  /**
    In every run, crashes and stolen claims included: a message is rejected on its outcome only by a
    recorded reply that is fatal, or that is not but answers the eighth attempt or a later one. The
    event says which.
  */
  lemma {:induction false} RejectionsHaveAReply(
    limits: seq<int>, margin: real, workers: nat, run: Run, id: nat, i: nat) returns (at: Run)
    requires var c := Settings(limits, margin, workers);
             && Valid(c, run) && Tables(After(c, run)) && id < |After(c, run).rows| && i < |After(c, run).logs[id]|
             && After(c, run).logs[id][i].kind.Failed? && After(c, run).logs[id][i].kind.cause.Outcome?
    ensures var c := Settings(limits, margin, workers);
            Extends(at, run) && GaveUp(c, at, id, After(c, run).logs[id][i].kind)
    decreases run
  {
    var c := Settings(limits, margin, workers);
    var s := After(c, run.before);
    at := run;
    RunsHaveReferences(c, run.before);
    if id < |s.rows| {
      StepContinues(c, s, run.step, id);
      if i < |s.logs[id]| {
        at := RejectionsHaveAReply(limits, margin, workers, run.before, id, i);
      } else {
        SettingsClassify(limits, margin, workers, Recorded(s, run.step, id).result);
      }
    } else {
      assert false;
    }
  }

  /** And every such reply rejects the message: anything else puts it off. */
  lemma RepliesDecide(limits: seq<int>, margin: real, workers: nat, run: Run, id: nat)
    requires var c := Settings(limits, margin, workers);
             && run.Then? && Valid(c, run) && Records(After(c, run.before), run.step, id)
             && !Recorded(After(c, run.before), run.step, id).result.success
    ensures var c := Settings(limits, margin, workers);
            var flight, s := Recorded(After(c, run.before), run.step, id), After(c, run);
            && id < |s.rows|
            && (Fatal(flight.result) || flight.attempt >= Backoff.MAX_ATTEMPTS <==>
                  s.rows[id].status == PermanentlyRejected)
            && (s.rows[id].status == PermanentlyRejected || s.rows[id].status == TemporarilyFailed)
  {
    var c := Settings(limits, margin, workers);
    SettingsClassify(limits, margin, workers, Recorded(After(c, run.before), run.step, id).result);
  }

  /**
    With the worker's evidence test, every suppression in a timeline, in every run, has a recorded reply
    behind it in which a permanent code and final wording named that very recipient as dead.
  */
  lemma SuppressionsNameTheDead(
    parse: Addresses.Parser, limits: seq<int>, margin: real, workers: nat, run: Run, id: nat, i: nat)
    returns (at: Run, candidate: Casualties.Candidate)
    requires var c := Settings(limits, margin, workers);
             && Valid(c, run) && Bounces.AlwaysTallies(parse, Evidence(), c, run)
             && Tables(After(c, run)) && id < |After(c, run).rows| && i < |After(c, run).logs[id]|
             && After(c, run).logs[id][i].kind.RecipientSuppressed?
    ensures var c := Settings(limits, margin, workers);
            var recipients := After(c, run).rows[id].recipients;
            && Extends(at, run) && Bounces.Buried(c, Evidence(), at, id, recipients, candidate)
            && candidate.address == After(c, run).logs[id][i].kind.address
            && !Casualties.Anonymous(Recorded(After(c, at.before), at.step, id).result, recipients)
    ensures Casualties.NamesTheDead(candidate) && Addresses.Normalise(parse, candidate.address).Some?
  {
    at, candidate := Bounces.SuppressionsHaveAReply(parse, Evidence(), Settings(limits, margin, workers), run, id, i);
    Casualties.CondemnationNames(candidate);
  }
}
