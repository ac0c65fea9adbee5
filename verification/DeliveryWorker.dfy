/**
  The delivery worker of `emaild/worker.py`, statement by statement. A ghost run records what it does
  to the shared tables; every method proves that its effect is a sequence of steps of the queue
  protocol, so what QueueTheorems and GateTheorems prove of runs holds of this code.
*/
module DeliveryWorker {
  import opened Prelude
  import opened Messages
  import opened Verdicts
  import opened Addresses
  import opened Tables
  import P = Protocol
  import Backoff
  import Bounces
  import Budget
  import Casualties

  /** What the world decides during one delivery: host, pauses, answer and jitter. */
  datatype Fortune = Fortune(
    hostKnown: bool, wireTime: real, recordDelay: real, result: DeliveryResult, jitter: real)

  predicate Plausible(f: Fortune) {
    f.wireTime >= 0.0 && f.recordDelay >= 0.0 && 0.8 <= f.jitter <= 1.2
  }

  class Worker {
    const me: WorkerId
    const config: P.Config
    const parse: Parser
    const dead: Casualties.Evidence
    const db: Database
    var now: Time
    var processed: nat
    ghost var run: P.Run
    ghost var state: P.State

    /** `state` is where `run` leads, as `Bounces.Follows` has it, and the tables show it. */
    ghost predicate Tracks()
      reads this, db
    {
      && Bounces.Follows(parse, dead, config, run, state)
      && state.rows == db.rows && state.logs == db.events && state.now == now
      && me < |state.workers|
    }

    /** The messages this worker still means to serve. */
    ghost function Batch(): set<nat>
      reads this
      requires me < |state.workers|
    {
      state.workers[me].batch
    }

    ghost function Flight(): P.Flight
      reads this
      requires me < |state.workers|
    {
      state.workers[me].flight
    }

    ghost predicate Valid()
      reads this, db
    {
      Tracks() && Flight().Grounded?
    }

    constructor (me: WorkerId, config: P.Config, parse: Parser, dead: Casualties.Evidence, db: Database)
      requires me < config.workers
      requires db.rows == [] && db.events == []
      ensures Valid() && Batch() == {} && run == P.Start
      ensures this.me == me && this.config == config && this.parse == parse && this.dead == dead && this.db == db
    {
      this.me, this.config, this.parse, this.dead, this.db := me, config, parse, dead, db;
      now, processed := 0.0, 0;
      run := P.Start;
      state := P.Init(config);
    }

    /** Record one protocol step; the tables must already show its effect. */
    ghost method Did(step: P.Step)
      requires Bounces.Follows(parse, dead, config, run, state) && P.Enabled(config, state, step)
      requires Bounces.Tallies(parse, dead, state, step)
      requires config.workers == 1 && step.Reap? ==> P.NoLiveClaimIsStale(state)
      modifies this`run, this`state
      ensures run == P.Then(old(run), step) && state == P.Apply(config, old(state), step)
      ensures Bounces.Follows(parse, dead, config, run, state)
    {
      Bounces.FollowsOn(parse, dead, config, run, state, step);
      state := P.Apply(config, state, step);
      run := P.Then(run, step);
    }

    method Pause(seconds: real)
      requires Tracks() && seconds >= 0.0
      modifies this`now, this`run, this`state
      ensures Tracks() && run == P.Then(old(run), P.Tick(seconds))
      ensures now == old(now) + seconds
      ensures Batch() == old(Batch()) && Flight() == old(Flight())
    {
      now := now + seconds;
      Did(P.Tick(seconds));
    }

    // ---- Outcome handling ------------------------------------------------------------

    /** The body of the loop over candidates. */
    method Consider(id: nat, candidate: Casualties.Candidate) returns (created: bool)
      requires id < |db.events|
      modifies db`events, db`suppressed
      ensures created == Casualties.Creates(parse, dead, old(db.suppressed), candidate)
      ensures created ==>
                && db.suppressed == old(db.suppressed) + {Normalise(parse, candidate.address).value}
                && db.events == old(db.events)[id :=
                                  Emit(old(db.events)[id], RecipientSuppressed(candidate.address), now)]
      ensures !created ==> db.suppressed == old(db.suppressed) && db.events == old(db.events)
    {
      created := false;
      if dead(candidate.code, candidate.text) {
        var added := db.AddSuppression(parse, candidate.address);
        if added.Some? && added.value {
          db.Append(id, RecipientSuppressed(candidate.address), now);
          created := true;
        }
      }
    }

    /** `_suppress_dead_recipients`: one event for each address this result newly condemns. */
    method SuppressDeadRecipients(id: nat, result: DeliveryResult) returns (created: seq<string>)
      requires id < |db.rows| && id < |db.events|
      modifies db`events, db`suppressed
      ensures var toll := Casualties.Count(parse, dead, old(db.suppressed),
                                           Casualties.Candidates(result, db.rows[id].recipients));
              created == toll.created && db.suppressed == toll.suppressed
      ensures db.events == old(db.events)[id := EmitSuppressed(old(db.events)[id], created, now)]
    {
      var candidates := Casualties.Candidates(result, db.rows[id].recipients);
      ghost var log := db.events[id];
      created := [];
      for i := 0 to |candidates|
        invariant |db.events| == |old(db.events)|
        invariant Casualties.Count(parse, dead, old(db.suppressed), candidates[..i])
               == Casualties.Toll(db.suppressed, created)
        invariant db.events == old(db.events)[id := EmitSuppressed(log, created, now)]
      {
        Casualties.CountOneMore(parse, dead, old(db.suppressed), candidates, i);
        var dies := Consider(id, candidates[i]);
        if dies {
          EmitOneMore(log, created, candidates[i].address, now);
          created := created + [candidates[i].address];
        }
      }
      assert candidates[..|candidates|] == candidates;
    }

    static lemma EmitOneMore(log: seq<Event>, addresses: seq<string>, address: string, now: Time)
      ensures EmitSuppressed(log, addresses + [address], now)
           == Emit(EmitSuppressed(log, addresses, now), RecipientSuppressed(address), now)
    {
      assert (addresses + [address])[..|addresses|] == addresses;
    }

    /** `_apply_failure`. */
    method ApplyFailure(id: nat, result: DeliveryResult, verdict: Verdict, attempt: nat, jitter: real)
      requires id < |db.rows| && id < |db.events| && !result.success
      modifies db`rows, db`events
      ensures db.rows == old(db.rows)[id :=
                RecordRow(old(db.rows)[id], result, verdict, attempt, Backoff.Delay(attempt, jitter), now)]
      ensures db.events == old(db.events)[id :=
                RecordLog(old(db.events)[id], result, verdict, attempt, Backoff.Delay(attempt, jitter), now)]
      ensures var row := db.rows[id];
              if verdict.retryable && attempt < 8 then
                row.status == TemporarilyFailed && row.nextAttemptAt == now + Backoff.Base(attempt) * jitter
              else row.status == PermanentlyRejected && row.completedAt == Some(now)
    {
      var message := db.rows[id].(
        failureClass := Some(verdict.failureClass), failureCode := result.code, claimedBy := None, claimedAt := None);
      if verdict.needsReview {
        message := message.(needsReview := true);
      }
      if verdict.retryable && attempt < Backoff.MAX_ATTEMPTS {
        var delay := Backoff.Delay(attempt, jitter);
        message := message.(status := TemporarilyFailed, nextAttemptAt := now + delay);
        db.rows := db.rows[id := message];
        db.Append(id, Deferred(attempt, delay), now);
        return;
      }
      if verdict.retryable {
        message := message.(needsReview := true);
      }
      message := message.(status := PermanentlyRejected, completedAt := Some(now));
      db.rows := db.rows[id := message];
      db.Append(id, Failed(Outcome(attempt, verdict.retryable)), now);
    }

    /** The success branch of `_record_outcome`. */
    method ApplySuccess(id: nat, result: DeliveryResult, ghost verdict: Verdict, attempt: nat, ghost delay: real)
      requires id < |db.rows| && id < |db.events| && result.success
      modifies db`rows, db`events
      ensures db.rows == old(db.rows)[id := RecordRow(old(db.rows)[id], result, verdict, attempt, delay, now)]
      ensures db.events == old(db.events)[id := RecordLog(old(db.events)[id], result, verdict, attempt, delay, now)]
    {
      db.rows := db.rows[id := db.rows[id].(
        status := AcceptedByProvider, completedAt := Some(now), failureClass := None, failureCode := None,
        claimedBy := None, claimedAt := None)];
      if result.Partial() {
        db.Append(id, PartialDelivery, now);
      }
      db.Append(id, ProviderAccepted, now);
    }

    /** `_record_outcome`, in the second transaction of a delivery. */
    method RecordOutcome(id: nat, result: DeliveryResult, attempt: nat, jitter: real)
      returns (ghost created: seq<string>)
      requires Tracks()
      requires Flight() == P.Answered(id, attempt, result) && 0.8 <= jitter <= 1.2
      modifies this`run, this`state, db
      ensures Valid() && Batch() == old(Batch()) - {id}
      ensures run == P.Then(old(run), P.Record(me, Backoff.Delay(attempt, jitter), created))
      ensures var toll := Casualties.Count(parse, dead, old(db.suppressed),
                                           Casualties.Candidates(result, old(db.rows)[id].recipients));
              created == toll.created && db.suppressed == toll.suppressed
    {
      var verdict := config.classify(result);
      ghost var delay := Backoff.Delay(attempt, jitter);
      if result.success {
        ApplySuccess(id, result, verdict, attempt, delay);
      } else {
        ApplyFailure(id, result, verdict, attempt, jitter);
      }
      created := SuppressDeadRecipients(id, result);
      Backoff.DelayIsPossible(attempt, jitter);
      assert Bounces.Yields(parse, dead, result, state.rows[id].recipients, created);
      Did(P.Record(me, delay, created));
    }

    // ---- One message -----------------------------------------------------------------

    /** The steps that one delivery from state `s` amounts to. */
    ghost function Delivery(before: P.Run, s: P.State, id: nat, f: Fortune, created: seq<string>): P.Run
      requires P.References(config, s) && id < |s.rows|
    {
      if Budget.Exhausted(P.UsedNow(s, id), P.Ceiling(config, s.rows[id].mailbox)) then P.Then(before, P.Gate(me, id))
      else if !f.hostKnown then P.Then(before, P.NoHost(me, id))
      else Attempted(before, s.rows[id].attempts + 1, id, f, created)
    }

    ghost function Attempted(before: P.Run, attempt: nat, id: nat, f: Fortune, created: seq<string>): P.Run {
      var stamped := P.Then(P.Then(before, P.Check(me, id)), P.Stamp(me));
      var sent := P.Then(P.Then(stamped, P.Tick(f.wireTime)), P.Send(me, f.result));
      P.Then(P.Then(sent, P.Tick(f.recordDelay)), P.Record(me, Backoff.Delay(attempt, f.jitter), created))
    }

    /** The delivery goes as far as the wire. */
    ghost predicate Goes(s: P.State, id: nat, f: Fortune)
      requires P.References(config, s) && id < |s.rows|
    {
      !Budget.Exhausted(P.UsedNow(s, id), P.Ceiling(config, s.rows[id].mailbox)) && f.hostKnown
    }

    /** The first transaction when the gate is shut. */
    method HoldBack(id: nat, used: nat, ceiling: nat)
      requires Valid() && id in Batch()
      requires used == Budget.Used(db.rows, db.rows[id].mailbox, now)
      requires ceiling == P.Ceiling(config, db.rows[id].mailbox) && Budget.Exhausted(used, ceiling)
      modifies this`run, this`state, db`rows, db`events
      ensures Valid() && run == P.Then(old(run), P.Gate(me, id))
      ensures Batch() == old(Batch()) - {id}
      ensures db.rows[id].status == Queued
      ensures db.rows[id].nextAttemptAt == Budget.NextWindowOpening(old(db.rows), old(db.rows)[id].mailbox, now)
    {
      var opening := Budget.NextWindowOpening(db.rows, db.rows[id].mailbox, now);
      db.rows := db.rows[id := db.rows[id].(
        status := Queued, claimedBy := None, claimedAt := None, nextAttemptAt := opening)];
      db.Append(id, RateGated(used, ceiling, opening), now);
      Did(P.Gate(me, id));
    }

    /** `_fail_permanently`, when no SMTP host is known for the domain. */
    method FailPermanently(id: nat)
      requires Valid() && id in Batch()
      requires !Budget.Exhausted(Budget.Used(db.rows, db.rows[id].mailbox, now), P.Ceiling(config, db.rows[id].mailbox))
      modifies this`run, this`state, db`rows, db`events
      ensures Valid() && run == P.Then(old(run), P.NoHost(me, id))
      ensures Batch() == old(Batch()) - {id}
    {
      db.rows := db.rows[id := db.rows[id].(
        status := PermanentlyRejected, completedAt := Some(now), failureCode := None, needsReview := true,
        claimedBy := None, claimedAt := None)];
      db.Append(id, Failed(Cause.NoHost), now);
      Did(P.NoHost(me, id));
    }

    /** The budget is read and found open; the message to send is in memory from here on. */
    method PassGate(id: nat) returns (body: Body)
      requires Valid() && id in Batch()
      requires !Budget.Exhausted(Budget.Used(db.rows, db.rows[id].mailbox, now), P.Ceiling(config, db.rows[id].mailbox))
      modifies this`run, this`state
      ensures Tracks() && run == P.Then(old(run), P.Check(me, id))
      ensures body == db.rows[id].body && Flight() == P.Cleared(id, body, db.rows[id].attempts)
      ensures Batch() == old(Batch())
    {
      body := db.rows[id].body;
      Did(P.Check(me, id));
    }

    /** The first transaction of an attempt: stamp it before the wire. */
    method StampAttempt(id: nat) returns (attempt: nat, body: Body)
      requires Valid() && id in Batch()
      requires !Budget.Exhausted(Budget.Used(db.rows, db.rows[id].mailbox, now), P.Ceiling(config, db.rows[id].mailbox))
      modifies this`run, this`state, db`rows, db`events
      ensures Tracks() && run == P.Then(P.Then(old(run), P.Check(me, id)), P.Stamp(me))
      ensures attempt == old(db.rows)[id].attempts + 1 && body == old(db.rows)[id].body
      ensures Flight() == P.OnWire(id, attempt, body, now) && Batch() == old(Batch())
      ensures |db.rows| == |old(db.rows)| && db.rows[id].recipients == old(db.rows)[id].recipients
    {
      body := PassGate(id);
      db.rows := db.rows[id := db.rows[id].(lastAttemptAt := Some(now), attempts := db.rows[id].attempts + 1)];
      attempt := db.rows[id].attempts;
      db.Append(id, Attempt(attempt), now);
      Did(P.Stamp(me));
    }

    /** The conversation with the provider, outside any transaction. */
    method Converse(id: nat, attempt: nat, body: Body, f: Fortune)
      requires Tracks() && Plausible(f) && Flight().OnWire? && Flight().id == id && Flight().attempt == attempt
      modifies this`now, this`run, this`state
      ensures Tracks() && Flight() == P.Answered(id, attempt, f.result) && Batch() == old(Batch())
      ensures run == P.Then(P.Then(P.Then(old(run), P.Tick(f.wireTime)), P.Send(me, f.result)), P.Tick(f.recordDelay))
      ensures now >= old(now)
    {
      Pause(f.wireTime);
      Did(P.Send(me, f.result));
      Pause(f.recordDelay);
    }

    /** `_deliver_one`. */
    method DeliverOne(id: nat, f: Fortune) returns (ghost created: seq<string>)
      requires Valid() && id in Batch() && Plausible(f)
      modifies this, db
      ensures Valid() && Batch() == old(Batch()) - {id}
      ensures run == Delivery(old(run), old(state), id, f, created)
      ensures var reached := Goes(old(state), id, f);
              var toll := Casualties.Count(parse, dead, old(db.suppressed),
                                           Casualties.Candidates(f.result, old(db.rows)[id].recipients));
              && created == (if reached then toll.created else [])
              && db.suppressed == (if reached then toll.suppressed else old(db.suppressed))
              && processed == old(processed) + (if reached then 1 else 0)
      ensures now >= old(now)
    {
      var used := Budget.Used(db.rows, db.rows[id].mailbox, now);
      var ceiling := Budget.Ceiling(config.limits[db.rows[id].mailbox], config.margin);
      if Budget.Exhausted(used, ceiling) {
        HoldBack(id, used, ceiling);
        created := [];
      } else if !f.hostKnown {
        FailPermanently(id);
        created := [];
      } else {
        created := MakeAttempt(id, f);
      }
    }

    /** The attempt itself: stamp, wire, outcome. */
    method MakeAttempt(id: nat, f: Fortune) returns (ghost created: seq<string>)
      requires Valid() && id in Batch() && Plausible(f)
      requires !Budget.Exhausted(Budget.Used(db.rows, db.rows[id].mailbox, now), P.Ceiling(config, db.rows[id].mailbox))
      modifies this, db
      ensures Valid() && Batch() == old(Batch()) - {id}
      ensures run == Attempted(old(run), old(db.rows)[id].attempts + 1, id, f, created)
      ensures var toll := Casualties.Count(parse, dead, old(db.suppressed),
                                           Casualties.Candidates(f.result, old(db.rows)[id].recipients));
              created == toll.created && db.suppressed == toll.suppressed
      ensures processed == old(processed) + 1 && now >= old(now)
    {
      var attempt, body := StampAttempt(id);
      Converse(id, attempt, body, f);
      created := RecordOutcome(id, f.result, attempt, f.jitter);
      processed := processed + 1;
    }

    // ---- The loop --------------------------------------------------------------------

    method Release(id: nat)
      requires Valid() && id in Batch()
      modifies this`run, this`state, db`rows
      ensures Valid() && run == P.Then(old(run), P.Release(me, id))
      ensures Batch() == old(Batch()) - {id}
    {
      db.ReleaseClaim(id);
      Did(P.Release(me, id));
    }

    method ClaimBatch(locked: set<nat>) returns (ids: seq<nat>)
      requires Valid() && Batch() == {}
      modifies this`run, this`state, db`rows
      ensures Valid() && run == P.Then(old(run), P.Claim(me, ids, locked))
      ensures Batch() == Rest(ids, 0)
      ensures forall i, j :: 0 <= i < j < |ids| ==> ids[i] != ids[j]
    {
      ids := db.ClaimMessages(me, P.BATCH_SIZE, locked, now);
      Did(P.Claim(me, ids, locked));
    }

    /** One turn of the batch loop. */
    method ServeOrRelease(id: nat, stop: bool, f: Fortune) returns (served: bool)
      requires Valid() && id in Batch() && Plausible(f)
      modifies this, db
      ensures Valid() && Batch() == old(Batch()) - {id}
      ensures P.Extends(old(run), run)
      ensures now >= old(now) && served == !stop
    {
      served := !stop;
      if stop {
        Release(id);
      } else {
        ghost var created := DeliverOne(id, f);
        DeliveryFollows(old(run), old(state), id, f, created);
      }
    }

    lemma DeliveryFollows(before: P.Run, s: P.State, id: nat, f: Fortune, created: seq<string>)
      requires P.References(config, s) && id < |s.rows|
      ensures P.Extends(before, Delivery(before, s, id, f, created))
    {
      var stamped := P.Then(P.Then(before, P.Check(me, id)), P.Stamp(me));
      var sent := P.Then(P.Then(stamped, P.Tick(f.wireTime)), P.Send(me, f.result));
      assert P.Extends(before, stamped);
      assert P.Extends(before, sent);
    }

    /** What is left of the batch when `k` messages have been dealt with. */
    static ghost function Rest(ids: seq<nat>, k: nat): set<nat> {
      set i | k <= i < |ids| :: ids[i]
    }

    static lemma RestShrinks(ids: seq<nat>, k: nat)
      requires k < |ids| && forall i, j :: 0 <= i < j < |ids| ==> ids[i] != ids[j]
      ensures ids[k] in Rest(ids, k) && Rest(ids, k) - {ids[k]} == Rest(ids, k + 1)
    {
    }

    /** How many of the first `n` messages come before a shutdown is noticed. */
    static function Unstopped(stop: nat -> bool, n: nat): nat {
      if n == 0 then 0 else Unstopped(stop, n - 1) + if stop(n - 1) then 0 else 1
    }

    /**
      `_process_batch`: claim, then serve every claimed message, or release it once a shutdown was
      requested. `stop` says at which message the signal has arrived.
    */
    method ProcessBatch(locked: set<nat>, stop: nat -> bool, fortune: nat -> Fortune)
      returns (served: nat, ghost ids: seq<nat>)
      requires Valid() && Batch() == {}
      requires forall k :: Plausible(fortune(k))
      modifies this, db
      ensures Valid() && Batch() == {}
      ensures P.Extends(P.Then(old(run), P.Claim(me, ids, locked)), run)
      ensures now >= old(now)
      ensures served == Unstopped(stop, |ids|)
    {
      var claimed := ClaimBatch(locked);
      ids := claimed;
      served := ServeAll(claimed, stop, fortune);
    }

    /** One turn of the loop, as far as the batch and the run go. */
    method ServeNext(ids: seq<nat>, k: nat, stop: bool, f: Fortune, ghost start: P.Run) returns (served: bool)
      requires Valid() && k < |ids| && Batch() == Rest(ids, k) && Plausible(f)
      requires forall i, j :: 0 <= i < j < |ids| ==> ids[i] != ids[j]
      requires P.Extends(start, run)
      modifies this, db
      ensures Valid() && Batch() == Rest(ids, k + 1)
      ensures P.Extends(start, run)
      ensures now >= old(now) && served == !stop
    {
      RestShrinks(ids, k);
      served := ServeOrRelease(ids[k], stop, f);
      P.ExtendsOn(start, old(run), run);
    }

    method ServeAll(ids: seq<nat>, stop: nat -> bool, fortune: nat -> Fortune) returns (served: nat)
      requires Valid() && Batch() == Rest(ids, 0)
      requires forall i, j :: 0 <= i < j < |ids| ==> ids[i] != ids[j]
      requires forall k :: Plausible(fortune(k))
      modifies this, db
      ensures Valid() && Batch() == {}
      ensures P.Extends(old(run), run)
      ensures now >= old(now)
      ensures served == Unstopped(stop, |ids|)
    {
      ghost var start := run;
      served := 0;
      for k := 0 to |ids|
        invariant Valid() && P.Extends(start, run)
        invariant Batch() == Rest(ids, k)
        invariant now >= old(now)
        invariant served == Unstopped(stop, k)
      {
        var done := ServeNext(ids, k, stop(k), fortune(k), start);
        if done {
          served := served + 1;
        }
      }
    }

    /** `_maintenance`: the reaper and the purge, in one transaction, between batches. */
    method Maintain(retention: real) returns (reaped: nat, purged: nat)
      requires Valid() && Batch() == {}
      modifies this`run, this`state, db`rows
      ensures Valid() && Batch() == {}
      ensures run == P.Then(P.Then(old(run), P.Reap), P.Purge(retention))
      ensures reaped == |set i | 0 <= i < |old(db.rows)| && StaleClaim(old(db.rows)[i], now - P.STALE_CLAIM_AFTER)|
    {
      reaped := Reap();
      purged := Purge(retention);
    }

    /** A worker between batches holds nothing, so alone it reaps nothing of its own. */
    method Reap() returns (reaped: nat)
      requires Valid() && Batch() == {}
      modifies this`run, this`state, db`rows
      ensures Valid() && Batch() == {} && run == P.Then(old(run), P.Reap)
      ensures reaped == |set i | 0 <= i < |old(db.rows)| && StaleClaim(old(db.rows)[i], now - P.STALE_CLAIM_AFTER)|
    {
      assert config.workers == 1 ==> P.NoLiveClaimIsStale(state);
      reaped := db.ReapStaleClaims(now);
      Did(P.Reap);
    }

    method Purge(retention: real) returns (purged: nat)
      requires Valid() && Batch() == {}
      modifies this`run, this`state, db`rows
      ensures Valid() && Batch() == {} && run == P.Then(old(run), P.Purge(retention))
      ensures purged == |set i | 0 <= i < |old(db.rows)| && Expired(old(db.rows)[i], now - retention)|
    {
      purged := db.PurgeExpiredBodies(retention, now);
      Did(P.Purge(retention));
    }
  }
}
