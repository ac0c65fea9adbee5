/**
  Where the promises stop: concrete runs showing that the conditions of `QueueTheorems.DuplicateBound`
  and `QueueTheorems.FreshRetries` are needed.
*/
module QueueLimits {
  import opened Prelude
  import opened Messages
  import opened Protocol
  import opened RetryBounds
  import Budget
  import Life
  import QueueTheorems

  function Yes(): DeliveryResult {
    DeliveryResult(true, Some(250), None, [], [])
  }

  /** Worker `w` takes message 0 and stamps an attempt. */
  function Attempted(run: Run, w: WorkerId): Run {
    Then(Then(Then(run, Claim(w, [0], {})), Check(w, 0)), Protocol.Stamp(w))
  }

  /** One message, from the only sender. */
  predicate Alone(c: Config, s: State) {
    && c.limits == [400] && c.margin == 0.9
    && |s.rows| == |s.logs| == 1 && s.rows[0].mailbox == 0
  }

  function Claimed(s: State, w: WorkerId): State
    requires |s.rows| == 1 && w < |s.workers|
  {
    s.(rows := [ClaimRow(s.rows[0], w, s.now)], workers := s.workers[w := Local({0}, Grounded)])
  }

  function Checked(s: State, w: WorkerId): State
    requires |s.rows| == 1 && w < |s.workers|
  {
    s.(workers := s.workers[w := Local({0}, Cleared(0, s.rows[0].body, s.rows[0].attempts))])
  }

  function Stamped(s: State, w: WorkerId): State
    requires |s.rows| == |s.logs| == 1 && w < |s.workers| && s.workers[w].flight.Cleared?
  {
    var attempt := s.workers[w].flight.seen + 1;
    s.(rows := [StampRow(s.rows[0], attempt, s.now)],
       logs := [Emit(s.logs[0], Messages.Attempt(attempt), s.now)],
       workers := s.workers[w := Local({0}, OnWire(0, attempt, s.workers[w].flight.body, s.now))])
  }

  lemma ClaimAlone(c: Config, s: State, w: WorkerId)
    requires Alone(c, s) && w < |s.workers| && s.workers[w] == IDLE && Due(s.rows[0], s.now)
    ensures Enabled(c, s, Claim(w, [0], {})) && Apply(c, s, Claim(w, [0], {})) == Claimed(s, w)
  {
    var s' := Apply(c, s, Claim(w, [0], {}));
    assert s'.rows == [ClaimRow(s.rows[0], w, s.now)];
    assert s'.workers[w].batch == {0};
  }

  lemma CheckAlone(c: Config, s: State, w: WorkerId)
    requires Alone(c, s) && w < |s.workers| && s.workers[w] == Local({0}, Grounded)
    ensures Enabled(c, s, Check(w, 0)) && Apply(c, s, Check(w, 0)) == Checked(s, w)
  {
    assert Budget.Ceiling(400, 0.9) == 360;
    assert s.rows[..0] == [];
    assert Budget.Used(s.rows, 0, s.now) <= 1;
  }

  lemma StampAlone(c: Config, s: State, w: WorkerId)
    requires Alone(c, s) && w < |s.workers| && s.workers[w].batch == {0}
    requires s.workers[w].flight.Cleared? && s.workers[w].flight.id == 0
    ensures Enabled(c, s, Protocol.Stamp(w)) && Apply(c, s, Protocol.Stamp(w)) == Stamped(s, w)
  {
  }

  /** One more step that loses nothing. */
  lemma Extend(c: Config, run: Run, step: Step)
    requires Valid(c, run) && Enabled(c, After(c, run), step) && !step.Crash? && !step.LoseOutcome?
    ensures var r := Then(run, step);
            && Valid(c, r) && After(c, r) == Apply(c, After(c, run), step)
            && (Disciplined(c, r) <==> Disciplined(c, run) && (step.Reap? ==> NoLiveClaimIsStale(After(c, run))))
            && QueueTheorems.Losses(c, r, 0) == QueueTheorems.Losses(c, run, 0)
  {
  }

  lemma AttemptedIsValid(c: Config, run: Run, w: WorkerId)
    requires Valid(c, run)
    requires var s := After(c, run); Alone(c, s) && w < |s.workers| && s.workers[w] == IDLE && Due(s.rows[0], s.now)
    ensures var r := Attempted(run, w);
            && Valid(c, r)
            && After(c, r) == Stamped(Checked(Claimed(After(c, run), w), w), w)
            && (Disciplined(c, r) <==> Disciplined(c, run))
            && QueueTheorems.Losses(c, r, 0) == QueueTheorems.Losses(c, run, 0)
  {
    var s := After(c, run);
    ClaimAlone(c, s, w);
    Extend(c, run, Claim(w, [0], {}));
    var claimed := Then(run, Claim(w, [0], {}));
    CheckAlone(c, Claimed(s, w), w);
    Extend(c, claimed, Check(w, 0));
    StampAlone(c, Checked(Claimed(s, w), w), w);
    Extend(c, Then(claimed, Check(w, 0)), Protocol.Stamp(w));
  }

  function SlowRun(body: Body): Run {
    var ingested := Then(Start, Ingest(0, Recipients([], [], []), body));
    var stolen := Then(Then(Attempted(ingested, 0), Tick(901.0)), Reap);
    Then(Then(Attempted(stolen, 1), Send(0, Yes())), Send(1, Yes()))
  }

  /**
    Nothing rechecks the claim before the wire. A worker slower than the reaper's threshold has its
    message taken from it and sent again: two acceptances, although no outcome was ever lost.
  */
  lemma SlowWorkerDuplicates(c: Config, body: Body)
    requires c.limits == [400] && c.margin == 0.9 && c.workers == 2
    ensures var run := SlowRun(body);
            && Valid(c, run) && !Disciplined(c, run)
            && QueueTheorems.Losses(c, run, 0) == 0
            && QueueTheorems.Successes(After(c, run).wire, 0) == 2
  {
    var ingested := Then(Start, Ingest(0, Recipients([], [], []), body));
    Extend(c, Start, Ingest(0, Recipients([], [], []), body));
    AttemptedIsValid(c, ingested, 0);
    SlowIsReaped(c, Attempted(ingested, 0));
    var reaped := Then(Then(Attempted(ingested, 0), Tick(901.0)), Reap);
    StolenIsValid(c, reaped);
    BothSend(c, Attempted(reaped, 1));
  }

  /** Worker 0 has stamped an attempt and is on the wire; worker 1 is idle. */
  predicate OneOnWire(c: Config, s: State) {
    && Alone(c, s) && |s.workers| == 2 && s.workers[0].batch == {0} && s.workers[0].flight.OnWire?
    && s.workers[0].flight.id == 0 && s.workers[1] == IDLE && s.wire == []
    && s.rows[0].status == Sending && s.rows[0].claimedAt.Some?
  }

  function Reaped(s: State): State
    requires |s.rows| == 1
  {
    s.(rows := [ReapRow(s.rows[0], s.now - STALE_CLAIM_AFTER, s.now)])
  }

  lemma ReapStealsAlone(c: Config, s: State)
    requires OneOnWire(c, s) && s.rows[0].claimedAt.value < s.now - STALE_CLAIM_AFTER
    ensures Apply(c, s, Reap) == Reaped(s) && !NoLiveClaimIsStale(s)
  {
    assert Apply(c, s, Reap).rows == Reaped(s).rows;
    assert 0 in s.workers[0].batch && StaleClaim(s.rows[0], s.now - STALE_CLAIM_AFTER);
  }

  /** The message of worker 0 is back in the queue, and worker 1 attempts it too. */
  lemma StolenIsValid(c: Config, reaped: Run)
    requires Valid(c, reaped) && !Disciplined(c, reaped) && QueueTheorems.Losses(c, reaped, 0) == 0
    requires var s := After(c, reaped); Alone(c, s) && Due(s.rows[0], s.now) && s.wire == []
    requires var workers := After(c, reaped).workers;
             |workers| == 2 && workers[0].flight.OnWire? && workers[0].flight.id == 0 && workers[1] == IDLE
    ensures var second := Attempted(reaped, 1);
            && Valid(c, second) && !Disciplined(c, second) && QueueTheorems.Losses(c, second, 0) == 0
            && BothOnWire(After(c, second))
  {
    AttemptedIsValid(c, reaped, 1);
  }

  /** Past the threshold the reaper puts the message back, due at once, although worker 0 is still at it. */
  lemma SlowIsReaped(c: Config, first: Run)
    requires Valid(c, first) && QueueTheorems.Losses(c, first, 0) == 0
    requires OneOnWire(c, After(c, first)) && After(c, first).rows[0].claimedAt.value == After(c, first).now
    ensures var reaped := Then(Then(first, Tick(901.0)), Reap);
            && Valid(c, reaped) && !Disciplined(c, reaped) && QueueTheorems.Losses(c, reaped, 0) == 0
            && Alone(c, After(c, reaped)) && Due(After(c, reaped).rows[0], After(c, reaped).now)
            && After(c, reaped).workers == After(c, first).workers && After(c, reaped).wire == []
  {
    var slow := Then(first, Tick(901.0));
    Extend(c, first, Tick(901.0));
    ReapStealsAlone(c, After(c, slow));
    Extend(c, slow, Reap);
  }

  predicate BothOnWire(s: State) {
    && |s.rows| == 1 && |s.workers| == 2 && s.wire == []
    && (forall w :: 0 <= w < 2 ==> s.workers[w].flight.OnWire? && s.workers[w].flight.id == 0)
  }

  lemma BothSend(c: Config, run: Run)
    requires Valid(c, run) && !Disciplined(c, run) && QueueTheorems.Losses(c, run, 0) == 0
    requires BothOnWire(After(c, run))
    ensures var two := Then(Then(run, Send(0, Yes())), Send(1, Yes()));
            && Valid(c, two) && !Disciplined(c, two)
            && QueueTheorems.Losses(c, two, 0) == 0
            && QueueTheorems.Successes(After(c, two).wire, 0) == 2
  {
    var s, one := After(c, run), Then(run, Send(0, Yes()));
    var s1 := Apply(c, s, Send(0, Yes()));
    Extend(c, run, Send(0, Yes()));
    Extend(c, one, Send(1, Yes()));
    TwoWins(s1.wire, Apply(c, s1, Send(1, Yes())).wire);
  }

  lemma TwoWins(one: seq<Life.Wire>, two: seq<Life.Wire>)
    requires |one| == 1 && |two| == 2 && two[0] == one[0]
    requires forall i :: 0 <= i < 2 ==> two[i].id == 0 && two[i].success
    ensures QueueTheorems.Successes(two, 0) == 2
  {
    assert two[..1] == one && one[..0] == [];
    assert QueueTheorems.Successes(one, 0) == 1;
  }

  // ---- Stale stamps ------------------------------------------------------------------

  /** No connection: nothing is wrong with the message. */
  function Unreachable(): DeliveryResult {
    DeliveryResult(false, None, None, [], [])
  }

  lemma ExtendStale(c: Config, run: Run, s: State, step: Step)
    requires Leads(c, run, s) && Enabled(c, s, step)
    ensures Leads(c, Then(run, step), Apply(c, s, step))
    ensures Stale(c, Then(run, step), 0) == Stale(c, run, 0) + if StaleStamp(s, step, 0) then 1 else 0
  {
  }

  lemma Arrives(c: Config, body: Body) returns (run: Run, s: State)
    requires c.limits == [400] && c.margin == 0.9 && c.workers == 2
    ensures Leads(c, run, s) && Alone(c, s) && Stale(c, run, 0) == 0 && s.workers == [IDLE, IDLE]
    ensures Due(s.rows[0], s.now) && s.rows[0].attempts == 0 && s.logs[0] == NewLog(0.0)
  {
    var ingest := Ingest(0, Recipients([], [], []), body);
    run, s := Then(Start, ingest), Apply(c, Init(c), ingest);
    ExtendStale(c, Start, Init(c), ingest);
    assert s.rows == [NewMessage(0, Recipients([], [], []), body, 0.0)] && s.workers == [IDLE, IDLE];
  }

  lemma ReapsAlone(s: State, c: Config)
    requires Alone(c, s) && StaleClaim(s.rows[0], s.now - STALE_CLAIM_AFTER)
    ensures Apply(c, s, Reap) == s.(rows := [ReapRow(s.rows[0], s.now - STALE_CLAIM_AFTER, s.now)])
  {
    assert Apply(c, s, Reap).rows == [ReapRow(s.rows[0], s.now - STALE_CLAIM_AFTER, s.now)];
  }

  /** Worker 0 claims the only message, is slow, and has it taken back. */
  lemma SlowClaim(c: Config, run: Run, s: State) returns (more: Run, s': State)
    requires Leads(c, run, s) && Alone(c, s) && Stale(c, run, 0) == 0 && s.workers == [IDLE, IDLE]
             && Due(s.rows[0], s.now)
    ensures Leads(c, more, s') && Alone(c, s') && Stale(c, more, 0) == 0
    ensures s'.workers == [Local({0}, Grounded), IDLE] && Due(s'.rows[0], s'.now)
    ensures s'.rows[0].attempts == s.rows[0].attempts && s'.logs == s.logs
  {
    ClaimAlone(c, s, 0);
    var claim := Claim(0, [0], {});
    ExtendStale(c, run, s, claim);
    var ticked := Apply(c, Claimed(s, 0), Tick(901.0));
    ExtendStale(c, Then(run, claim), Claimed(s, 0), Tick(901.0));
    ReapsAlone(ticked, c);
    ExtendStale(c, Then(Then(run, claim), Tick(901.0)), ticked, Reap);
    more, s' := Then(Then(Then(run, claim), Tick(901.0)), Reap), Apply(c, ticked, Reap);
  }

  /** Worker 1 takes it. */
  lemma BothClaim(c: Config, body: Body) returns (run: Run, s: State)
    requires c.limits == [400] && c.margin == 0.9 && c.workers == 2
    ensures Leads(c, run, s) && Alone(c, s) && Stale(c, run, 0) == 0
    ensures s.workers == [Local({0}, Grounded), Local({0}, Grounded)]
    ensures s.rows[0].attempts == 0 && s.logs[0] == NewLog(0.0)
  {
    run, s := Arrives(c, body);
    run, s := SlowClaim(c, run, s);
    ClaimAlone(c, s, 1);
    ExtendStale(c, run, s, Claim(1, [0], {}));
    run, s := Then(run, Claim(1, [0], {})), Claimed(s, 1);
  }

  /** Both load the row before either stamps it, so the second stamp is stale and repeats the number. */
  lemma BothStampOne(c: Config, body: Body) returns (run: Run, s: State)
    requires c.limits == [400] && c.margin == 0.9 && c.workers == 2
    ensures Leads(c, run, s) && |s.rows| == |s.logs| == 1 && |s.workers| == 2 && Stale(c, run, 0) == 1
    ensures forall w :: 0 <= w < 2 ==> s.workers[w].flight.OnWire? && Flies(s.workers[w], 0, 1)
    ensures Puts(s.logs[0], 1) == 0
  {
    var claimed: Run, t: State;
    claimed, t := BothClaim(c, body);
    CheckAlone(c, t, 0);
    ExtendStale(c, claimed, t, Check(0, 0));
    CheckAlone(c, Checked(t, 0), 1);
    var u := Checked(Checked(t, 0), 1);
    var checked := Then(Then(claimed, Check(0, 0)), Check(1, 0));
    ExtendStale(c, Then(claimed, Check(0, 0)), Checked(t, 0), Check(1, 0));
    StampAlone(c, u, 0);
    ExtendStale(c, checked, u, Protocol.Stamp(0));
    StampAlone(c, Stamped(u, 0), 1);
    run := Then(Then(checked, Protocol.Stamp(0)), Protocol.Stamp(1));
    ExtendStale(c, Then(checked, Protocol.Stamp(0)), Stamped(u, 0), Protocol.Stamp(1));
    s := Stamped(Stamped(u, 0), 1);
    TallyEmit([], ApiAccepted, 0.0, DeferralOf(1));
    TallyEmit(Emit([], ApiAccepted, 0.0), MessageQueued, 0.0, DeferralOf(1));
    TallyEmit(t.logs[0], Messages.Attempt(1), t.now, DeferralOf(1));
    TallyEmit(Emit(t.logs[0], Messages.Attempt(1), t.now), Messages.Attempt(1), t.now, DeferralOf(1));
  }

  /** The deferral of attempt 1 by worker `w`, whose conversation comes to nothing. */
  lemma DefersOne(c: Config, run: Run, s: State, w: WorkerId) returns (more: Run, s': State)
    requires Leads(c, run, s) && |s.rows| == |s.logs| == 1 && w < |s.workers| == 2
    requires s.workers[w].flight.OnWire? && Flies(s.workers[w], 0, 1) && c.classify(Unreachable()).retryable
    ensures Leads(c, more, s') && |s'.rows| == |s'.logs| == 1 && |s'.workers| == 2
    ensures s'.workers[1 - w] == s.workers[1 - w] && Stale(c, more, 0) == Stale(c, run, 0)
    ensures Puts(s'.logs[0], 1) == Puts(s.logs[0], 1) + 1
  {
    var send := Send(w, Unreachable());
    ExtendStale(c, run, s, send);
    var s1 := Apply(c, s, send);
    var record := Record(w, 30.0, []);
    ExtendStale(c, Then(run, send), s1, record);
    more, s' := Then(Then(run, send), record), Apply(c, s1, record);
    TallyEmit(s.logs[0], Deferred(1, 30.0), s.now, DeferralOf(1));
  }

  /**
    Without single ownership an attempt number is not an attempt's own: a run of two workers with one
    stale stamp in which attempt 1 is put off twice.
  */
  lemma StaleStampDefersTwice(c: Config, body: Body) returns (run: Run)
    requires c.limits == [400] && c.margin == 0.9 && c.workers == 2 && c.classify(Unreachable()).retryable
    ensures Valid(c, run) && |After(c, run).logs| == 1
    ensures Stale(c, run, 0) == 1 && Puts(After(c, run).logs[0], 1) == 2
  {
    var s: State;
    run, s := BothStampOne(c, body);
    run, s := DefersOne(c, run, s, 0);
    run, s := DefersOne(c, run, s, 1);
  }
}
