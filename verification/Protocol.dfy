/**
  The queue as a concurrent protocol. Every `session_scope` block of the worker, of ingestion and of
  maintenance is one atomic step over the message table and its event log; the wire call is a step of
  its own, outside any transaction; a crash may fall between any two steps. The budget check and the
  commit of the attempt stamp are separate steps, because another worker may read the table between them.
*/
module Protocol {
  import opened Prelude
  import opened Messages
  import opened Verdicts
  import Backoff
  import Budget
  import Life

  const BATCH_SIZE: nat := 10
  const STALE_CLAIM_AFTER: real := 900.0

  /** Sender limits by mailbox, the safety margin, the number of workers, and the classification in force. */
  datatype Config = Config(limits: seq<int>, margin: real, workers: nat, classify: DeliveryResult -> Verdict)

  function Ceiling(c: Config, mailbox: MailboxId): nat
    requires mailbox < |c.limits|
  {
    Budget.Ceiling(c.limits[mailbox], c.margin)
  }

  /**
    How far a worker is with the message it is delivering. Between check and stamp it carries what its
    transaction loaded: the body, and the number of attempts that the stamp will count from.
  */
  datatype Flight =
    | Grounded
    | Cleared(id: nat, body: Body, seen: nat)
    | OnWire(id: nat, attempt: nat, body: Body, stampedAt: Time)
    | Answered(id: nat, attempt: nat, result: DeliveryResult)

  /** An attempt of message `id` is stamped and not yet recorded. */
  predicate Airborne(flight: Flight, id: nat) {
    (flight.OnWire? || flight.Answered?) && flight.id == id
  }

  /** A worker process: the claimed messages it still means to serve. */
  datatype Local = Local(batch: set<nat>, flight: Flight)

  /** Row `i` of `rows` is the message with id `i`; `logs` is the event table grouped by message. */
  datatype State = State(
    now: Time,
    rows: seq<Message>,
    logs: seq<seq<Event>>,
    originals: seq<Body>,
    wire: seq<Life.Wire>,
    workers: seq<Local>)

  datatype Step =
    | Tick(seconds: real)
    | Ingest(mailbox: MailboxId, recipients: Recipients, body: Body)
    | Claim(worker: WorkerId, ids: seq<nat>, locked: set<nat>)
    | Release(worker: WorkerId, id: nat)
    | Gate(worker: WorkerId, id: nat)
    | NoHost(worker: WorkerId, id: nat)
    | Check(worker: WorkerId, id: nat)
    | Stamp(worker: WorkerId)
    | Send(worker: WorkerId, result: DeliveryResult)
    | Record(worker: WorkerId, delay: real, suppressed: seq<string>)
    | LoseOutcome(worker: WorkerId)
    | Crash(worker: WorkerId)
    | Reap
    | Purge(retention: real)

  // ---- Claiming ----------------------------------------------------------------------

  predicate Claimable(rows: seq<Message>, now: Time, locked: set<nat>, id: nat) {
    id < |rows| && Due(rows[id], now) && id !in locked
  }

  /**
    What `SELECT ... WHERE due ORDER BY next_attempt_at LIMIT n FOR UPDATE SKIP LOCKED` may return:
    claimable rows in due order, none of them younger than a claimable row left out, and fewer than
    `limit` only if nothing claimable is left out.
  */
  predicate Selection(rows: seq<Message>, now: Time, limit: nat, locked: set<nat>, ids: seq<nat>) {
    && |ids| <= limit
    && (forall i :: 0 <= i < |ids| ==> Claimable(rows, now, locked, ids[i]))
    && (forall i, j :: 0 <= i < j < |ids| ==>
          ids[i] != ids[j] && rows[ids[i]].nextAttemptAt <= rows[ids[j]].nextAttemptAt)
    && (forall id :: 0 <= id < |rows| && Claimable(rows, now, locked, id) && id !in ids ==>
          |ids| == limit && forall i :: 0 <= i < |ids| ==> rows[ids[i]].nextAttemptAt <= rows[id].nextAttemptAt)
  }

  function ClaimAll(rows: seq<Message>, ids: seq<nat>, worker: WorkerId, now: Time): (r: seq<Message>)
    ensures |r| == |rows|
    ensures forall i :: 0 <= i < |rows| ==> r[i] == if i in ids then ClaimRow(rows[i], worker, now) else rows[i]
  {
    seq(|rows|, i requires 0 <= i < |rows| => if i in ids then ClaimRow(rows[i], worker, now) else rows[i])
  }

  function ReapAll(rows: seq<Message>, now: Time): (r: seq<Message>)
    ensures |r| == |rows|
    ensures forall i :: 0 <= i < |rows| ==> r[i] == ReapRow(rows[i], now - STALE_CLAIM_AFTER, now)
  {
    seq(|rows|, i requires 0 <= i < |rows| => ReapRow(rows[i], now - STALE_CLAIM_AFTER, now))
  }

  function PurgeAll(rows: seq<Message>, retention: real, now: Time): (r: seq<Message>)
    ensures |r| == |rows|
    ensures forall i :: 0 <= i < |rows| ==> r[i] == PurgeRow(rows[i], now - retention, now)
  {
    seq(|rows|, i requires 0 <= i < |rows| => PurgeRow(rows[i], now - retention, now))
  }

  // ---- Steps -------------------------------------------------------------------------

  const IDLE: Local := Local({}, Grounded)

  function UsedNow(s: State, id: nat): nat
    requires id < |s.rows|
  {
    Budget.Used(s.rows, s.rows[id].mailbox, s.now)
  }

  /** Worker `w` is between messages and `id` is one it claimed; the gate of its sender is shut or open. */
  predicate Picks(c: Config, s: State, w: WorkerId, id: nat, shut: bool) {
    && w < |s.workers| && id in s.workers[w].batch && s.workers[w].flight.Grounded?
    && id < |s.rows| && |s.logs| == |s.rows| && s.rows[id].mailbox < |c.limits|
    && Budget.Exhausted(UsedNow(s, id), Ceiling(c, s.rows[id].mailbox)) == shut
  }

  predicate Enabled(c: Config, s: State, step: Step) {
    match step
    case Tick(seconds) => seconds >= 0.0
    case Ingest(mailbox, _, _) => mailbox < |c.limits|
    case Claim(w, ids, locked) =>
      w < |s.workers| && s.workers[w] == IDLE && Selection(s.rows, s.now, BATCH_SIZE, locked, ids)
    case Release(w, id) =>
      w < |s.workers| && id in s.workers[w].batch && s.workers[w].flight.Grounded? && id < |s.rows|
    case Gate(w, id) => Picks(c, s, w, id, true)
    case NoHost(w, id) => Picks(c, s, w, id, false)
    case Check(w, id) => Picks(c, s, w, id, false)
    case Stamp(w) =>
      w < |s.workers| && s.workers[w].flight.Cleared? && s.workers[w].flight.id < |s.rows| == |s.logs|
    case Send(w, _) => w < |s.workers| && s.workers[w].flight.OnWire? && s.workers[w].flight.id < |s.rows|
    case Record(w, delay, _) =>
      && w < |s.workers| && s.workers[w].flight.Answered? && s.workers[w].flight.id < |s.rows| == |s.logs|
      && Backoff.Possible(s.workers[w].flight.attempt, delay)
    case LoseOutcome(w) => w < |s.workers| && s.workers[w].flight.Answered?
    case Crash(w) => w < |s.workers|
    case Reap => true
    case Purge(_) => true
  }

  /** A message's row and log are written, and worker `w` is done with it. */
  function Settle(s: State, w: WorkerId, id: nat, row: Message, log: seq<Event>): State
    requires w < |s.workers| && id < |s.rows| == |s.logs|
  {
    s.(rows := s.rows[id := row], logs := s.logs[id := log], workers := s.workers[w := Without(s.workers[w], id)])
  }

  function Without(local: Local, id: nat): Local {
    Local(local.batch - {id}, Grounded)
  }

  function Fly(s: State, w: WorkerId, flight: Flight): seq<Local>
    requires w < |s.workers|
  {
    s.workers[w := Local(s.workers[w].batch, flight)]
  }

  function WireEntry(s: State, flight: Flight, success: bool): Life.Wire
    requires flight.OnWire? && flight.id < |s.rows|
  {
    Life.Wire(flight.id, s.rows[flight.id].mailbox, flight.attempt, flight.body, success, flight.stampedAt, s.now)
  }

  function Apply(c: Config, s: State, step: Step): State
    requires Enabled(c, s, step)
  {
    match step
    case Tick(seconds) => s.(now := s.now + seconds)
    case Ingest(mailbox, recipients, body) =>
      s.(rows := s.rows + [NewMessage(mailbox, recipients, body, s.now)],
         logs := s.logs + [NewLog(s.now)],
         originals := s.originals + [body])
    case Claim(w, ids, _) =>
      s.(rows := ClaimAll(s.rows, ids, w, s.now),
         workers := s.workers[w := Local((set id | id in ids), Grounded)])
    case Release(w, id) =>
      s.(rows := s.rows[id := ReleaseRow(s.rows[id])], workers := s.workers[w := Without(s.workers[w], id)])
    case Gate(w, id) =>
      var opening := Budget.NextWindowOpening(s.rows, s.rows[id].mailbox, s.now);
      var event := RateGated(UsedNow(s, id), Ceiling(c, s.rows[id].mailbox), opening);
      Settle(s, w, id, GateRow(s.rows[id], opening), Emit(s.logs[id], event, s.now))
    case NoHost(w, id) =>
      Settle(s, w, id, NoHostRow(s.rows[id], s.now), Emit(s.logs[id], Failed(Cause.NoHost), s.now))
    case Check(w, id) => s.(workers := Fly(s, w, Cleared(id, s.rows[id].body, s.rows[id].attempts)))
    case Stamp(w) =>
      var flight := s.workers[w].flight;
      var attempt := flight.seen + 1;
      s.(rows := s.rows[flight.id := StampRow(s.rows[flight.id], attempt, s.now)],
         logs := s.logs[flight.id := Emit(s.logs[flight.id], Attempt(attempt), s.now)],
         workers := Fly(s, w, OnWire(flight.id, attempt, flight.body, s.now)))
    case Send(w, result) =>
      var flight := s.workers[w].flight;
      s.(wire := s.wire + [WireEntry(s, flight, result.success)],
         workers := Fly(s, w, Answered(flight.id, flight.attempt, result)))
    case Record(w, delay, suppressed) =>
      var flight := s.workers[w].flight;
      var verdict := c.classify(flight.result);
      Settle(s, w, flight.id,
        RecordRow(s.rows[flight.id], flight.result, verdict, flight.attempt, delay, s.now),
        EmitSuppressed(
          RecordLog(s.logs[flight.id], flight.result, verdict, flight.attempt, delay, s.now), suppressed, s.now))
    case LoseOutcome(w) => s.(workers := s.workers[w := Without(s.workers[w], s.workers[w].flight.id)])
    case Crash(w) => s.(workers := s.workers[w := IDLE])
    case Reap => s.(rows := ReapAll(s.rows, s.now))
    case Purge(retention) => s.(rows := PurgeAll(s.rows, retention, s.now))
  }

  // ---- Runs --------------------------------------------------------------------------

  datatype Run = Start | Then(before: Run, step: Step)

  function Init(c: Config): State {
    State(0.0, [], [], [], [], seq(c.workers, _ => IDLE))
  }

  predicate Valid(c: Config, run: Run)
    decreases run, 0
  {
    match run
    case Start => true
    case Then(before, step) => Valid(c, before) && Enabled(c, After(c, before), step)
  }

  function After(c: Config, run: Run): State
    requires Valid(c, run)
    decreases run, 1
  {
    match run
    case Start => Init(c)
    case Then(before, step) => Apply(c, After(c, before), step)
  }

  /** `run` is a valid run that ends in `s`. */
  predicate Leads(c: Config, run: Run, s: State) {
    Valid(c, run) && After(c, run) == s
  }

  /** Messages belong to known senders, and workers serve existing messages. */
  predicate References(c: Config, s: State) {
    && |s.rows| == |s.logs| == |s.originals|
    && |s.workers| == c.workers
    && (forall i :: 0 <= i < |s.rows| ==> s.rows[i].mailbox < |c.limits|)
    && (forall w, id :: 0 <= w < |s.workers| && id in s.workers[w].batch ==> id < |s.rows|)
    && (forall w :: 0 <= w < |s.workers| && !s.workers[w].flight.Grounded? ==>
          s.workers[w].flight.id in s.workers[w].batch)
  }

  lemma {:induction false} RunsHaveReferences(c: Config, run: Run)
    requires Valid(c, run)
    ensures References(c, After(c, run))
  {
    if run.Then? {
      RunsHaveReferences(c, run.before);
      StepKeepsReferences(c, After(c, run.before), run.step);
    }
  }

  lemma StepKeepsReferences(c: Config, s: State, step: Step)
    requires References(c, s) && Enabled(c, s, step)
    ensures References(c, Apply(c, s, step))
  {
  }

  // ---- Single ownership --------------------------------------------------------------

  /** The reaper is about to take no message that a live worker still means to serve. */
  predicate NoLiveClaimIsStale(s: State) {
    forall w, id :: 0 <= w < |s.workers| && id in s.workers[w].batch && id < |s.rows| ==>
                      !StaleClaim(s.rows[id], s.now - STALE_CLAIM_AFTER)
  }

  /** Every reap of the run respects the live workers. */
  predicate Disciplined(c: Config, run: Run)
    requires Valid(c, run)
  {
    match run
    case Start => true
    case Then(before, step) => Disciplined(c, before) && (step.Reap? ==> NoLiveClaimIsStale(After(c, before)))
  }

  /** `more` is `run` with more steps. */
  predicate Extends(run: Run, more: Run) {
    more == run || (more.Then? && Extends(run, more.before))
  }

  lemma {:induction false} ExtendsOn(a: Run, b: Run, c: Run)
    requires Extends(a, b) && Extends(b, c)
    ensures Extends(a, c)
  {
    if b != c {
      ExtendsOn(a, b, c.before);
    }
  }

  /** Taking one more step. */
  lemma Extend(c: Config, run: Run, s: State, step: Step)
    requires Leads(c, run, s) && Enabled(c, s, step)
    ensures Leads(c, Then(run, step), Apply(c, s, step))
    ensures Disciplined(c, Then(run, step)) <==> Disciplined(c, run) && (step.Reap? ==> NoLiveClaimIsStale(s))
  {
  }
}
