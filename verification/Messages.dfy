/**
  A message row, its timeline, and what each transaction of the system writes to them
  (`emaild/models.py`, and the row updates of `emaild/worker.py` and `emaild/ingest.py`).
*/
module Messages {
  import opened Prelude
  import opened Verdicts
  import Backoff

  type WorkerId = nat
  type MailboxId = nat

  datatype Status = Queued | Sending | AcceptedByProvider | TemporarilyFailed | PermanentlyRejected | Canceled

  datatype Body = Body(html: Option<string>, text: Option<string>)

  datatype Recipients = Recipients(to: seq<string>, cc: seq<string>, bcc: seq<string>)

  datatype Message = Message(
    mailbox: MailboxId,
    recipients: Recipients,
    body: Body,
    purgedAt: Option<Time>,
    status: Status,
    attempts: nat,
    lastAttemptAt: Option<Time>,
    nextAttemptAt: Time,
    claimedBy: Option<WorkerId>,
    claimedAt: Option<Time>,
    completedAt: Option<Time>,
    failureClass: Option<FailureClass>,
    failureCode: Option<int>,
    needsReview: bool)

  /** What the provider said. Refusals carry the address, its code and its text. */
  datatype Refusal = Refusal(address: string, code: int, text: string)
  datatype DeliveryResult = DeliveryResult(
    success: bool,
    code: Option<int>,
    response: Option<string>,
    refused: seq<Refusal>,
    accepted: seq<string>)
  {
    predicate Partial() {
      refused != [] && accepted != []
    }
  }

  // ---- Timeline ----------------------------------------------------------------------

  datatype Kind =
    | ApiAccepted
    | MessageQueued
    | RateGated(used: nat, ceiling: nat, retryAt: Time)
    | Attempt(number: nat)
    | PartialDelivery
    | ProviderAccepted
    | Deferred(attempt: nat, delay: real)
    | Failed(cause: Cause)
    | RecipientSuppressed(address: string)

  /** Why a message was given up: no SMTP host is known, or the outcome of an attempt. */
  datatype Cause = NoHost | Outcome(attempt: nat, retryable: bool)

  datatype Event = Event(sequence: nat, kind: Kind, at: Time)

  function MaxSequence(log: seq<Event>): nat {
    if log == [] then 0
    else Max(MaxSequence(log[..|log| - 1]), log[|log| - 1].sequence)
  }

  /** `_emit`: append with the next free sequence number. */
  function Emit(log: seq<Event>, kind: Kind, now: Time): seq<Event> {
    log + [Event(MaxSequence(log) + 1, kind, now)]
  }

  function EmitSuppressed(log: seq<Event>, addresses: seq<string>, now: Time): seq<Event> {
    if addresses == [] then log
    else Emit(EmitSuppressed(log, addresses[..|addresses| - 1], now),
              RecipientSuppressed(addresses[|addresses| - 1]), now)
  }

  // ---- Row updates -------------------------------------------------------------------

  /** The row `ingest_message` inserts. */
  function NewMessage(mailbox: MailboxId, recipients: Recipients, body: Body, now: Time): Message {
    Message(mailbox, recipients, body, None, Queued, 0, None, now, None, None, None, None, None, false)
  }

  function NewLog(now: Time): seq<Event> {
    Emit(Emit([], ApiAccepted, now), MessageQueued, now)
  }

  predicate Pending(m: Message) {
    m.status == Queued || m.status == TemporarilyFailed
  }

  /** The rows `claim_messages` may take. */
  predicate Due(m: Message, now: Time) {
    Pending(m) && m.nextAttemptAt <= now
  }

  function ClaimRow(m: Message, worker: WorkerId, now: Time): Message {
    m.(status := Sending, claimedBy := Some(worker), claimedAt := Some(now))
  }

  function Unclaimed(m: Message): Message {
    m.(claimedBy := None, claimedAt := None)
  }

  /** `release_claim`. */
  function ReleaseRow(m: Message): Message {
    if m.status == Sending then Unclaimed(m).(status := Queued) else m
  }

  /** A claim that `reap_stale_claims` takes back, given its cutoff. */
  predicate StaleClaim(m: Message, cutoff: Time) {
    m.status == Sending && m.claimedAt.Some? && m.claimedAt.value < cutoff
  }

  function ReapRow(m: Message, cutoff: Time, now: Time): Message {
    if StaleClaim(m, cutoff) then Unclaimed(m).(status := TemporarilyFailed, nextAttemptAt := now) else m
  }

  function GateRow(m: Message, opening: Time): Message {
    Unclaimed(m).(status := Queued, nextAttemptAt := opening)
  }

  /** `_fail_permanently`, as called when the domain has no SMTP host. */
  function NoHostRow(m: Message, now: Time): Message {
    Unclaimed(m).(status := PermanentlyRejected, completedAt := Some(now), failureCode := None, needsReview := true)
  }

  /** `attempt` is the count that the transaction read when it loaded the row, plus one. */
  function StampRow(m: Message, attempt: nat, now: Time): Message {
    m.(lastAttemptAt := Some(now), attempts := attempt)
  }

  function AcceptRow(m: Message, now: Time): Message {
    Unclaimed(m).(status := AcceptedByProvider, completedAt := Some(now), failureClass := None, failureCode := None)
  }

  predicate Retries(verdict: Verdict, attempt: nat) {
    verdict.retryable && attempt < Backoff.MAX_ATTEMPTS
  }

  /** `_apply_failure`. */
  function FailRow(m: Message, code: Option<int>, verdict: Verdict, attempt: nat, delay: real, now: Time): Message {
    var m' := Unclaimed(m).(
      failureClass := Some(verdict.failureClass),
      failureCode := code,
      needsReview := m.needsReview || verdict.needsReview);
    if Retries(verdict, attempt) then m'.(status := TemporarilyFailed, nextAttemptAt := now + delay)
    else m'.(
      status := PermanentlyRejected, completedAt := Some(now), needsReview := m'.needsReview || verdict.retryable)
  }

  /** The row after `_record_outcome`. The verdict is what classification says of a failed result. */
  function RecordRow(
    m: Message, result: DeliveryResult, verdict: Verdict, attempt: nat, delay: real, now: Time): Message
  {
    if result.success then AcceptRow(m, now) else FailRow(m, result.code, verdict, attempt, delay, now)
  }

  /** The events of `_record_outcome` up to the suppressions. */
  function RecordLog(
    log: seq<Event>, result: DeliveryResult, verdict: Verdict, attempt: nat, delay: real, now: Time): seq<Event>
  {
    if result.success then
      Emit(if result.Partial() then Emit(log, PartialDelivery, now) else log, ProviderAccepted, now)
    else
      Emit(log, if Retries(verdict, attempt) then Deferred(attempt, delay)
                else Failed(Outcome(attempt, verdict.retryable)), now)
  }

  /** The rows a purge sweep clears, given its cutoff. */
  predicate Expired(m: Message, cutoff: Time) {
    m.completedAt.Some? && m.completedAt.value < cutoff && m.purgedAt.None?
  }

  function PurgeRow(m: Message, cutoff: Time, now: Time): Message {
    if Expired(m, cutoff) then m.(body := Body(None, None), purgedAt := Some(now)) else m
  }

  // ---- Reading a timeline ------------------------------------------------------------

  predicate Ending(kind: Kind) {
    kind.ProviderAccepted? || kind.Failed?
  }

  /** The outcome of an attempt was recorded. */
  predicate RecordsOutcome(kind: Kind) {
    kind.ProviderAccepted? || kind.Deferred? || (kind.Failed? && kind.cause.Outcome?)
  }

  function Attempts(log: seq<Event>): nat {
    if log == [] then 0
    else Attempts(log[..|log| - 1]) + if log[|log| - 1].kind.Attempt? then 1 else 0
  }

  function Endings(log: seq<Event>): nat {
    if log == [] then 0
    else Endings(log[..|log| - 1]) + if Ending(log[|log| - 1].kind) then 1 else 0
  }

  function Outcomes(log: seq<Event>): nat {
    if log == [] then 0
    else Outcomes(log[..|log| - 1]) + if RecordsOutcome(log[|log| - 1].kind) then 1 else 0
  }

  function Deferrals(log: seq<Event>): nat {
    if log == [] then 0
    else Deferrals(log[..|log| - 1]) + if log[|log| - 1].kind.Deferred? then 1 else 0
  }

  /** All the waiting that the deferrals of a timeline scheduled. */
  function Backlog(log: seq<Event>): real {
    if log == [] then 0.0
    else Backlog(log[..|log| - 1]) + if log[|log| - 1].kind.Deferred? then log[|log| - 1].kind.delay else 0.0
  }

  /** When the attempts of a timeline began, oldest first. */
  function Starts(log: seq<Event>): seq<Time> {
    if log == [] then []
    else Starts(log[..|log| - 1]) + if log[|log| - 1].kind.Attempt? then [log[|log| - 1].at] else []
  }

  /** Sequence numbers are exactly 1..n, in order. */
  predicate Numbered(log: seq<Event>) {
    forall i :: 0 <= i < |log| ==> log[i].sequence == i + 1
  }

  predicate NoAttemptAfterEnding(log: seq<Event>) {
    forall i, j :: 0 <= i < j < |log| && Ending(log[i].kind) ==> !log[j].kind.Attempt?
  }
}
