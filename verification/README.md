# emaild: a verified model

emaild accepts mail over an HTTP API, keeps it in Postgres, and hands it to an SMTP provider that
rejects whoever exceeds an hourly limit. Postgres rows are the queue. This project models what the
system does with them, and proves what it promises.

**The queue.** `Messages` holds a message row, its event log, and what each transaction writes to
them. `Protocol` is the queue as a state machine: each `session_scope` block is one atomic step, the
SMTP conversation is a step of its own, and so are the two halves of an attempt's first transaction:
the check, which loads the row and reads the budget, and the stamp, which writes the loaded count plus
one. A crash may fall between any two steps. `Life` is the same story told for a single message;
`QueueRefinement` shows that every step of the protocol is one move of it. `QueueTheorems` has the
promises: a bound on duplicates, nothing lost, nothing shared, honest timelines, absorbing terminal
states, bounded retries, safe purging. `QueueLiveness` adds that nobody starves and that every
unfinished message can reach a worker. `Duplicates` and `RetryBounds` have what is true of every run,
stolen claims included: each theft and each loss may cost one more acceptance, each stale stamp seven
more deferrals, and every rejection has its reason. The rest assumes `Disciplined`: the reaper takes no
claim that a live worker still means to serve. `OwnedIffDisciplined` says that this is exactly what single ownership needs, two
lemmas give it to a single worker and to workers that finish a batch within fifteen minutes, and
`QueueLimits` shows what goes wrong without it. `Production` puts the classification of replies and
the test for a dead address that are in force into all of this; `Bounces` has the runs whose
suppressions are the worker's. `Timetable` reads a message's times off its timeline, in every run: when it
is due, when it was last attempted, when it ended.

`Tables` and `DeliveryWorker` are the imperative side: a `Database` and a `Worker` whose methods
update them in place. A worker carries a ghost run of the protocol; each method proves which steps
it has taken, so a real worker's every state is a reachable state of the protocol.

**Rates.** `Budget` is the per-sender gate, `GateTheorems` what it guarantees with any number of
workers, `GateLimits` runs that reach that bound for every ceiling and number of workers. `Pacing`,
`Reclaims` and `HourlyBound` work out how often the wire is used, without and with reaps: the gate
counts messages, not attempts. `Backoff` is the retry schedule, and
`Limiter` the control plane's own sliding-window limiter.

**Accepting mail.** `Addresses` normalises, `Ingest` is the whole decision and the write,
`SuppressionRuns` follows the suppression list through whole histories, and `Idempotency` lets
requests under one key interleave against the unique constraint.

**Deciding from replies.** `Verdicts` is the ordered classification table and the narrower test for a
dead address, with what its search finds said by positions in the text; `Replies` has a reply in words
for each rule; `Casualties` is what the worker suppresses.

**Domains, keys, secrets, jobs.** `Lifecycle` and `Registry` follow a domain through sweeps and
provisioning, and `LifecycleRaces` lets these overlap; `Dkim` compares TXT records; `Authority` compares the two dashboard views with the
authorizer; `SecretStore` and `Installation` are the two first-writer-wins protocols; `Jobs`,
`JobTable` and `DomainNames` are the provisioning queue.

`Prelude`, `Text` and `Ordering` are shared helpers. Row ids are indices; a run is a `datatype Run = Start |
Then(before, step)`, and theorems about "every run" quantify over it.

## What the proofs turned up

- Nothing rechecks a claim before the wire (`emaild/worker.py:190-202`), so a worker slower than the
  reaper's threshold can have its message sent twice: `QueueLimits.SlowWorkerDuplicates`. The comment
  at `emaild/worker.py:63-64` says a slow but live send is never stolen; that holds as far as
  `QueueTheorems.PromptWorkersAreDisciplined` goes, for whole batches of ten.
- The count of attempts is loaded before the stamp writes it back plus one, with no lock on the row
  (`emaild/worker.py:192-201`, `emaild/worker.py:258-261`). After a theft two workers can stamp one
  number, and put the same attempt off twice: `QueueLimits.StaleStampDefersTwice`. Numbers are an
  attempt's own exactly when no stamp is stale: `RetryBounds.NumbersDifferIff`.
- The gate counts a message's own earlier attempts, so the retry that would fill the budget is held
  back: the hourly bound is five times the ceiling *less four*: `HourlyBound.AttemptsInAnHour`.
- A 4xx can be final: the text rules come before the code, so a 450 that says the mailbox is unavailable
  gives the message up (`emaild/delivery/classify.py:131-144`): `Verdicts.FourHundredsRetryUnless`,
  `Replies.KnownReplies`.
- The idempotency lookup never finds a key "in progress" (`emaild/ingest.py:162-167`): a key is
  stored with its response. That answer only comes from the losing insert, after the winner has
  committed: `Idempotency.LookupNeverFindsProgress`, `Idempotency.ConflictIsAlreadyDecided`.
- The suppression list is consulted before the key, so a retry of an accepted request turns into a
  refusal once somebody it names is suppressed: `SuppressionRuns.RetriesReplayUnlessSuppressed`.
- `read_or_create` returns the creator's raw value; everybody else gets it with its line ends
  translated, for files are read in text mode, and stripped. Calls agree in every run exactly when each
  factory's secret has no blank at an end and no carriage return, or is nothing but blanks (which every
  reader refuses): `SecretStore.AgreementIff`. A file torn by a dying creator passes for a secret if it
  is not blank: `SecretStore.SecretsHaveASource`.
- Sweeps and provisionings read the status, wait for the provider, and write (`emaild/domains.py:94-129`,
  `emaild/provisioning.py:65-146`). A provisioning can make ready a domain that a sweep refuted in
  between, and a sweep can write over a suspension: `LifecycleRaces.StaleProvisioningPromotes`,
  `LifecycleRaces.StaleSweepUnsuspends`. Exactly two kinds of stale write leave a domain sendable
  against the last word on it: `LifecycleRaces.TrustedIffGuarded`.
- A DKIM value that the provider sends without a name is displayed under a default name that the
  check never looks at, so publishing it cannot verify: `Registry.ShownDkimVerifiesIff`. Neither does
  an ownership token with a value other than the fixed one: `Registry.PublishingEverythingProvesIff`.
- `enqueue` reads and then inserts; two at once leave two outstanding jobs: `Jobs.DoubleClick`. The row
  is dated from the start of its transaction (`emaild/models.py:50`), so a slow one overtakes what was
  enqueued before it: `Jobs.OldTransactionsOvertake`.
- `run_one` never commits a claim, so the job reaper finds nothing to do: `Jobs.ReaperIsIdle`.
- Cleaning a domain name is not idempotent: a newline in front of a trailing dot survives the first
  cleaning, and `$` in the pattern matches before it: `DomainNames.IdempotentIff`. Such a spelling
  escapes the one-job-per-domain check: `JobTable.SpellingsEscape`.

## Model

| member | source | states |
|---|---|---|
| QueueTheorems.DuplicateBound | emaild/worker.py:190-276 | in every disciplined run, the provider accepts a message at most once more than the attempts of it that died in flight; not more often than those while it is neither accepted nor in flight |
| Duplicates.DuplicatesArePaidFor | emaild/worker.py:190-276 | in every run, stolen claims included: acceptances of a message are at most one, plus the attempts that died in flight, plus the reaps that took it from a live worker |
| Duplicates.DisciplineIsNoTheft | emaild/worker.py:511-529 | a disciplined reaper takes nothing from a live worker |
| QueueTheorems.LossesAreCounted | emaild/worker.py:258-275 | attempts stamped, minus outcomes in the timeline, minus the one in flight, is exactly the number of crashes and lost outcomes that hit the message in mid-flight |
| QueueTheorems.OwnedIffDisciplined | emaild/worker.py:511-529 | ownership is single at every moment of a run if and only if the reaper was disciplined throughout |
| QueueTheorems.ReapKeepsOwnershipIff | emaild/worker.py:511-529 | a reap keeps single ownership if and only if no live worker holds a claim older than the threshold |
| QueueTheorems.OneWorkerIsDisciplined | emaild/worker.py:105-130 | reaping only between batches, as a single worker does, suffices for it |
| QueueTheorems.PromptWorkersAreDisciplined | emaild/worker.py:63-68 | so does finishing every batch within the threshold |
| QueueLimits.SlowWorkerDuplicates | emaild/worker.py:190-202 | a run with two workers in which no outcome is lost and the provider accepts one message twice |
| QueueTheorems.HonestTimeline | emaild/worker.py:532-549 | event numbers are exactly 1..n, `attempts` equals the attempt events, the row is terminal iff the log holds exactly one ending, and no attempt follows it |
| Timetable.TimelinesKeepTime | emaild/worker.py:371-427 | in every run, a waiting message is due exactly from the time its timeline names (arrival, the opening it was held back for, the end of its last delay) or from the reap that took it back since; its last attempt and its completion are dated as the events are |
| Timetable.PutOffUntil | emaild/worker.py:399-410 | one that was put off, and not reaped since, is due exactly when the delay of its last deferral is over |
| Timetable.TimelinesAreChronicles | emaild/worker.py:205-230 | in every run a timeline starts with acceptance and queueing, goes forward in time, tells of a gate only when the budget was used up, with an opening in the next hour and a second, and of a partial delivery only as part of an acceptance |
| Timetable.StepWrites | emaild/worker.py:532-549 | what each step adds to each timeline, event by event, all of them dated then |
| Timetable.RecordSettles | emaild/worker.py:280-427 | the row after an outcome: accepted and cleared of earlier failures; put off until exactly the delay is over; or rejected; with what was learnt, and flagged if the verdict or the last attempt wants it |
| Timetable.AnswerSettles | emaild/worker.py:204-230 | the row after a delivery that ends before its attempt: held back until the opening, or given up without a host and flagged |
| Timetable.HeldBackJustLongEnough | emaild/ratelimit.py:85-108 | up to a second before the opening the gate would have refused again, and from then on at least one slot more is free, if nobody stamps meanwhile |
| Timetable.ClaimsGoStale | emaild/worker.py:511-529 | a claim may be reaped from fifteen minutes on, and no earlier |
| Timetable.ReturnsToTheQueue | emaild/worker.py:502-529 | a released message is queued and due as it was; a reaped one counts as failed and is due at once |
| QueueTheorems.TerminalIsAbsorbing | emaild/models.py:85-100 | whatever happens after a message is terminal, its status, timeline and wire record stay as they are |
| QueueTheorems.NeverLostNeverShared | emaild/worker.py:472-529 | every message is exactly one of pending, sending, terminal (with the claim, due and completion columns that go with it); a message in a worker's hands is sending; no two workers hold one; a sending message is held or orphaned |
| QueueTheorems.OrphansComeBack | emaild/worker.py:511-529 | every orphan has a claim time; once that is past the threshold, one reap makes it pending and due |
| QueueLiveness.EveryMessageIsServed | emaild/worker.py:105-188 | from every state of a disciplined run, every unfinished message gets into a worker's hands by time, reaps, unlocked claims and serving alone, with nobody crashing or shutting down |
| QueueLiveness.NoStarvation | emaild/worker.py:472-508 | each claim that passes an overdue message by takes ten messages that were ahead of it, and only a released message gets ahead: ten times the claims is at most those ahead plus the releases |
| QueueLiveness.MoveQueues | emaild/worker.py:205-230 | a message joins the queue no earlier than now unless it is released, and leaves it only by a claim |
| QueueTheorems.PurgeIsSafe | emaild/ingest.py:310-337 | a purged message is terminal, an unpurged one has its original body, and everything that reached the wire carried the body accepted at ingest |
| QueueTheorems.PurgeIsExact | emaild/ingest.py:317-337 | a sweep changes exactly the terminal, unpurged messages completed before the cutoff, in the two body columns and the stamp, and no timeline |
| QueueTheorems.BoundedRetries | emaild/worker.py:371-427 | in every run: at most seven deferrals, waiting 89,460 s together at most, and as much again for each stamp that found the count changed since it was loaded |
| QueueTheorems.FreshRetries | emaild/worker.py:371-427 | where no stamp is stale: at most seven deferrals, of different attempts, a later attempt waiting strictly longer, 89,460 s together at most |
| QueueTheorems.DisciplinedStampsAreFresh | emaild/worker.py:192-261 | single ownership leaves no stamp stale |
| QueueTheorems.RetriesInOrder | emaild/worker.py:258-261 | with single ownership, deferrals come in the order of their attempts, and attempts are at most eight plus those that died in flight |
| RetryBounds.NumbersDifferIff | emaild/worker.py:192-261 | the numbers stamped on a message are pairwise different iff every stamp of it found the count that its check had loaded |
| RetryBounds.RunsPay | emaild/worker.py:258-276 | in every run, an attempt number was stamped at most once, and once more for each stale stamp; it is put off or in the air no more often than it was stamped |
| QueueLimits.StaleStampDefersTwice | emaild/worker.py:192-261 | a run of two workers with one stale stamp in which attempt 1 is put off twice |
| QueueTheorems.RejectionIsJustified | emaild/worker.py:399-445 | in every run, a message is given up only without a host, on a final verdict, or on a retryable one at attempt eight or later; flagged for review in the first and last case |
| Production.RejectionsHaveAReply | emaild/worker.py:315-427 | in every run, behind a rejection on an outcome there is a recorded reply that is fatal by the classification in force, or the eighth attempt or a later one, and the event says which |
| Production.RepliesDecide | emaild/worker.py:315-427 | a failed outcome rejects the message iff its reply is fatal or its attempt is the eighth or later, and puts it off otherwise |
| Bounces.SuppressionsHaveAReply | emaild/worker.py:319-369 | in every run whose record steps suppress what counting the candidates yields, a suppression in a timeline has a recorded reply about that message behind it, in which a candidate of that address met the evidence test |
| Production.SuppressionsNameTheDead | emaild/worker.py:319-369 | and with the evidence test in force that candidate has a final 5xx naming it as dead, and the reply was not an anonymous failure of several recipients |
| QueueRefinement.StepRefines | emaild/worker.py:172-313 | every step of the protocol, reaps of dead claims included, is one possible move of each single message |
| QueueRefinement.RunsAreHealthy | emaild/worker.py:172-313 | in every disciplined run ownership is single and every message satisfies the single-message invariant |
| Life.MoveKeepsSound | emaild/worker.py:204-445 | every move keeps row, timeline, custody and wire record of a message consistent |
| Life.TerminalIsFinal | emaild/models.py:94-100 | no move changes anything of a terminal message but a purge, and that exactly the body and its stamp |
| Backoff.DelaysStrictlyIncrease | emaild/worker.py:70-81 | for every jitter, a later attempt waits strictly longer |
| Backoff.WholeSchedule | emaild/worker.py:74-81 | the longest possible sum of the seven delays is 89,460 s |
| Backoff.PossibleIffJittered | emaild/worker.py:77-81 | the jitter reaches every delay within a fifth of the table entry, and no other |
| Tables.SelectIsSelection | emaild/worker.py:472-499 | the claim query returns due, unlocked rows in due order, at most the limit, and leaves none out that comes before one it took |
| Tables.Database.ClaimMessages | emaild/worker.py:472-499 | returns such a selection and marks exactly those rows as claimed by this worker now |
| Tables.Database.ReleaseClaim | emaild/worker.py:502-508 | a sending row goes back to queued without a claim; any other is untouched |
| Tables.Database.ReapStaleClaims | emaild/worker.py:511-529 | exactly the stale claims go back, due now, and their number is returned |
| Tables.Database.Append | emaild/worker.py:532-549 | the event gets the next number after the largest there is |
| Tables.Database.PurgeExpiredBodies | emaild/ingest.py:310-337 | clears exactly the expired rows and returns their number |
| Tables.Database.AddSuppression | emaild/suppressions.py:97-133 | stores the normal form, reports whether it was new, refuses what is no address |
| Tables.Database.RemoveSuppression | emaild/suppressions.py:136-143 | removes exactly the normal form and reports whether it was there |
| DeliveryWorker.Worker.DeliverOne | emaild/worker.py:190-276 | one delivery is exactly one of three step sequences of the protocol (gated; no host; check, stamp, wire, record), and suppresses exactly what the result condemns if it reached the wire |
| DeliveryWorker.Worker.MakeAttempt | emaild/worker.py:232-276 | an attempt is check, stamp, wire and record in that order, counts as processed, and suppresses exactly what the result condemns |
| DeliveryWorker.Worker.RecordOutcome | emaild/worker.py:280-317 | the second transaction is the protocol's record step with the classified verdict, the jittered delay and the addresses newly suppressed; `Timetable.RecordSettles` has the row it leaves |
| DeliveryWorker.Worker.ApplyFailure | emaild/worker.py:371-427 | row and timeline after a failure: below eight attempts and retryable, put off until exactly now plus the jittered table entry; rejected now otherwise |
| DeliveryWorker.Worker.SuppressDeadRecipients | emaild/worker.py:319-369 | the list grows by the condemned candidates, with one event for each address newly created, in order |
| DeliveryWorker.Worker.StampAttempt | emaild/worker.py:232-261 | the attempt is stamped and logged before the wire, and the body in memory is the row's |
| DeliveryWorker.Worker.HoldBack | emaild/worker.py:205-230 | the gated message is queued again, due when the window opens, no earlier and no later |
| DeliveryWorker.Worker.ProcessBatch | emaild/worker.py:172-188 | after one batch the worker holds nothing: every claimed message was served or, once a shutdown is noticed, released; the count is that of the served |
| DeliveryWorker.Worker.Maintain | emaild/worker.py:161-170 | maintenance is a reap and a purge; a lone worker between batches stays disciplined |
| GateTheorems.GateHolds | emaild/worker.py:204-261 | with W workers, in every run, messages used plus workers between check and commit never exceed the ceiling by more than W - 1 |
| GateLimits.BoundIsReached | emaild/worker.py:204-261 | for every configuration, ceiling and number of workers, a run that reaches it |
| Budget.CeilingBelowProviderIff | emaild/ratelimit.py:78-79 | our ceiling is strictly below the provider's limit, for every allowed margin, iff that limit is at least two |
| Budget.OldestIsLeast | emaild/ratelimit.py:91-100 | the scheduled-against attempt is the earliest that counts, and there is one iff anything is used |
| Budget.GateStaysShut | emaild/ratelimit.py:85-108 | an exhausted gate stays shut until the oldest attempt is a window old, if nothing is stamped meanwhile |
| Budget.GateOpens | emaild/ratelimit.py:85-108 | the scheduled opening is strictly in the future, strictly less is used by then, and a sender within its ceiling finds the gate open |
| Budget.GateIsPrompt | emaild/ratelimit.py:85-108 | and until a second before that opening it is shut, so nothing is put off for longer than it must |
| Budget.UsedIsTheNumber | emaild/ratelimit.py:65-82 | what is used is the number of this sender's messages last attempted within the hour |
| Budget.CeilingIsLargest | emaild/ratelimit.py:78-79 | the ceiling is the largest whole number within the margin, and at least one |
| HourlyBound.AttemptsInAnHour | emaild/ratelimit.py:65-82 | one worker, no reaps: attempts begun by a sender in the hour ending at any moment are at most five times its ceiling less four |
| HourlyBound.AttemptsWithReaps | emaild/ratelimit.py:65-82 | one worker that may crash, and a reaper that takes nothing from it alive: at most seven times the ceiling less six |
| HourlyBound.AttemptsByManyWorkers | emaild/ratelimit.py:65-82 | W workers, in every disciplined run: at most seven times the ceiling plus W - 1 |
| HourlyBound.WireInAnHour | emaild/worker.py:258-267 | the conversations of that hour are at most five times the ceiling, and beyond the bound above only by one that was stamped before the hour |
| HourlyBound.WireWithReaps | emaild/worker.py:258-267 | with crashes and reaps, the conversations of that hour are at most seven times the ceiling |
| Reclaims.RunsAreReclaimed | emaild/worker.py:472-529 | in every disciplined run, behind each attempt there is a claim no later than it and no earlier than the attempt before, and after its claim the message is not claimed again for the shortest retry delay or fifteen minutes, whichever is less |
| Reclaims.SevenAnHour | emaild/worker.py:74-81 | attempts with such claims behind them number at most seven in any hour |
| HourlyBound.RunsFillOnce | emaild/ratelimit.py:67-79 | with one worker, whenever a budget is used up, one of the messages using it was attempted only once in that hour |
| Pacing.RunsArePaced | emaild/worker.py:77-81 | in every run without reaps, attempts of a message are spaced by at least the shortest jittered delay and the row's stamp is the latest of them |
| Pacing.FiveAnHour | emaild/worker.py:74-81 | attempts so spaced number at most five in any hour |
| Pacing.OneStraddles | emaild/worker.py:258-267 | at most one conversation takes place inside a window and was stamped before it |
| Limiter.Bucket.Acquire | emaild/providers/mxroute.py:81-103 | a grant happens at the first clock reading with room; the list is the live part of the whole history; grants `limit` apart are 60 s apart; a sleep as long as asked is the only one |
| Limiter.RateLimiter.Acquire | emaild/providers/mxroute.py:67-103 | a writing verb draws on the write list alone, any other on the read list alone |
| Limiter.VerbsThatWrite | emaild/providers/mxroute.py:67-88 | the writing verbs are POST, PATCH, PUT and DELETE, in any case |
| Limiter.LiveIsSuffix | emaild/providers/mxroute.py:89-89 | pruning keeps exactly a suffix, and everything before it has aged out |
| Limiter.LiveOfLive | emaild/providers/mxroute.py:89-89 | pruning earlier changes nothing later, so the pruned list stands for the whole history |
| Limiter.WaitingMakesRoom | emaild/providers/mxroute.py:94-103 | after the time asked for, a full window has room |
| Limiter.WaitingIsNeeded | emaild/providers/mxroute.py:94-103 | and until the cushion at the end of that time it has none |
| Limiter.MoreThanLimitSpanTheWindow | emaild/providers/mxroute.py:85-92 | wherever they fall, more than `limit` grants span a whole window |
| Addresses.NormaliseIsIdempotent | emaild/suppressions.py:39-55 | with a parser that leaves normalised addresses alone, normalising twice is normalising once |
| Addresses.ReaderIsStable | emaild/auth.py:160-181 | under the same assumption, reading an address anywhere (recipients, senders, suppressions) is stable |
| Addresses.WellFormedIff | emaild/suppressions.py:39-55 | an address is something, an `@`, and after the last one a name with a dot in it but not at its start |
| Addresses.NormalFormsAreTidy | emaild/suppressions.py:39-55 | a normal form is well formed, in lower case, without blanks around it |
| Addresses.SpellingsCoincide | emaild/suppressions.py:39-55 | neither letter case nor blanks around it make a different address |
| Ingest.NormaliseRecipients | emaild/ingest.py:100-114 | the loop computes the normal form, or stops at an unreadable value |
| Ingest.RefusedForTheFirst | emaild/ingest.py:103-108 | accepted iff every value is readable; otherwise refused with the first that is not |
| Ingest.AcceptedInNormalForm | emaild/ingest.py:109-114 | the result mentions exactly the addresses given, each once, in the order of first mention |
| Ingest.NormalFormIsFixed | emaild/ingest.py:128-131 | a normal form is its own normal form, so later lookups may normalise again |
| Ingest.AddressDecides | emaild/ingest.py:189-211 | recipients are taken iff every value and the reply address are readable, they are 1 to 150 and the size is within the limit, each list keeping its own; otherwise the refusal names the first thing wrong, in the order of the code |
| Ingest.DecidedInOrder | emaild/ingest.py:186-222 | sender, recipients, suppression list with all it catches, key: each refusal, replay and write under exactly its conditions, and the write for the mailbox that was authorised |
| Ingest.FindSuppressed | emaild/suppressions.py:75-94 | returns exactly the suppressed addresses that some given value reads as |
| Ingest.Intake.Consider | emaild/ingest.py:186-222 | the statements compute the decision that `Ingest.DecidedInOrder` and `Ingest.AddressDecides` are about |
| Ingest.Intake.IngestMessage | emaild/ingest.py:175-307 | a refusal or a replay writes nothing; otherwise one queued row, due now, with to, cc and bcc each in normal form, the body and the authorised sender, events 1 and 2, and the answered key |
| SuppressionRuns.ListIsHistory | emaild/suppressions.py:97-143 | an address is on the list iff the last thing said about it was to suppress it |
| SuppressionRuns.LookupIsExact | emaild/ingest.py:128-139 | for a well-addressed request the lookup finds somebody iff one of its raw recipients, in any spelling, is suppressed |
| SuppressionRuns.RefusedIffNamed | emaild/ingest.py:213-214 | a request otherwise in order is refused for its recipients iff it names somebody suppressed |
| SuppressionRuns.NoMailToTheSuppressed | emaild/ingest.py:128-139 | over every history, nothing is accepted for an address whose suppression stands |
| SuppressionRuns.RetriesReplayUnlessSuppressed | emaild/ingest.py:213-222 | a retry never writes again, and gets the first id back iff sender and recipients are in order and nobody named was suppressed since |
| SuppressionRuns.OtherRequestsAreTurnedAway | emaild/ingest.py:155-160 | another request under an answered key is refused |
| Idempotency.ExactlyOnce | emaild/ingest.py:216-307 | in every interleaving, successes under one key return one id for one request, and at most one of them created a message |
| Idempotency.MessagesAreCreations | emaild/ingest.py:251-307 | committed messages are exactly the non-replayed successes, each once |
| Idempotency.CreatedOnce | emaild/ingest.py:225-252 | no message was created by two requests |
| Idempotency.ReplaysHaveAnOriginal | emaild/ingest.py:142-172 | a replay repeats an id another request committed under the same key |
| Idempotency.LookupNeverFindsProgress | emaild/ingest.py:162-167 | the branch for a key without a response is never taken |
| Idempotency.ConflictIsAlreadyDecided | emaild/ingest.py:288-298 | a conflict is only reported once a winner committed; the same request again is a replay if it is the winner's and refused if not |
| Idempotency.NobodyIsStuck | emaild/models.py:528-556 | an unfinished request can go on, or waits for one that can commit |
| Verdicts.SearchIff | emaild/delivery/classify.py:51-135 | a pattern is found iff the pieces of one of its alternatives stand in the lower-case text, in order, with no line feed between them |
| Verdicts.CaseIsNoMatter | emaild/delivery/classify.py:51-135 | letter case never decides |
| Replies.KnownReplies | emaild/delivery/classify.py:39-157 | a reply in words for each rule and each default, in mixed case, with its verdict; the named dead recipient is condemned, a 4xx about a mailbox is final but condemns nobody |
| Verdicts.FirstMatchIsLeast | emaild/delivery/classify.py:131-135 | a verdict comes from a rule iff it applies and none before it does |
| Verdicts.GivesUpExactlyWhen | emaild/delivery/classify.py:116-157 | the replies on which a message is given up, exactly; every other is retried |
| Verdicts.FourHundredsRetryUnless | emaild/delivery/classify.py:90-144 | a 4xx is retried iff its wording is about the sending limit or not generically fatal |
| Verdicts.UnfamiliarIsFlagged | emaild/delivery/classify.py:146-155 | a 5xx no rule knows is retried and flagged |
| Verdicts.CondemnsExactlyTheDead | emaild/delivery/bounce.py:28-48 | the replies that condemn an address, exactly; such a reply's own verdict is final and unflagged |
| Casualties.TollIsExact | emaild/worker.py:341-369 | the list grows by exactly the normal forms of the condemned candidates |
| Casualties.CreatedInOrder | emaild/worker.py:341-369 | an event is written for exactly the candidates newly condemned, in their order |
| Casualties.WhoIsACandidate | emaild/worker.py:327-341 | candidates are those refused, each on the reply about it, or else the one recipient, in the open, of a message that failed |
| Casualties.OnlyTheDeadAreSuppressed | emaild/worker.py:330-347 | an address is only ever added on a final 5xx that names it as dead, never on a failure of several recipients without detail |
| Lifecycle.SweepDecides | emaild/domains.py:47-79 | a complete report proves, refutes or holds; ownership is pending iff it was denied, DNS incomplete or misconfigured iff DNS alone stands against a domain that was not, or was, ready; or kept while nothing is decided |
| Lifecycle.OwnershipWasShown | emaild/domains.py:56-74 | in every run, a domain past the first two statuses, unless suspended, passed ownership in the last sweep that decided anything, so no mailbox is created for another |
| Lifecycle.OneIdentityUnlessAsserted | emaild/provisioning.py:84-104 | in every run, all mailboxes but a first were granted by the provider and asserted to be distinct identities |
| Lifecycle.AllowedIsProvisioned | emaild/provisioning.py:70-150 | what status, policy and provider allow is never turned away |
| Lifecycle.EvidenceSettles | emaild/domains.py:67-74 | the same evidence settles within two sweeps; the second moves only a ready domain that broke |
| Lifecycle.ReadyIsProven | emaild/domains.py:94-129 | in every run of calls that do not overlap, ready or verified means the last sweep that decided anything passed ownership, MX, SPF and DKIM; ready iff there is a mailbox too |
| Lifecycle.ProvenIsReady | emaild/domains.py:94-129 | and conversely, unless an operator suspended the domain |
| Lifecycle.ReadyIsLeftOnEvidence | emaild/domains.py:56-74 | ready is left by an operator or a refuting report, never by a failed lookup or provider call |
| Lifecycle.SuspendedStays | emaild/domains.py:53-54 | no sweep or provisioning overwrites a suspension |
| LifecycleRaces.TrustedIffGuarded | emaild/provisioning.py:65-146 | however sweeps and provisionings overlap, ready or verified means proven by the last word at every moment iff no mailbox promotes a domain whose last word is against it, and no refuting sweep that saw nothing to change ends when the domain has become sendable |
| LifecycleRaces.CurrentRacesAreSerial | emaild/domains.py:87-129 | if every write finds what its call has read, the result and the last word are those of the sequential run of the writes |
| LifecycleRaces.CurrentRacesAreTrusted | emaild/domains.py:87-129 | and such overlaps are always trustworthy |
| LifecycleRaces.StaleProvisioningPromotes | emaild/provisioning.py:65-146 | for any proving and any refuting report, an overlap that ends ready with the refuting one as last word |
| LifecycleRaces.StaleSweepUnsuspends | emaild/domains.py:94-129 | for any proving report, an overlap in which a sweep writes over a suspension |
| Lifecycle.ProvisioningAnticipatesTheSweep | emaild/provisioning.py:128-150 | promoting a verified domain is what the next sweep on the same evidence would do |
| Registry.DomainRow.Refresh | emaild/domains.py:82-138 | a sweep is the lifecycle step of its report, stores host, records and token, and changes nothing when the provider call failed |
| Registry.DomainRow.ProvisionMailbox | emaild/provisioning.py:41-153 | succeeds exactly for a new, well-formed address of a domain past ownership, within the one-identity policy, with the provider's help; then adds it and takes the lifecycle step |
| Registry.AddressesAt | emaild/provisioning.py:57-65 | splitting at the first `@` finds the domain's name exactly for the addresses made of some local part without `@`, an `@` and that name |
| Registry.BuildRecords | emaild/domains.py:201-249 | the loop lists exactly the records to publish, in order |
| Registry.ListIsExact | emaild/domains.py:201-249 | the list has every record asked for and no other, the exchanges first in the provider's order, DMARC last |
| Registry.ShownDkimVerifiesIff | emaild/domains.py:224-235 | a zone that carries the DKIM record shown, in any published form, passes the check iff the provider named the key |
| Registry.PublishingEverythingProvesIff | emaild/dnscheck.py:136-291 | publishing exactly the records in the list proves the domain to the sweep iff the provider's answer is sufficient: a primary host, an authorising SPF value, a named key, a token that reads as the fixed one; and passes DMARC |
| Registry.LookupsDecide | emaild/dnscheck.py:136-291 | each check passes on exactly the evidence it names, finds something missing only where nothing was found or named, and makes an error of a failed lookup |
| Registry.RecordsAreKnownByTheirStart | emaild/dnscheck.py:153-291 | SPF and DMARC records are known by how they begin, blanks before it and letter case aside |
| Registry.AuthorisesIff | emaild/dnscheck.py:153-187 | an SPF value authorises the provider iff its include stands anywhere in it, in any case, blanks and quotes aside |
| Registry.OutagesChangeNothing | emaild/dnscheck.py:136-291 | a sweep whose lookups all fail changes no status |
| Registry.DefaultTokenPasses | emaild/domains.py:237-246 | a token sent without a value is shown with one that passes |
| Dkim.DisplayedNormalises | emaild/domains.py:224-235 | for every provider value, the displayed value normalises to the same string |
| Dkim.DisplayedAsMeant | emaild/domains.py:224-235 | a value that the provider quotes and splits with escaped quotes is displayed without either |
| Dkim.QuotingIsSilent | emaild/dnscheck.py:97-105 | so does any split of a value into quoted chunks (section 3.6.2.2 of RFC 6376) |
| Dkim.PublishingWhatIsShownPasses | emaild/dnscheck.py:190-213 | publishing what is displayed makes the check pass |
| Dkim.PassMeansSameKey | emaild/dnscheck.py:208-213 | and it passes only on a record with the same significant characters |
| Authority.RebuiltPrincipalIsTheRealOne | emaild/dashboard/testsend.py:287-331 | the dashboard's principal is the one bearer authentication would produce, and exists under the same conditions |
| Authority.SendOptions | emaild/dashboard/testsend.py:92-144 | lists exactly the pairs of an offering key and a sendable scoped mailbox, none twice, sorted by sender and key name |
| Authority.BlockedSenders | emaild/dashboard/testsend.py:170-276 | lists exactly the mailboxes with a blocker, under their first blocker, by address, then the domains without a mailbox, with what they lack, by name; none twice |
| Authority.ReasonsInOrder | emaild/dashboard/testsend.py:196-245 | the reason given for a mailbox is the first that holds of domain, mailbox and keys |
| Authority.LacksAreReal | emaild/dashboard/testsend.py:246-276 | a domain is said to lack only an identity iff provisioning one would make it ready |
| Ordering.SortBySorts | emaild/dashboard/testsend.py:144-144 | the sort is a sorted rearrangement |
| Ordering.LeqIff | emaild/dashboard/testsend.py:144-144 | strings are ordered by the first character in which they differ |
| Ordering.PairsByTheFirst | emaild/dashboard/testsend.py:144-144 | and pairs by their second members only where the first are equal |
| Authority.ViewAgreesWithAuthority | emaild/auth.py:184-251 | a sender is accepted for a key iff its normal form is offered with that key |
| Authority.AnswersAreExplained | emaild/auth.py:184-251 | every answer and every refusal has its reason: key, project, address, scope, mailbox, domain, in this order |
| Authority.RefusedKeysLookTheSame | emaild/auth.py:95-147 | a presented key is accepted iff it is in use in an active project, and refused with one and the same answer; the principal has that key's project, and just the mailboxes in its scope |
| Authority.OfferedIsAcceptedIff | emaild/dashboard/testsend.py:128-144 | an offered option is accepted as itself iff its address is its own normal form |
| Authority.EveryMailboxIsOnOneView | emaild/dashboard/testsend.py:170-245 | every mailbox is offered by some key or blocked, never both |
| SecretStore.AgreementIff | emaild/secretstore.py:57-111 | with two calls or more, successful calls agree in every interleaving with any deaths iff every factory's secret has no blank at an end and no carriage return, or is nothing but blanks |
| SecretStore.HarmlessIff | emaild/secretstore.py:92-111 | these are exactly the secrets that are read back as they were written, or refused |
| SecretStore.ReturnedValues | emaild/secretstore.py:68-111 | a call returns what text mode and stripping make of the file's content, never blank, or is the creator and returns all of its own value |
| SecretStore.SecretsHaveASource | emaild/secretstore.py:79-111 | whatever is returned was made by some factory: whole if no creator died while writing, perhaps cut short otherwise |
| SecretStore.HarmfulSecretsDisagree | emaild/secretstore.py:92-111 | whoever makes any other secret, a run in which any other call disagrees with it |
| SecretStore.StoredForGood | emaild/secretstore.py:82-93 | a file nobody has open for writing is never written again |
| SecretStore.ReturnedMeansClosed | emaild/secretstore.py:57-101 | whatever was returned is in such a file |
| SecretStore.Directory.ReadOrCreate | emaild/secretstore.py:57-125 | one call: existing, empty, unwritable, lost race, a file that vanishes after it, and creation, each with its result and the file it leaves |
| Installation.CommittedCallsAgree | emaild/bootstrap.py:43-66 | every committed call reported the one identity there is, and an earlier one is kept |
| Installation.RowIsKept | emaild/bootstrap.py:43-66 | a committed identity is never replaced |
| Installation.UncommittedAnswersMayBeLost | emaild/bootstrap.py:43-66 | a call whose transaction is rolled back can have reported another identity |
| Jobs.OneEachIffGuarded | emaild/jobs.py:84-112 | at every moment at most one job per target is outstanding, crashes and reaps included, iff every insert found its target not outstanding |
| Jobs.AtomicRunsAreGuarded | emaild/jobs.py:84-112 | enqueues that nobody interrupts are such runs |
| Jobs.DoubleClick | emaild/jobs.py:87-110 | two enqueues at once leave two outstanding jobs |
| Jobs.ExecutionsAreAccountedFor | emaild/jobs.py:190-231 | every execution begun was recorded, crashed or is going on; at most one is recorded, and a job is executed at most once more than it crashed |
| Jobs.CompletedForGood | emaild/jobs.py:196-231 | a recorded result is never touched again |
| Jobs.ResultsAreReported | emaild/jobs.py:196-231 | a job is completed iff an execution of it ended, and its row says whether that went well, and when |
| Jobs.FirstComeFirstServed | emaild/jobs.py:134-152 | provisioners only begin a claimable job, one that was ahead of it, or one inserted since by a requester whose transaction is as old as the job; those ahead never number more than those ahead and such requesters did at first |
| Jobs.UninterruptedIsServedInOrder | emaild/jobs.py:73-152 | where no enqueue is interrupted, nothing enqueued later overtakes a job |
| Jobs.OldTransactionsOvertake | emaild/models.py:48-50 | a run in which a job inserted later, in an older transaction, is begun first |
| Jobs.ReaperIsIdle | emaild/jobs.py:115-131 | as long as claims are made inside `run_one`, no row is seen running and a reap changes nothing |
| Jobs.ReservedIsSafe | emaild/jobs.py:44-131 | a committed claim is stale from ten minutes on, and no earlier |
| Jobs.ReservedComesBack | emaild/jobs.py:115-131 | a committed, abandoned claim is claimable again ten minutes and one reap later, in its old place |
| Jobs.EmptyQueuesKeepTheirPromises | emaild/jobs.py:73-231 | from an empty queue, with atomic enqueues: one outstanding job per target, none seen running, each recorded at most once and executed at most once more than it crashed |
| JobTable.Queue.Enqueue | emaild/jobs.py:73-112 | refuses what does not clean, returns the outstanding job of the target or adds one, keeps one per target |
| JobTable.Queue.ClaimOne | emaild/jobs.py:134-152 | takes the oldest unlocked pending job and no other, or none if there is none |
| JobTable.Queue.RunOne | emaild/jobs.py:155-231 | the oldest claimable job, and no other row, gets its result: succeeded iff the provider accepted it; on rows from `Enqueue` the repeated cleaning never fails it |
| JobTable.Queue.ReapStale | emaild/jobs.py:115-131 | returns exactly the stale running jobs and their number |
| JobTable.SameCallIff | emaild/jobs.py:155-171 | two stored domains lead to the same privileged call iff they are equal up to a final newline |
| JobTable.SpellingsEscape | emaild/jobs.py:81-101 | every name has two spellings whose jobs are both outstanding and lead to the same call |
| DomainNames.NamesIff | emaild/jobs.py:47-47 | what the pattern accepts, character by character: lengths, dots, hyphens, and the letters at the end |
| DomainNames.CleaningDecides | emaild/jobs.py:54-70 | each refusal under exactly its condition, in any letter case; otherwise the name in lower case |
| DomainNames.CaseIsDropped | emaild/jobs.py:54-70 | cleaning takes no notice of letter case |
| DomainNames.IdempotentIff | emaild/jobs.py:47-70 | cleaning twice is cleaning once iff the trimmed, undotted input does not end in a newline |
| DomainNames.AcceptedAgain | emaild/jobs.py:54-70 | what was accepted is accepted again, less at most one newline, and is a domain name |
| DomainNames.SecondCleaningIsFinal | emaild/jobs.py:155-171 | the name a privileged call gets, cleaned a second time, is a plain domain name and stays as it is |
| DomainNames.ShieldedNewline | emaild/jobs.py:47-61 | for every name, an input that the first cleaning leaves with a newline |
| DomainNames.CleaningIsNotIdempotent | emaild/jobs.py:54-70 | there are inputs on which cleaning twice is not cleaning once |

## Left out

- The SMTP session, TLS, MIME assembly and the adapters: a delivery result is arbitrary.
- HTTP calls to the provider and DNS lookups: their payloads and errors are arbitrary.
- API routes, dashboard pages, forms, log lines, health and metrics: user interface.
- SHA-256, Fernet, ULID: a hash is compared for equality only, ids are fresh.
- The address parser of the standard library: a parameter; where idempotence is needed it is a stated assumption (`Addresses.Idempotent`), and lists and keys do not depend on more.
- Letter case beyond ASCII.
- Postgres: transactions are atomic, `SKIP LOCKED` skips locked rows, unique constraints hold; a transaction reads the clock once; there is one clock that never runs backwards. Other transactions do not touch a row between another's read and its commit, except where the model has separate steps for the two (the attempt stamp, `enqueue`, sweeps and provisionings, the secret's file).
- The write of a secret is one step unless its writer dies, as for any text shorter than a file buffer, and every secret can be encoded.
- Rounding in `int(limit * margin)`: real arithmetic and floor.
- An exception inside a delivery: it is a crash of that worker's batch, its claims waiting for the reaper.
- The rollback inside `add_suppression` (`emaild/suppressions.py:123-130`): it discards the pending outcome, and is part of the protocol's lost outcome.
- Retention of idempotency keys: `expires_at` is written and never read, so it is not modelled.
- Columns that nothing decides on: provider response, latency, notes, names, event details other than those kept.
- The texts of the two dashboard views; their entries, order and reasons are modelled.
- MX answers are exchange names without their final dot; a null MX, on which the check's string splitting fails, is not modelled.
- Daily limits and `SendCounter`: nothing reads them.
- DeliveryWorker.Worker.DeliverOne: other workers do not interleave inside one method call; the protocol, which every call is proved to follow, is where they do.
- Ingest.Intake.IngestMessage: no other transaction inserts the same key during the call; `Idempotency` is where they do.
- SecretStore.Directory.ReadOrCreate: other processes act at one point of the call only; the protocol beside it has all interleavings.
- LifecycleRaces.TrustedIffGuarded: the provider calls are not steps, and two provisionings that overlap may both pass the one-identity policy; only the status is followed.
- Jobs.FirstComeFirstServed: enqueues dated from the very same instant as the job are not ordered against it, because the query orders by the timestamp alone.
- HourlyBound.AttemptsByManyWorkers: without single ownership only `GateTheorems.GateHolds` is claimed; the bounds with reaps are not claimed to be reached.
- Configuration, roles, log redaction, `ServerLimits`, the advice texts, rotation of mailbox passwords, migrations, deployment: they would only add easy members.
