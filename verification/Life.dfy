/**
  The life of one message: its row, its timeline, who has custody of it, and what reached the wire.
  Every transaction of the queue protocol moves each message by one of these moves (see
  QueueRefinement), so what every move keeps holds of every message in every run.
*/
module Life {
  import opened Prelude
  import opened Messages
  import opened Verdicts
  import Backoff

  /** One conversation with the provider. */
  datatype Wire = Wire(
    id: nat, mailbox: MailboxId, attempt: nat, body: Body, success: bool, stampedAt: Time, sentAt: Time)

  /** Where a live worker stands with a message it has claimed. */
  datatype Custody =
    | Unheld
    | Held
    | Cleared(body: Body, seen: nat)
    | OnWire(attempt: nat, body: Body)
    | Answered(attempt: nat, result: DeliveryResult)

  datatype Life = Life(row: Message, log: seq<Event>, custody: Custody, sent: seq<Wire>, original: Body)

  datatype Move =
    | Stay
    | Take(worker: WorkerId)
    | GiveBack
    | Gate(used: nat, ceiling: nat, opening: Time)
    | GiveUp
    | Clear
    | Stamp
    | Transmit(entry: Wire, result: DeliveryResult)
    | Record(verdict: Verdict, delay: real, suppressed: seq<string>)
    | Drop
    | Reap(cutoff: Time)
    | Purge(cutoff: Time)

  predicate Possible(l: Life, move: Move, now: Time) {
    match move
    case Stay => true
    case Take(_) => Due(l.row, now)
    case GiveBack => l.custody.Held?
    case Gate(_, _, _) => l.custody.Held?
    case GiveUp => l.custody.Held?
    case Clear => l.custody.Held?
    case Stamp => l.custody.Cleared?
    case Transmit(entry, result) =>
      l.custody.OnWire? && entry.body == l.custody.body && entry.success == result.success
    case Record(_, delay, _) => l.custody.Answered? && Backoff.Possible(l.custody.attempt, delay)
    case Drop => !l.custody.Unheld?
    case Reap(cutoff) => l.custody.Unheld? && StaleClaim(l.row, cutoff)
    case Purge(cutoff) => Expired(l.row, cutoff)
  }

  function Advance(l: Life, move: Move, now: Time): Life
    requires Possible(l, move, now)
  {
    match move
    case Stay => l
    case Take(worker) => l.(row := ClaimRow(l.row, worker, now), custody := Held)
    case GiveBack => l.(row := ReleaseRow(l.row), custody := Unheld)
    case Gate(used, ceiling, opening) =>
      l.(row := GateRow(l.row, opening), log := Emit(l.log, RateGated(used, ceiling, opening), now), custody := Unheld)
    case GiveUp => l.(row := NoHostRow(l.row, now), log := Emit(l.log, Failed(NoHost), now), custody := Unheld)
    case Clear => l.(custody := Cleared(l.row.body, l.row.attempts))
    case Stamp =>
      var attempt := l.custody.seen + 1;
      l.(row := StampRow(l.row, attempt, now),
         log := Emit(l.log, Attempt(attempt), now),
         custody := OnWire(attempt, l.custody.body))
    case Transmit(entry, result) => l.(custody := Answered(l.custody.attempt, result), sent := l.sent + [entry])
    case Record(verdict, delay, suppressed) =>
      l.(row := RecordRow(l.row, l.custody.result, verdict, l.custody.attempt, delay, now),
         log := EmitSuppressed(
           RecordLog(l.log, l.custody.result, verdict, l.custody.attempt, delay, now), suppressed, now),
         custody := Unheld)
    case Drop => l.(custody := Unheld)
    case Reap(cutoff) => l.(row := ReapRow(l.row, cutoff, now))
    case Purge(cutoff) => l.(row := PurgeRow(l.row, cutoff, now))
  }

  // ---- Reading a timeline ------------------------------------------------------------

  /** Everything the proofs need to know of a timeline, accumulated event by event. */
  datatype Story = Story(
    length: nat,
    numbered: bool,
    attempts: nat,
    endings: nat,
    outcomes: nat,
    deferrals: nat,
    lastDeferral: nat,
    backlog: real,
    noLateAttempt: bool,
    orderly: bool)

  function Tell(s: Story, e: Event): Story {
    Story(
      s.length + 1,
      s.numbered && e.sequence == s.length + 1,
      s.attempts + (if e.kind.Attempt? then 1 else 0),
      s.endings + (if Ending(e.kind) then 1 else 0),
      s.outcomes + (if RecordsOutcome(e.kind) then 1 else 0),
      s.deferrals + (if e.kind.Deferred? then 1 else 0),
      if e.kind.Deferred? then e.kind.attempt else s.lastDeferral,
      s.backlog + (if e.kind.Deferred? then e.kind.delay else 0.0),
      s.noLateAttempt && (e.kind.Attempt? ==> s.endings == 0),
      s.orderly && (e.kind.Deferred? ==>
                      && s.lastDeferral < e.kind.attempt < Backoff.MAX_ATTEMPTS
                      && Backoff.Possible(e.kind.attempt, e.kind.delay)))
  }

  function Read(log: seq<Event>): Story {
    if log == [] then Story(0, true, 0, 0, 0, 0, 0, 0.0, true, true)
    else Tell(Read(log[..|log| - 1]), log[|log| - 1])
  }

  lemma {:induction false} NumberedMax(log: seq<Event>)
    requires Read(log).numbered
    ensures Read(log).length == |log| == MaxSequence(log)
  {
    if log != [] {
      NumberedMax(log[..|log| - 1]);
    }
  }

  /** What one more emitted event adds to a numbered timeline. */
  lemma EmitTells(log: seq<Event>, kind: Kind, now: Time)
    requires Read(log).numbered
    ensures Read(Emit(log, kind, now)) == Tell(Read(log), Event(|log| + 1, kind, now))
    ensures Read(Emit(log, kind, now)).numbered
    ensures Read(log).length == |log|
  {
    NumberedMax(log);
    assert Emit(log, kind, now)[..|log|] == log;
  }

  lemma {:induction false} SuppressionsAreNeutral(log: seq<Event>, addresses: seq<string>, now: Time)
    requires Read(log).numbered
    ensures var s := Read(EmitSuppressed(log, addresses, now)); s == Read(log).(length := s.length) && s.numbered
  {
    if addresses != [] {
      var shorter := addresses[..|addresses| - 1];
      SuppressionsAreNeutral(log, shorter, now);
      EmitTells(EmitSuppressed(log, shorter, now), RecipientSuppressed(addresses[|addresses| - 1]), now);
    }
  }

  /** The accumulated story is what the plain definitions say of the timeline. */
  lemma {:induction false} ReadMeans(log: seq<Event>)
    ensures var s := Read(log);
            && s.attempts == Attempts(log) && s.endings == Endings(log) && s.outcomes == Outcomes(log)
            && s.deferrals == Deferrals(log) && s.backlog == Backlog(log)
            && s.length == |log| && (s.numbered <==> Numbered(log))
  {
    if log != [] {
      ReadMeans(log[..|log| - 1]);
      assert forall i :: 0 <= i < |log| - 1 ==> log[..|log| - 1][i] == log[i];
    }
  }

  lemma {:induction false} EndingsSeen(log: seq<Event>, i: nat)
    requires i < |log| && Ending(log[i].kind)
    ensures Read(log).endings > 0
  {
    if i < |log| - 1 {
      EndingsSeen(log[..|log| - 1], i);
    }
  }

  lemma {:induction false} NoLateAttemptMeans(log: seq<Event>)
    requires Read(log).noLateAttempt
    ensures NoAttemptAfterEnding(log)
  {
    if log != [] {
      var before := log[..|log| - 1];
      NoLateAttemptMeans(before);
      forall i, j | 0 <= i < j < |log| && Ending(log[i].kind) ensures !log[j].kind.Attempt? {
        assert before[i] == log[i];
        if j == |log| - 1 {
          EndingsSeen(before, i);
        } else {
          assert before[j] == log[j];
        }
      }
    }
  }

  /** Deferrals carry increasing attempt numbers below the limit, and delays their attempt allows. */
  predicate DeferralsInOrder(log: seq<Event>) {
    && (forall i :: 0 <= i < |log| && log[i].kind.Deferred? ==>
          1 <= log[i].kind.attempt < Backoff.MAX_ATTEMPTS && Backoff.Possible(log[i].kind.attempt, log[i].kind.delay))
    && (forall i, j :: 0 <= i < j < |log| && log[i].kind.Deferred? && log[j].kind.Deferred? ==>
          log[i].kind.attempt < log[j].kind.attempt)
  }

  lemma {:induction false} OrderlyMeans(log: seq<Event>)
    requires Read(log).orderly
    ensures DeferralsInOrder(log)
    ensures forall i :: 0 <= i < |log| && log[i].kind.Deferred? ==> log[i].kind.attempt <= Read(log).lastDeferral
  {
    if log != [] {
      var n := |log| - 1;
      OrderlyMeans(log[..n]);
      forall i | 0 <= i < n && log[i].kind.Deferred?
        ensures 1 <= log[i].kind.attempt < Backoff.MAX_ATTEMPTS
                && Backoff.Possible(log[i].kind.attempt, log[i].kind.delay)
        ensures log[i].kind.attempt <= Read(log[..n]).lastDeferral
      {
        assert log[..n][i] == log[i];
      }
      forall i, j | 0 <= i < j < n && log[i].kind.Deferred? && log[j].kind.Deferred?
        ensures log[i].kind.attempt < log[j].kind.attempt
      {
        assert log[..n][i] == log[i] && log[..n][j] == log[j];
      }
    }
  }

  lemma {:induction false} OrderlyIsBounded(log: seq<Event>)
    requires Read(log).orderly
    ensures Read(log).deferrals <= Read(log).lastDeferral < Backoff.MAX_ATTEMPTS
    ensures Read(log).backlog <= Backoff.Budget(Read(log).lastDeferral)
  {
    if log != [] {
      var before := log[..|log| - 1];
      var last := log[|log| - 1].kind;
      OrderlyIsBounded(before);
      if last.Deferred? {
        Backoff.BudgetIsMonotone(Read(before).lastDeferral, last.attempt - 1);
      }
    }
  }

  // ---- What every move keeps ---------------------------------------------------------

  predicate Terminal(m: Message) {
    m.status == AcceptedByProvider || m.status == PermanentlyRejected
  }

  predicate PendingShape(m: Message) {
    Pending(m) && m.claimedBy.None? && m.claimedAt.None? && m.completedAt.None?
  }

  predicate SendingShape(m: Message) {
    m.status == Sending && m.claimedBy.Some? && m.claimedAt.Some? && m.completedAt.None?
  }

  predicate TerminalShape(m: Message) {
    Terminal(m) && m.claimedBy.None? && m.claimedAt.None? && m.completedAt.Some?
  }

  /** Pending, sending or terminal, with the columns that go with it; only a sending message is in custody. */
  predicate Shape(l: Life) {
    && (PendingShape(l.row) || SendingShape(l.row) || TerminalShape(l.row))
    && (!l.custody.Unheld? ==> l.row.status == Sending)
  }

  predicate InFlight(custody: Custody) {
    custody.OnWire? || custody.Answered?
  }

  /** Attempts whose outcome will never be recorded: neither recorded nor still in flight. */
  function Lost(l: Life): int {
    l.row.attempts - Outcomes(l.log) - if InFlight(l.custody) then 1 else 0
  }

  function Wins(sent: seq<Wire>): nat {
    if sent == [] then 0
    else Wins(sent[..|sent| - 1]) + if sent[|sent| - 1].success then 1 else 0
  }

  predicate Timeline(l: Life, s: Story) {
    && s.numbered && s.noLateAttempt
    && l.row.attempts == s.attempts
    && s.endings == (if Terminal(l.row) then 1 else 0)
    && (InFlight(l.custody) ==> l.custody.attempt == l.row.attempts)
    && (l.custody.Cleared? ==> l.custody.seen == l.row.attempts)
  }

  predicate Retrying(l: Life, s: Story) {
    && s.orderly
    && s.lastDeferral <= l.row.attempts - (if InFlight(l.custody) then 1 else 0)
    && s.outcomes <= s.deferrals + s.endings
  }

  predicate Wiring(l: Life, s: Story) {
    var lost := l.row.attempts - s.outcomes - if InFlight(l.custody) then 1 else 0;
    && lost >= 0
    && Wins(l.sent) <= lost + (if l.row.status == AcceptedByProvider then 1 else 0)
                            + (if l.custody.Answered? && l.custody.result.success then 1 else 0)
    && (forall i :: 0 <= i < |l.sent| ==> l.sent[i].body == l.original)
  }

  /** The body the provider is given is the body accepted at ingest. */
  predicate Bodies(l: Life) {
    && (l.row.purgedAt.None? ==> l.row.body == l.original)
    && (l.row.purgedAt.Some? ==> Terminal(l.row) && l.row.body == Body(None, None))
    && (l.custody.Cleared? || l.custody.OnWire? ==> l.custody.body == l.original)
  }

  predicate Sound(l: Life) {
    var s := Read(l.log);
    Shape(l) && Timeline(l, s) && Retrying(l, s) && Wiring(l, s) && Bodies(l)
  }

  // ---- Proofs ------------------------------------------------------------------------

  lemma NewLifeIsSound(mailbox: MailboxId, recipients: Recipients, body: Body, now: Time)
    ensures Sound(Life(NewMessage(mailbox, recipients, body, now), NewLog(now), Unheld, [], body))
  {
    EmitTells([], ApiAccepted, now);
    EmitTells(Emit([], ApiAccepted, now), MessageQueued, now);
  }

  /** Extra events that say nothing leave a message as sound as it was. */
  lemma PaddingKeepsSound(l: Life, log': seq<Event>)
    requires Sound(l) && Read(log') == Read(l.log).(length := Read(log').length)
    ensures Sound(l.(log := log'))
  {
  }

  /** `Record`, before the suppression events are added. */
  function Recorded(l: Life, verdict: Verdict, delay: real, now: Time): Life
    requires l.custody.Answered?
  {
    l.(row := RecordRow(l.row, l.custody.result, verdict, l.custody.attempt, delay, now),
       log := RecordLog(l.log, l.custody.result, verdict, l.custody.attempt, delay, now),
       custody := Unheld)
  }

  lemma AcceptedIsSound(l: Life, now: Time)
    requires Sound(l) && l.custody.Answered? && l.custody.result.success
    ensures Sound(l.(row := AcceptRow(l.row, now), log := Emit(l.log, ProviderAccepted, now), custody := Unheld))
  {
    EmitTells(l.log, ProviderAccepted, now);
  }

  lemma DeferredIsSound(l: Life, verdict: Verdict, delay: real, now: Time)
    requires Sound(l) && l.custody.Answered? && !l.custody.result.success
    requires Retries(verdict, l.custody.attempt) && Backoff.Possible(l.custody.attempt, delay)
    ensures Sound(l.(row := FailRow(l.row, l.custody.result.code, verdict, l.custody.attempt, delay, now),
                     log := Emit(l.log, Deferred(l.custody.attempt, delay), now),
                     custody := Unheld))
  {
    EmitTells(l.log, Deferred(l.custody.attempt, delay), now);
  }

  lemma RejectedIsSound(l: Life, verdict: Verdict, delay: real, now: Time)
    requires Sound(l) && l.custody.Answered? && !l.custody.result.success
    requires !Retries(verdict, l.custody.attempt)
    ensures Sound(l.(row := FailRow(l.row, l.custody.result.code, verdict, l.custody.attempt, delay, now),
                     log := Emit(l.log, Failed(Outcome(l.custody.attempt, verdict.retryable)), now),
                     custody := Unheld))
  {
    EmitTells(l.log, Failed(Outcome(l.custody.attempt, verdict.retryable)), now);
  }

  lemma RecordedIsSound(l: Life, verdict: Verdict, delay: real, now: Time)
    requires Sound(l) && l.custody.Answered? && Backoff.Possible(l.custody.attempt, delay)
    ensures Sound(Recorded(l, verdict, delay, now))
  {
    if !l.custody.result.success {
      if Retries(verdict, l.custody.attempt) {
        DeferredIsSound(l, verdict, delay, now);
      } else {
        RejectedIsSound(l, verdict, delay, now);
      }
    } else if l.custody.result.Partial() {
      EmitTells(l.log, PartialDelivery, now);
      PaddingKeepsSound(l, Emit(l.log, PartialDelivery, now));
      AcceptedIsSound(l.(log := Emit(l.log, PartialDelivery, now)), now);
    } else {
      AcceptedIsSound(l, now);
    }
  }

  lemma RecordKeepsSound(l: Life, verdict: Verdict, delay: real, suppressed: seq<string>, now: Time)
    requires Sound(l) && Possible(l, Record(verdict, delay, suppressed), now)
    ensures Sound(Advance(l, Record(verdict, delay, suppressed), now))
  {
    var recorded := Recorded(l, verdict, delay, now);
    RecordedIsSound(l, verdict, delay, now);
    SuppressionsAreNeutral(recorded.log, suppressed, now);
    PaddingKeepsSound(recorded, EmitSuppressed(recorded.log, suppressed, now));
  }

  lemma GateKeepsSound(l: Life, used: nat, ceiling: nat, opening: Time, now: Time)
    requires Sound(l) && l.custody.Held?
    ensures Sound(Advance(l, Gate(used, ceiling, opening), now))
  {
    EmitTells(l.log, RateGated(used, ceiling, opening), now);
  }

  lemma GiveUpKeepsSound(l: Life, now: Time)
    requires Sound(l) && l.custody.Held?
    ensures Sound(Advance(l, GiveUp, now))
  {
    EmitTells(l.log, Failed(NoHost), now);
    var l' := Advance(l, GiveUp, now);
    var s := Tell(Read(l.log), Event(|l.log| + 1, Failed(NoHost), now));
    assert Read(l'.log) == s;
    assert Shape(l') && Bodies(l');
    assert Timeline(l', s);
    assert Retrying(l', s);
    assert Wiring(l', s);
  }

  lemma StampKeepsSound(l: Life, now: Time)
    requires Sound(l) && l.custody.Cleared?
    ensures Sound(Advance(l, Stamp, now))
  {
    EmitTells(l.log, Attempt(l.custody.seen + 1), now);
  }

  lemma TransmitKeepsSound(l: Life, entry: Wire, result: DeliveryResult, now: Time)
    requires Sound(l) && Possible(l, Transmit(entry, result), now)
    ensures Sound(Advance(l, Transmit(entry, result), now))
  {
    assert (l.sent + [entry])[..|l.sent|] == l.sent;
  }

  /** Moves that leave the timeline and the wire alone. */
  lemma QuietMoveKeepsSound(l: Life, move: Move, now: Time)
    requires Sound(l) && Possible(l, move, now)
    requires move.Take? || move.GiveBack? || move.Clear? || move.Drop? || move.Reap? || move.Purge?
    ensures Sound(Advance(l, move, now))
  {
  }

  /** Every move of every kind keeps a message sound. */
  lemma {:induction false} MoveKeepsSound(l: Life, move: Move, now: Time)
    requires Sound(l) && Possible(l, move, now)
    ensures Sound(Advance(l, move, now))
  {
    match move
    case Stay =>
    case Gate(used, ceiling, opening) => GateKeepsSound(l, used, ceiling, opening, now);
    case GiveUp => GiveUpKeepsSound(l, now);
    case Stamp => StampKeepsSound(l, now);
    case Transmit(entry, result) => TransmitKeepsSound(l, entry, result, now);
    case Record(verdict, delay, suppressed) => RecordKeepsSound(l, verdict, delay, suppressed, now);
    case _ => QuietMoveKeepsSound(l, move, now);
  }

  /** An attempt is lost exactly by a drop in mid-flight; every other move accounts for it. */
  lemma MoveLoses(l: Life, move: Move, now: Time)
    requires Sound(l) && Possible(l, move, now)
    ensures Lost(Advance(l, move, now)) == Lost(l) + if move.Drop? && InFlight(l.custody) then 1 else 0
  {
    OutcomesMove(l, move, now);
    SettledMove(l, move, now);
    ReadMeans(l.log);
    ReadMeans(Advance(l, move, now).log);
  }

  /** The attempts no longer in flight. */
  function Settled(l: Life): int {
    l.row.attempts - if InFlight(l.custody) then 1 else 0
  }

  lemma SettledMove(l: Life, move: Move, now: Time)
    requires Possible(l, move, now)
    requires (l.custody.Cleared? ==> l.custody.seen == l.row.attempts)
             && (!l.custody.Unheld? ==> l.row.status == Sending)
    ensures Settled(Advance(l, move, now))
         == Settled(l) + if move.Record? || (move.Drop? && InFlight(l.custody)) then 1 else 0
  {
  }

  /** Only recording adds an outcome to a timeline. */
  lemma OutcomesMove(l: Life, move: Move, now: Time)
    requires Sound(l) && Possible(l, move, now)
    ensures Read(Advance(l, move, now).log).outcomes == Read(l.log).outcomes + if move.Record? then 1 else 0
  {
    if move.Record? {
      RecordAccounts(l, move.verdict, move.delay, move.suppressed, now);
    } else if move.Gate? || move.GiveUp? || move.Stamp? {
      EmitAccounts(l, move, now);
    }
  }

  lemma EmitAccounts(l: Life, move: Move, now: Time)
    requires Sound(l) && (move.Gate? || move.GiveUp? || move.Stamp?) && Possible(l, move, now)
    ensures Read(Advance(l, move, now).log).outcomes == Read(l.log).outcomes
  {
    EmitTells(l.log,
              if move.Gate? then RateGated(move.used, move.ceiling, move.opening)
              else if move.GiveUp? then Failed(NoHost)
              else Attempt(l.custody.seen + 1),
              now);
  }

  lemma RecordAccounts(l: Life, verdict: Verdict, delay: real, suppressed: seq<string>, now: Time)
    requires Sound(l) && Possible(l, Record(verdict, delay, suppressed), now)
    ensures Read(Advance(l, Record(verdict, delay, suppressed), now).log).outcomes == Read(l.log).outcomes + 1
  {
    if !l.custody.result.success {
      EmitTells(l.log, if Retries(verdict, l.custody.attempt) then Deferred(l.custody.attempt, delay)
                       else Failed(Outcome(l.custody.attempt, verdict.retryable)), now);
    } else if l.custody.result.Partial() {
      EmitTells(l.log, PartialDelivery, now);
      EmitTells(Emit(l.log, PartialDelivery, now), ProviderAccepted, now);
    } else {
      EmitTells(l.log, ProviderAccepted, now);
    }
    SuppressionsAreNeutral(Recorded(l, verdict, delay, now).log, suppressed, now);
  }

  /** Once terminal, always exactly so: no move changes anything but a purge, and that only the body and its stamp. */
  lemma TerminalIsFinal(l: Life, move: Move, now: Time)
    requires Sound(l) && Possible(l, move, now) && Terminal(l.row)
    ensures Advance(l, move, now) ==
            if move.Purge? then l.(row := l.row.(body := Body(None, None), purgedAt := Some(now))) else l
  {
  }
}
