/** What the rate gate promises of the queue protocol, with several workers and with one. */
module GateTheorems {
  import opened Messages
  import opened Protocol
  import Budget

  // ---- Any number of workers ---------------------------------------------------------

  /** Worker state `local` is past the budget check for a message of this sender, its stamp not yet committed. */
  predicate Checking(local: Local, rows: seq<Message>, mailbox: MailboxId) {
    local.flight.Cleared? && local.flight.id < |rows| && rows[local.flight.id].mailbox == mailbox
  }

  function CheckingCount(workers: seq<Local>, rows: seq<Message>, mailbox: MailboxId): nat {
    if workers == [] then 0
    else CheckingCount(workers[..|workers| - 1], rows, mailbox)
         + if Checking(workers[|workers| - 1], rows, mailbox) then 1 else 0
  }

  lemma {:induction false} CountUpdate(
    workers: seq<Local>, w: nat, local: Local, rows: seq<Message>, mailbox: MailboxId)
    requires w < |workers|
    ensures CheckingCount(workers[w := local], rows, mailbox) + (if Checking(workers[w], rows, mailbox) then 1 else 0)
         == CheckingCount(workers, rows, mailbox) + (if Checking(local, rows, mailbox) then 1 else 0)
  {
    var n := |workers| - 1;
    if w == n {
      assert workers[w := local][..n] == workers[..n];
    } else {
      assert workers[w := local][..n] == workers[..n][w := local];
      CountUpdate(workers[..n], w, local, rows, mailbox);
    }
  }

  lemma {:induction false} CountFrame(workers: seq<Local>, rows: seq<Message>, rows': seq<Message>, mailbox: MailboxId)
    requires forall w :: 0 <= w < |workers| ==>
               Checking(workers[w], rows, mailbox) == Checking(workers[w], rows', mailbox)
    ensures CheckingCount(workers, rows, mailbox) == CheckingCount(workers, rows', mailbox)
  {
    if workers != [] {
      CountFrame(workers[..|workers| - 1], rows, rows', mailbox);
    }
  }

  lemma {:induction false} CountBounded(workers: seq<Local>, rows: seq<Message>, mailbox: MailboxId)
    ensures CheckingCount(workers, rows, mailbox) <= |workers|
    ensures forall w :: 0 <= w < |workers| && !Checking(workers[w], rows, mailbox) ==>
                          CheckingCount(workers, rows, mailbox) < |workers|
  {
    if workers != [] {
      var before := workers[..|workers| - 1];
      CountBounded(before, rows, mailbox);
      assert forall w :: 0 <= w < |before| ==> before[w] == workers[w];
    }
  }

  function Committed(s: State, mailbox: MailboxId): nat {
    Budget.Used(s.rows, mailbox, s.now) + CheckingCount(s.workers, s.rows, mailbox)
  }

  /** The references of workers in flight are to existing messages of known senders. */
  predicate Grounds(c: Config, s: State) {
    && |s.workers| == c.workers
    && (forall w :: 0 <= w < |s.workers| && s.workers[w].flight.Cleared? ==> s.workers[w].flight.id < |s.rows|)
  }

  predicate SameSenders(rows: seq<Message>, rows': seq<Message>) {
    |rows| <= |rows'| && forall i :: 0 <= i < |rows| ==> rows[i].mailbox == rows'[i].mailbox
  }

  lemma StepKeepsSenders(c: Config, s: State, step: Step)
    requires Enabled(c, s, step)
    ensures SameSenders(s.rows, Apply(c, s, step).rows)
  {
  }

  /** Apart from ingestion and stamping, a step leaves every attempt stamp alone. */
  lemma UsedNeverGrows(c: Config, s: State, step: Step, mailbox: MailboxId)
    requires Enabled(c, s, step) && !step.Stamp?
    ensures var s' := Apply(c, s, step); Budget.Used(s'.rows, mailbox, s'.now) <= Budget.Used(s.rows, mailbox, s.now)
  {
    var s' := Apply(c, s, step);
    if step.Ingest? {
      assert s'.rows[..|s.rows|] == s.rows;
    } else {
      StampsStay(c, s, step);
      Budget.UsedShrinks(s.rows, s'.rows, mailbox, s.now, s'.now);
    }
  }

  lemma StampsStay(c: Config, s: State, step: Step)
    requires Enabled(c, s, step) && !step.Stamp? && !step.Ingest?
    ensures |Apply(c, s, step).rows| == |s.rows| && s.now <= Apply(c, s, step).now
    ensures forall i :: 0 <= i < |s.rows| ==>
              && Apply(c, s, step).rows[i].mailbox == s.rows[i].mailbox
              && Apply(c, s, step).rows[i].lastAttemptAt == s.rows[i].lastAttemptAt
  {
  }

  lemma StampCommits(c: Config, s: State, step: Step, mailbox: MailboxId)
    requires Enabled(c, s, step) && step.Stamp?
    ensures Committed(Apply(c, s, step), mailbox) <= Committed(s, mailbox)
  {
    var s' := Apply(c, s, step);
    var id := s.workers[step.worker].flight.id;
    Budget.UsedUpdate(s.rows, id, s'.rows[id], mailbox, s.now);
    CountUpdate(s.workers, step.worker, s'.workers[step.worker], s.rows, mailbox);
    CountFrame(s'.workers, s.rows, s'.rows, mailbox);
  }

  lemma CheckCommits(c: Config, s: State, step: Step, mailbox: MailboxId)
    requires Enabled(c, s, step) && step.Check? && mailbox < |c.limits| && Grounds(c, s)
    ensures Committed(Apply(c, s, step), mailbox) <= Committed(s, mailbox)
         || Committed(Apply(c, s, step), mailbox) <= Ceiling(c, mailbox) + c.workers - 1
  {
    CountBounded(s.workers, s.rows, mailbox);
    CountUpdate(s.workers, step.worker, Apply(c, s, step).workers[step.worker], s.rows, mailbox);
  }

  lemma OtherStepsRelease(c: Config, s: State, step: Step, mailbox: MailboxId)
    requires Enabled(c, s, step) && !step.Stamp? && !step.Check? && Grounds(c, s)
    ensures Committed(Apply(c, s, step), mailbox) <= Committed(s, mailbox)
  {
    var s' := Apply(c, s, step);
    UsedNeverGrows(c, s, step, mailbox);
    StepKeepsSenders(c, s, step);
    CountFrame(s.workers, s.rows, s'.rows, mailbox);
    WorkersRelease(c, s, step, mailbox);
  }

  /** Only a check puts a worker between check and stamp. */
  lemma WorkersRelease(c: Config, s: State, step: Step, mailbox: MailboxId)
    requires Enabled(c, s, step) && !step.Stamp? && !step.Check?
    ensures var s' := Apply(c, s, step);
            CheckingCount(s'.workers, s'.rows, mailbox) <= CheckingCount(s.workers, s'.rows, mailbox)
  {
    var s' := Apply(c, s, step);
    if !step.Tick? && !step.Ingest? && !step.Reap? && !step.Purge? {
      CountUpdate(s.workers, step.worker, s'.workers[step.worker], s'.rows, mailbox);
    }
  }

  lemma StepKeepsGrounds(c: Config, s: State, step: Step)
    requires Enabled(c, s, step) && Grounds(c, s)
    ensures Grounds(c, Apply(c, s, step))
  {
    StepKeepsSenders(c, s, step);
  }

  /**
    With W workers racing between the budget check and the stamp, the messages a sender has used plus
    the workers about to use one more never exceed its ceiling by more than W - 1, in any run at all.
  */
  lemma {:induction false} GateHolds(c: Config, run: Run, mailbox: MailboxId)
    requires Valid(c, run) && mailbox < |c.limits| && c.workers >= 1
    ensures Grounds(c, After(c, run))
    ensures Committed(After(c, run), mailbox) <= Ceiling(c, mailbox) + c.workers - 1
  {
    match run
    case Start => NobodyChecks(After(c, run).workers, [], mailbox);
    case Then(before, step) =>
      var s := After(c, before);
      GateHolds(c, before, mailbox);
      StepKeepsGrounds(c, s, step);
      match step {
        case Stamp(_) => StampCommits(c, s, step, mailbox);
        case Check(_, _) => CheckCommits(c, s, step, mailbox);
        case _ => OtherStepsRelease(c, s, step, mailbox);
      }
  }

  lemma {:induction false} NobodyChecks(workers: seq<Local>, rows: seq<Message>, mailbox: MailboxId)
    requires forall w :: 0 <= w < |workers| ==> !Checking(workers[w], rows, mailbox)
    ensures CheckingCount(workers, rows, mailbox) == 0
  {
    if workers != [] {
      NobodyChecks(workers[..|workers| - 1], rows, mailbox);
    }
  }
}
