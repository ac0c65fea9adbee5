/**
  How many attempts one sender can make in an hour. A message is attempted at most five times an hour,
  and the gate counts messages; but it counts a message's own earlier attempts as well, so whoever
  fills the budget is not retried before somebody else has left the window.
*/
module HourlyBound {
  import opened Prelude
  import opened Messages
  import opened Protocol
  import opened QueueRefinement
  import opened Pacing
  import opened Reclaims
  import Budget
  import GateTheorems

  /** Row `i` counts against the sender, by one single attempt. */
  predicate Single(s: State, mailbox: MailboxId, i: nat)
    requires Tables(s)
  {
    && i < |s.rows| && Budget.Counts(s.rows[i], mailbox, s.now)
    && Recent(Starts(s.logs[i]), s.now - Budget.WINDOW) <= 1
  }

  /** When the budget is used up, one of the messages that use it did so by a single attempt. */
  predicate FilledOnce(s: State, mailbox: MailboxId, ceiling: nat)
    requires Tables(s)
  {
    Budget.Used(s.rows, mailbox, s.now) >= ceiling ==> exists i :: 0 <= i < |s.rows| && Single(s, mailbox, i)
  }

  lemma {:induction false} RecentShrinks(starts: seq<Time>, from: Time, later: Time)
    requires from <= later
    ensures Recent(starts, later) <= Recent(starts, from)
  {
    if starts != [] {
      RecentShrinks(starts[..|starts| - 1], from, later);
    }
  }

  /** If as much is used as before, whatever counted still counts. */
  lemma StillCounts(rows: seq<Message>, rows': seq<Message>, mailbox: MailboxId, now: Time, now': Time, i: nat)
    requires |rows| <= |rows'| && i < |rows| && now <= now'
    requires forall j :: 0 <= j < |rows| ==>
               rows'[j].mailbox == rows[j].mailbox && rows'[j].lastAttemptAt == rows[j].lastAttemptAt
    requires forall j :: |rows| <= j < |rows'| ==> rows'[j].lastAttemptAt.None?
    requires Budget.Counts(rows[i], mailbox, now)
    requires Budget.Used(rows', mailbox, now') >= Budget.Used(rows, mailbox, now)
    ensures Budget.Counts(rows'[i], mailbox, now')
  {
    if !Budget.Counts(rows'[i], mailbox, now') {
      var forgotten := rows[i].(lastAttemptAt := None);
      Budget.UsedUpdate(rows, i, forgotten, mailbox, now);
      UncountedTail(rows', |rows|, mailbox, now');
      Budget.UsedShrinks(rows[i := forgotten], rows'[..|rows|], mailbox, now, now');
      assert false;
    }
  }

  lemma {:induction false} UncountedTail(rows: seq<Message>, n: nat, mailbox: MailboxId, now: Time)
    requires n <= |rows| && forall j :: n <= j < |rows| ==> rows[j].lastAttemptAt.None?
    ensures Budget.Used(rows[..n], mailbox, now) == Budget.Used(rows, mailbox, now)
    decreases |rows|
  {
    if n == |rows| {
      assert rows[..n] == rows;
    } else {
      assert rows[..|rows| - 1][..n] == rows[..n];
      UncountedTail(rows[..|rows| - 1], n, mailbox, now);
    }
  }

  /** A stamp that fills the budget is the only one of its message in the hour. */
  lemma StampFillsOnce(c: Config, s: State, step: Step, mailbox: MailboxId)
    requires FewEach(s.rows, s.logs, s.now, 7) && Enabled(c, s, step) && step.Stamp? && mailbox < |c.limits|
    requires c.workers == 1 && GateTheorems.Grounds(c, s)
    requires GateTheorems.Committed(s, mailbox) <= Ceiling(c, mailbox)
    requires Tables(s) && FilledOnce(s, mailbox, Ceiling(c, mailbox))
    ensures Tables(Apply(c, s, step)) && FilledOnce(Apply(c, s, step), mailbox, Ceiling(c, mailbox))
  {
    var s' := Apply(c, s, step);
    var id := s.workers[0].flight.id;
    Budget.UsedUpdate(s.rows, id, s'.rows[id], mailbox, s.now);
    if s.rows[id].mailbox != mailbox {
      if i :| 0 <= i < |s.rows| && Single(s, mailbox, i) {
        assert Single(s', mailbox, i);
      }
    } else {
      assert s.workers[..0] == [];
      assert GateTheorems.CheckingCount(s.workers, s.rows, mailbox) == 1;
      if !Budget.Counts(s.rows[id], mailbox, s.now) {
        FirstOfTheHour(c, s, step, id);
      }
    }
  }

  lemma FirstOfTheHour(c: Config, s: State, step: Step, id: nat)
    requires Tables(s) && FewEach(s.rows, s.logs, s.now, 7)
    requires Enabled(c, s, step) && step.Stamp? && id == s.workers[step.worker].flight.id
    requires !Budget.Counts(s.rows[id], s.rows[id].mailbox, s.now)
    ensures Tables(Apply(c, s, step)) && Single(Apply(c, s, step), s.rows[id].mailbox, id)
  {
    var starts := Starts(s.logs[id]);
    assert Few(s.rows[id], s.logs[id], s.now, 7);
    StartsOfEmit(s.logs[id], Attempt(s.workers[step.worker].flight.seen + 1), s.now);
    assert (starts + [s.now])[..|starts|] == starts;
  }

  lemma OthersKeepFilledOnce(c: Config, s: State, step: Step, mailbox: MailboxId)
    requires Owned(s) && Enabled(c, s, step) && !step.Stamp? && mailbox < |c.limits|
    requires Budget.Used(s.rows, mailbox, s.now) <= Ceiling(c, mailbox)
    requires FilledOnce(s, mailbox, Ceiling(c, mailbox)) && Tables(Apply(c, s, step))
    ensures FilledOnce(Apply(c, s, step), mailbox, Ceiling(c, mailbox))
  {
    var s' := Apply(c, s, step);
    RowsKeepStamps(c, s, step);
    if Budget.Used(s'.rows, mailbox, s'.now) >= Ceiling(c, mailbox) {
      GateTheorems.UsedNeverGrows(c, s, step, mailbox);
      var i :| 0 <= i < |s.rows| && Single(s, mailbox, i);
      SingleStays(c, s, step, mailbox, i);
    }
  }

  lemma SingleStays(c: Config, s: State, step: Step, mailbox: MailboxId, i: nat)
    requires Owned(s) && Enabled(c, s, step) && !step.Stamp? && Tables(Apply(c, s, step))
    requires Single(s, mailbox, i) && |s.rows| <= |Apply(c, s, step).rows|
    requires var s' := Apply(c, s, step); Budget.Used(s'.rows, mailbox, s'.now) >= Budget.Used(s.rows, mailbox, s.now)
    ensures Single(Apply(c, s, step), mailbox, i)
  {
    var s' := Apply(c, s, step);
    RowsKeepStamps(c, s, step);
    StillCounts(s.rows, s'.rows, mailbox, s.now, s'.now, i);
    StartsFrame(c, s, step, i);
    RecentShrinks(Starts(s.logs[i]), s.now - Budget.WINDOW, s'.now - Budget.WINDOW);
  }

  lemma RowsKeepStamps(c: Config, s: State, step: Step)
    requires Enabled(c, s, step) && !step.Stamp?
    ensures var s' := Apply(c, s, step);
            && |s.rows| <= |s'.rows| && s.now <= s'.now
            && (forall j :: 0 <= j < |s.rows| ==>
                  s'.rows[j].mailbox == s.rows[j].mailbox && s'.rows[j].lastAttemptAt == s.rows[j].lastAttemptAt)
            && (forall j :: |s.rows| <= j < |s'.rows| ==> s'.rows[j].lastAttemptAt.None?)
  {
    if !step.Ingest? {
      GateTheorems.StampsStay(c, s, step);
    }
  }

  lemma {:induction false} RunsFillOnce(c: Config, run: Run, mailbox: MailboxId)
    requires Valid(c, run) && Disciplined(c, run) && c.workers == 1 && mailbox < |c.limits|
    ensures Tables(After(c, run)) && FilledOnce(After(c, run), mailbox, Ceiling(c, mailbox))
  {
    RunsAreHealthy(c, run);
    if run.Then? {
      var s := After(c, run.before);
      RunsFillOnce(c, run.before, mailbox);
      RunsAreHealthy(c, run.before);
      GateTheorems.GateHolds(c, run.before, mailbox);
      if run.step.Stamp? {
        SevenEach(c, run.before);
        StampFillsOnce(c, s, run.step, mailbox);
      } else {
        OthersKeepFilledOnce(c, s, run.step, mailbox);
      }
    }
  }

  /** So many attempts for each message that counts, except one for row `i`. */
  lemma {:induction false} BegunWithSingle(
    rows: seq<Message>, logs: seq<seq<Event>>, mailbox: MailboxId, now: Time, i: nat, most: nat)
    requires FewEach(rows, logs, now, most) && i < |rows| && most >= 1
    requires Budget.Counts(rows[i], mailbox, now) && Recent(Starts(logs[i]), now - Budget.WINDOW) <= 1
    ensures Begun(rows, logs, mailbox, now - Budget.WINDOW) + (most - 1) <= most * Budget.Used(rows, mailbox, now)
  {
    var n := |rows| - 1;
    if i == n {
      BegunIsBounded(rows[..n], logs[..n], mailbox, now, most);
    } else {
      BegunWithSingle(rows[..n], logs[..n], mailbox, now, i, most);
      assert Few(rows[n], logs[n], now, most);
    }
    OneMoreTime(most, Budget.Used(rows[..n], mailbox, now));
  }

  lemma FilledOnceBounds(s: State, mailbox: MailboxId, ceiling: nat, most: nat)
    requires Tables(s) && FewEach(s.rows, s.logs, s.now, most) && most >= 1
    requires FilledOnce(s, mailbox, ceiling) && Budget.Used(s.rows, mailbox, s.now) <= ceiling && ceiling >= 1
    ensures Begun(s.rows, s.logs, mailbox, s.now - Budget.WINDOW) + (most - 1) <= most * ceiling
  {
    var used := Budget.Used(s.rows, mailbox, s.now);
    if used >= ceiling {
      var i :| 0 <= i < |s.rows| && Single(s, mailbox, i);
      BegunWithSingle(s.rows, s.logs, mailbox, s.now, i, most);
    } else {
      BegunIsBounded(s.rows, s.logs, mailbox, s.now, most);
      MoreTimes(most, used + 1, ceiling);
      OneMoreTime(most, used);
    }
  }

  lemma MoreTimes(most: nat, a: nat, b: nat)
    requires a <= b
    ensures most * a <= most * b
  {
    assert most * (b - a) >= 0;
  }

  /**
    With one worker and no reaps, at every moment of every run, the attempts a sender has begun in the
    last hour are at most five times its ceiling, less four.
  */
  lemma AttemptsInAnHour(c: Config, run: Run, mailbox: MailboxId)
    requires Valid(c, run) && NoReaps(run) && c.workers == 1 && mailbox < |c.limits|
    ensures var s := After(c, run);
            Tables(s) && Begun(s.rows, s.logs, mailbox, s.now - Budget.WINDOW) + 4 <= 5 * Ceiling(c, mailbox)
  {
    NoReapsIsDisciplined(c, run);
    GateTheorems.GateHolds(c, run, mailbox);
    RunsFillOnce(c, run, mailbox);
    RunsArePaced(c, run);
    var s := After(c, run);
    forall i | 0 <= i < |s.rows| ensures Few(s.rows[i], s.logs[i], s.now, 5) {
      PacedIsFew(LifeOf(s, i), s.now);
    }
    FilledOnceBounds(s, mailbox, Ceiling(c, mailbox), 5);
  }

  /**
    With one worker that may crash, and a reaper that takes back what it left behind, they are at most
    seven times the ceiling, less six: an abandoned claim is not handed out again for fifteen minutes.
  */
  lemma AttemptsWithReaps(c: Config, run: Run, mailbox: MailboxId)
    requires Valid(c, run) && Disciplined(c, run) && c.workers == 1 && mailbox < |c.limits|
    ensures var s := After(c, run);
            Tables(s) && Begun(s.rows, s.logs, mailbox, s.now - Budget.WINDOW) + 6 <= 7 * Ceiling(c, mailbox)
  {
    GateTheorems.GateHolds(c, run, mailbox);
    RunsFillOnce(c, run, mailbox);
    SevenEach(c, run);
    FilledOnceBounds(After(c, run), mailbox, Ceiling(c, mailbox), 7);
  }

  /**
    And with W workers, in every disciplined run, at most seven times the ceiling and the W - 1 that may
    race past it.
  */
  lemma AttemptsByManyWorkers(c: Config, run: Run, mailbox: MailboxId)
    requires Valid(c, run) && Disciplined(c, run) && c.workers >= 1 && mailbox < |c.limits|
    ensures var s := After(c, run);
            && Tables(s)
            && Begun(s.rows, s.logs, mailbox, s.now - Budget.WINDOW) <= 7 * (Ceiling(c, mailbox) + c.workers - 1)
  {
    var s := After(c, run);
    UsedIsBounded(c, run, mailbox);
    SevenEach(c, run);
    SevenEachBounds(s, mailbox, Ceiling(c, mailbox) + c.workers - 1);
  }

  lemma SevenEachBounds(s: State, mailbox: MailboxId, most: int)
    requires Tables(s) && FewEach(s.rows, s.logs, s.now, 7) && Budget.Used(s.rows, mailbox, s.now) <= most
    ensures Begun(s.rows, s.logs, mailbox, s.now - Budget.WINDOW) <= 7 * most
  {
    BegunIsBounded(s.rows, s.logs, mailbox, s.now, 7);
  }

  lemma UsedIsBounded(c: Config, run: Run, mailbox: MailboxId)
    requires Valid(c, run) && c.workers >= 1 && mailbox < |c.limits|
    ensures Budget.Used(After(c, run).rows, mailbox, After(c, run).now) <= Ceiling(c, mailbox) + c.workers - 1
  {
    GateTheorems.GateHolds(c, run, mailbox);
  }

  /**
    The conversations themselves, by the time they take place, keep within five times the ceiling too:
    there is one more than attempts only when a conversation stamped before the hour falls into it.
  */
  lemma WireInAnHour(c: Config, run: Run, mailbox: MailboxId)
    requires Valid(c, run) && NoReaps(run) && c.workers == 1 && mailbox < |c.limits|
    ensures var s := After(c, run);
            var from := s.now - Budget.WINDOW;
            && SentSince(s.wire, mailbox, from) + 4
               <= 5 * Ceiling(c, mailbox) + (if Straddles(s.wire, mailbox, from) then 1 else 0)
            && SentSince(s.wire, mailbox, from) <= 5 * Ceiling(c, mailbox)
  {
    var s := After(c, run);
    AttemptsInAnHour(c, run, mailbox);
    NoReapsIsDisciplined(c, run);
    WireIsLogged(c, run, mailbox, s.now - Budget.WINDOW);
    OneStraddles(s.wire, mailbox, s.now - Budget.WINDOW);
  }

  /** With crashes and reaps, within seven times the ceiling. */
  lemma WireWithReaps(c: Config, run: Run, mailbox: MailboxId)
    requires Valid(c, run) && Disciplined(c, run) && c.workers == 1 && mailbox < |c.limits|
    ensures var s := After(c, run);
            SentSince(s.wire, mailbox, s.now - Budget.WINDOW) <= 7 * Ceiling(c, mailbox)
  {
    var s := After(c, run);
    AttemptsWithReaps(c, run, mailbox);
    WireIsLogged(c, run, mailbox, s.now - Budget.WINDOW);
    OneStraddles(s.wire, mailbox, s.now - Budget.WINDOW);
  }
}
