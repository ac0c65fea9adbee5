/** The per-sender rate gate (`emaild/ratelimit.py`). */
module Budget {
  import opened Prelude
  import opened Messages

  const WINDOW: real := 3600.0

  /** `last_attempt_at >= now - WINDOW`, for one sender. */
  predicate Counts(m: Message, mailbox: MailboxId, now: Time) {
    m.mailbox == mailbox && m.lastAttemptAt.Some? && m.lastAttemptAt.value >= now - WINDOW
  }

  /** Rows, not attempts: a message counts once, by its latest attempt. */
  function Used(rows: seq<Message>, mailbox: MailboxId, now: Time): nat {
    if rows == [] then 0
    else Used(rows[..|rows| - 1], mailbox, now) + if Counts(rows[|rows| - 1], mailbox, now) then 1 else 0
  }

  function Ceiling(limit: int, margin: real): (r: nat)
    ensures r >= 1
  {
    Max(1, (limit as real * margin).Floor)
  }

  function Remaining(used: nat, ceiling: nat): nat {
    Max(0, ceiling - used)
  }

  predicate Exhausted(used: nat, ceiling: nat) {
    Remaining(used, ceiling) <= 0
  }

  /** The earliest counted attempt. */
  function Oldest(rows: seq<Message>, mailbox: MailboxId, now: Time): Option<Time> {
    if rows == [] then None
    else
      var earlier := Oldest(rows[..|rows| - 1], mailbox, now);
      var last := rows[|rows| - 1];
      if !Counts(last, mailbox, now) then earlier
      else if earlier.Some? && earlier.value <= last.lastAttemptAt.value then earlier
      else last.lastAttemptAt
  }

  function NextWindowOpening(rows: seq<Message>, mailbox: MailboxId, now: Time): Time {
    match Oldest(rows, mailbox, now)
    case None => now
    case Some(oldest) => oldest + WINDOW + 1.0
  }

  // ---- The margin --------------------------------------------------------------------

  /**
    Our own backpressure engages strictly before the provider's, for every margin the settings
    allow, exactly when the provider's limit is at least two.
  */
  lemma CeilingBelowProviderIff(limit: int, margin: real)
    requires 0 < limit && 0.0 < margin <= 0.95
    ensures Ceiling(limit, margin) < limit <==> limit >= 2
  {
    assert limit as real * margin <= limit as real * 0.95;
  }

  /** The ceiling is the largest whole number within the margin, and at least one. */
  lemma CeilingIsLargest(limit: int, margin: real, n: nat)
    ensures n <= Ceiling(limit, margin) <==> n <= 1 || n as real <= limit as real * margin
  {
    var share := limit as real * margin;
    assert share.Floor as real <= share < (share.Floor + 1) as real;
    assert n > share.Floor ==> n >= share.Floor + 1;
  }

  // ---- Counting ----------------------------------------------------------------------

  lemma {:induction false} UsedUpdate(rows: seq<Message>, i: nat, m: Message, mailbox: MailboxId, now: Time)
    requires i < |rows|
    ensures Used(rows[i := m], mailbox, now) + (if Counts(rows[i], mailbox, now) then 1 else 0)
         == Used(rows, mailbox, now) + (if Counts(m, mailbox, now) then 1 else 0)
  {
    var n := |rows| - 1;
    if i == n {
      assert rows[i := m][..n] == rows[..n];
    } else {
      assert rows[i := m][..n] == rows[..n][i := m];
      UsedUpdate(rows[..n], i, m, mailbox, now);
    }
  }

  /** Row `i` is of this sender, and was last attempted within the hour. */
  predicate WithinTheHour(rows: seq<Message>, i: nat, mailbox: MailboxId, now: Time) {
    && i < |rows| && rows[i].mailbox == mailbox
    && rows[i].lastAttemptAt.Some? && now - rows[i].lastAttemptAt.value <= 3600.0
  }

  /** What is used is the number of such rows. */
  lemma {:induction false} UsedIsTheNumber(rows: seq<Message>, mailbox: MailboxId, now: Time)
    ensures Used(rows, mailbox, now) == |set i | 0 <= i < |rows| && WithinTheHour(rows, i, mailbox, now)|
  {
    if rows != [] {
      var n := |rows| - 1;
      UsedIsTheNumber(rows[..n], mailbox, now);
      var before := set i | 0 <= i < n && WithinTheHour(rows[..n], i, mailbox, now);
      var all := set i | 0 <= i < |rows| && WithinTheHour(rows, i, mailbox, now);
      forall i: nat | i < n
        ensures WithinTheHour(rows[..n], i, mailbox, now) <==> WithinTheHour(rows, i, mailbox, now)
      {
        assert rows[..n][i] == rows[i];
      }
      assert all == before + if WithinTheHour(rows, n, mailbox, now) then {n} else {};
    }
  }

  /** Time passing, and updates that touch no attempt stamp, never use more of the budget. */
  lemma {:induction false} UsedShrinks(
    rows: seq<Message>, rows': seq<Message>, mailbox: MailboxId, now: Time, now': Time)
    requires |rows| == |rows'|
    requires forall i :: 0 <= i < |rows| ==> Counts(rows'[i], mailbox, now') ==> Counts(rows[i], mailbox, now)
    ensures Used(rows', mailbox, now') <= Used(rows, mailbox, now)
  {
    if rows != [] {
      UsedShrinks(rows[..|rows| - 1], rows'[..|rows| - 1], mailbox, now, now');
    }
  }

  lemma {:induction false} OldestIsLeast(rows: seq<Message>, mailbox: MailboxId, now: Time)
    ensures var oldest := Oldest(rows, mailbox, now);
            && (oldest.None? <==> Used(rows, mailbox, now) == 0)
            && (oldest.Some? ==>
                  && (exists i :: 0 <= i < |rows| && Counts(rows[i], mailbox, now) && rows[i].lastAttemptAt == oldest)
                  && forall i :: 0 <= i < |rows| && Counts(rows[i], mailbox, now) ==>
                                 oldest.value <= rows[i].lastAttemptAt.value)
  {
    if rows != [] {
      var n := |rows| - 1;
      OldestIsLeast(rows[..n], mailbox, now);
      var earlier := Oldest(rows[..n], mailbox, now);
      if earlier.Some? {
        var i :| 0 <= i < n && Counts(rows[..n][i], mailbox, now) && rows[..n][i].lastAttemptAt == earlier;
        assert rows[i] == rows[..n][i];
      }
      forall i | 0 <= i < |rows| && Counts(rows[i], mailbox, now)
        ensures Oldest(rows, mailbox, now).Some? && Oldest(rows, mailbox, now).value <= rows[i].lastAttemptAt.value
      {
        UsedPositive(rows, i, mailbox, now);
        if i < n {
          assert rows[..n][i] == rows[i];
          UsedPositive(rows[..n], i, mailbox, now);
          assert earlier.value <= rows[i].lastAttemptAt.value;
        }
      }
    }
  }

  lemma OpeningIsNotBehind(rows: seq<Message>, mailbox: MailboxId, now: Time)
    ensures NextWindowOpening(rows, mailbox, now) >= now
  {
    OldestIsLeast(rows, mailbox, now);
  }

  lemma {:induction false} UsedPositive(rows: seq<Message>, i: nat, mailbox: MailboxId, now: Time)
    requires i < |rows| && Counts(rows[i], mailbox, now)
    ensures Used(rows, mailbox, now) > 0
  {
    if i < |rows| - 1 {
      UsedPositive(rows[..|rows| - 1], i, mailbox, now);
    }
  }

  // ---- Scheduling against the gate ---------------------------------------------------

  /**
    An exhausted gate stays exactly as full until the oldest counted attempt is a whole window old:
    if no attempt is stamped meanwhile, retrying earlier is certain to be refused again.
  */
  lemma {:induction false} GateStaysShut(rows: seq<Message>, mailbox: MailboxId, now: Time, later: Time, ceiling: nat)
    requires 1 <= ceiling && Exhausted(Used(rows, mailbox, now), ceiling)
    requires now <= later
    ensures var oldest := Oldest(rows, mailbox, now);
            oldest.Some? && (later <= oldest.value + WINDOW ==> Exhausted(Used(rows, mailbox, later), ceiling))
  {
    OldestIsLeast(rows, mailbox, now);
    if later <= Oldest(rows, mailbox, now).value + WINDOW {
      UsedShrinks(rows, rows, mailbox, later, now);
    }
  }

  /**
    The schedule is prompt: right up to a second before the opening a retry would have been refused, if no
    attempt is stamped meanwhile.
  */
  lemma GateIsPrompt(rows: seq<Message>, mailbox: MailboxId, now: Time, later: Time, ceiling: nat)
    requires 1 <= ceiling && Exhausted(Used(rows, mailbox, now), ceiling)
    requires now <= later <= NextWindowOpening(rows, mailbox, now) - 1.0
    ensures Exhausted(Used(rows, mailbox, later), ceiling)
  {
    GateStaysShut(rows, mailbox, now, later, ceiling);
  }

  /**
    At the scheduled opening, which lies strictly in the future, at least one slot is free again; a
    sender that never exceeded its ceiling finds the gate open.
  */
  lemma {:induction false} GateOpens(rows: seq<Message>, mailbox: MailboxId, now: Time, ceiling: nat)
    requires 1 <= ceiling && Exhausted(Used(rows, mailbox, now), ceiling)
    ensures var opening := NextWindowOpening(rows, mailbox, now);
            && now < opening
            && Used(rows, mailbox, opening) < Used(rows, mailbox, now)
            && (Used(rows, mailbox, now) <= ceiling ==> !Exhausted(Used(rows, mailbox, opening), ceiling))
  {
    OldestIsLeast(rows, mailbox, now);
    var oldest := Oldest(rows, mailbox, now);
    var opening := NextWindowOpening(rows, mailbox, now);
    var i :| 0 <= i < |rows| && Counts(rows[i], mailbox, now) && rows[i].lastAttemptAt == oldest;
    var forgotten := rows[i].(lastAttemptAt := None);
    UsedUpdate(rows, i, forgotten, mailbox, now);
    UsedUpdate(rows, i, forgotten, mailbox, opening);
    UsedShrinks(rows[i := forgotten], rows[i := forgotten], mailbox, now, opening);
  }
}
