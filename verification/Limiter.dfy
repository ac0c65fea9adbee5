/**
  The control-plane rate limiter of `emaild/providers/mxroute.py`: two sliding windows kept as lists
  of grant times. The monotonic clock is a sequence of readings, one for each turn of the waiting
  loop, so a sleep may end early; the caller gets None if the readings end while it still waits.
*/
module Limiter {
  import opened Prelude
  import opened Text

  const WINDOW: real := 60.0
  const CUSHION: real := 0.05
  const READ_LIMIT: nat := 80
  const WRITE_LIMIT: nat := 16

  predicate IsWrite(verb: string) {
    Lower(verb) in {"post", "patch", "put", "delete"}
  }

  /** The verbs that change something, in any case. */
  lemma VerbsThatWrite(verb: string)
    ensures IsWrite(verb) <==>
            || SameLetters(verb, "POST") || SameLetters(verb, "PATCH")
            || SameLetters(verb, "PUT") || SameLetters(verb, "DELETE")
    ensures SameLetters(verb, "GET") ==> !IsWrite(verb)
  {
    Spelling(verb, "POST", "post");
    Spelling(verb, "PATCH", "patch");
    Spelling(verb, "PUT", "put");
    Spelling(verb, "DELETE", "delete");
    if SameLetters(verb, "GET") {
      assert LowerChar(verb[0]) == 'g' && Lower(verb)[0] == 'g';
    }
  }

  lemma Spelling(verb: string, word: string, lower: string)
    requires |word| == |lower| && forall i :: 0 <= i < |word| ==> LowerChar(word[i]) == lower[i]
    ensures SameLetters(verb, word) <==> Lower(verb) == lower
  {
    if Lower(verb) == lower {
      forall i | 0 <= i < |verb| ensures LowerChar(verb[i]) == LowerChar(word[i]) {
        assert Lower(verb)[i] == lower[i];
      }
    }
  }

  predicate Ordered(times: seq<Time>) {
    forall i, j :: 0 <= i < j < |times| ==> times[i] <= times[j]
  }

  /** `[t for t in bucket if now - t < 60.0]`. */
  function Live(times: seq<Time>, now: Time): seq<Time> {
    if times == [] then []
    else Live(times[..|times| - 1], now)
         + if now - times[|times| - 1] < WINDOW then [times[|times| - 1]] else []
  }

  /** In an ordered list the live times are a suffix, and everything before it has aged out. */
  lemma {:induction false} LiveIsSuffix(times: seq<Time>, now: Time)
    requires Ordered(times)
    ensures var live := Live(times, now);
            && |live| <= |times| && live == times[|times| - |live|..]
            && (forall i :: 0 <= i < |times| - |live| ==> now - times[i] >= WINDOW)
            && (forall i :: 0 <= i < |live| ==> now - live[i] < WINDOW)
  {
    if times != [] {
      var n := |times| - 1;
      var before := Live(times[..n], now);
      LiveIsSuffix(times[..n], now);
      if now - times[n] < WINDOW {
        assert times[n - |before|..] == times[..n][n - |before|..] + [times[n]];
      }
      assert forall i :: 0 <= i < n ==> times[..n][i] == times[i];
    }
  }

  lemma {:induction false} LiveIsShort(times: seq<Time>, now: Time)
    ensures |Live(times, now)| <= |times|
  {
    if times != [] {
      LiveIsShort(times[..|times| - 1], now);
    }
  }

  /** Dropping what aged out earlier changes nothing later. */
  lemma {:induction false} LiveOfLive(times: seq<Time>, earlier: Time, now: Time)
    requires earlier <= now
    ensures Live(Live(times, earlier), now) == Live(times, now)
  {
    if times != [] {
      var n := |times| - 1;
      LiveOfLive(times[..n], earlier, now);
      var live := Live(times[..n], earlier);
      assert Live(times, now) == Live(times[..n], now) + if now - times[n] < WINDOW then [times[n]] else [];
      if earlier - times[n] < WINDOW {
        assert (live + [times[n]])[..|live|] == live;
      } else {
        assert live + [] == live;
      }
    }
  }

  /** Any grant and the one `limit` places later are a whole window apart. */
  predicate SlidingWindow(history: seq<Time>, limit: nat) {
    forall i :: 0 <= i && i + limit < |history| ==> history[i + limit] - history[i] >= 60.0
  }

  /** What the caller waits before looking again. */
  function Wait(live: seq<Time>, now: Time): real
    requires live != []
  {
    WINDOW - (now - live[0]) + CUSHION
  }

  /** A full window, left alone for the time asked, has room. */
  lemma WaitingMakesRoom(times: seq<Time>, limit: nat, now: Time, later: Time)
    requires Ordered(times) && 1 <= limit && |Live(times, now)| == limit
    requires later >= now + Wait(Live(times, now), now)
    ensures |Live(times, later)| < limit
  {
    LiveIsSuffix(times, now);
    LiveIsSuffix(times, later);
    var live, left := Live(times, now), Live(times, later);
    assert |left| > 0 ==> left[|left| - 1] == times[|times| - 1];
  }

  /** And it asks for no more: the window stays full until the cushion at the end of that time. */
  lemma WaitingIsNeeded(times: seq<Time>, limit: nat, now: Time, later: Time)
    requires Ordered(times) && 1 <= limit && |Live(times, now)| == limit
    requires now <= later < now + Wait(Live(times, now), now) - 0.05
    ensures |Live(times, later)| == limit
  {
    LiveIsSuffix(times, now);
    LiveIsSuffix(times, later);
    LiveOfLive(times, now, later);
    var live, left := Live(times, now), Live(times, later);
    LiveIsShort(live, later);
    assert live[0] == times[|times| - limit];
  }

  /** Wherever in the history they fall, more than `limit` grants span at least the whole window. */
  lemma MoreThanLimitSpanTheWindow(history: seq<Time>, limit: nat, i: nat, j: nat)
    requires SlidingWindow(history, limit) && Ordered(history)
    requires i + limit <= j < |history|
    ensures history[j] - history[i] >= WINDOW
  {
    assert history[i + limit] - history[i] >= WINDOW;
  }

  /** The second reading comes no earlier than the first sleep was asked to last. */
  predicate Patient(history: seq<Time>, limit: nat, readings: seq<Time>) {
    && |readings| >= 2
    && var live := Live(history, readings[0]);
       live != [] && |live| == limit ==> readings[1] >= readings[0] + Wait(live, readings[0])
  }

  /** If the first sleep lasts as long as asked, one sleep is enough. */
  lemma SleepsAtMostOnce(history: seq<Time>, limit: nat, readings: seq<Time>, sleeps: Option<nat>)
    requires Ordered(history) && 1 <= limit
    requires sleeps.Some? ==>
               sleeps.value < |readings| && forall k :: 0 <= k < sleeps.value ==> |Live(history, readings[k])| == limit
    requires sleeps.None? ==> forall k :: 0 <= k < |readings| ==> |Live(history, readings[k])| == limit
    ensures Patient(history, limit, readings) ==> sleeps.Some? && sleeps.value <= 1
  {
    if |readings| >= 2 && |Live(history, readings[0])| == limit && Patient(history, limit, readings) {
      WaitingMakesRoom(history, limit, readings[0], readings[1]);
    }
  }

  /** One of the two lists, with the whole history of its grants beside it. */
  class Bucket {
    const limit: nat
    var times: seq<Time>
    ghost var history: seq<Time>
    ghost var seen: Time

    /** The list is the part of the history still in the window when the clock was last read. */
    ghost predicate Valid()
      reads this
    {
      && limit >= 1
      && Ordered(history) && (history != [] ==> history[|history| - 1] <= seen)
      && times == Live(history, seen)
      && |times| <= limit
      && SlidingWindow(history, limit)
    }

    constructor (limit: nat, ghost start: Time)
      requires limit >= 1
      ensures Valid() && history == [] && seen == start && this.limit == limit
    {
      this.limit := limit;
      times, history, seen := [], [], start;
    }

    /** Grant at the first reading that finds room; `sleeps` turns of the loop went to sleep before it. */
    method Acquire(readings: seq<Time>) returns (sleeps: Option<nat>)
      requires Valid() && Ordered(readings) && (readings != [] ==> seen <= readings[0])
      modifies this
      ensures Valid()
      ensures sleeps.Some? ==>
                && sleeps.value < |readings|
                && history == old(history) + [readings[sleeps.value]]
                && |Live(old(history), readings[sleeps.value])| < limit
                && forall k :: 0 <= k < sleeps.value ==> |Live(old(history), readings[k])| == limit
      ensures sleeps.None? ==>
                && history == old(history)
                && forall k :: 0 <= k < |readings| ==> |Live(old(history), readings[k])| == limit
      ensures Patient(old(history), limit, readings) ==> sleeps.Some? && sleeps.value <= 1
      ensures seen == if readings == [] then old(seen)
                      else if sleeps.Some? then readings[sleeps.value] else readings[|readings| - 1]
    {
      var turn := 0;
      while turn < |readings|
        invariant 0 <= turn <= |readings|
        invariant Valid() && history == old(history)
        invariant seen == if turn == 0 then old(seen) else readings[turn - 1]
        invariant forall k :: 0 <= k < turn ==> |Live(history, readings[k])| == limit
      {
        var now := readings[turn];
        Prune(now);
        if |times| < limit {
          Grant(now);
          sleeps := Some(turn);
          SleepsAtMostOnce(old(history), limit, readings, sleeps);
          return;
        }
        turn := turn + 1;
      }
      sleeps := None;
      SleepsAtMostOnce(old(history), limit, readings, sleeps);
    }

    /** `bucket[:] = [t for t in bucket if now - t < 60.0]`. */
    method Prune(now: Time)
      requires Valid() && seen <= now
      modifies this`times, this`seen
      ensures Valid() && seen == now && times == Live(history, now)
    {
      LiveOfLive(history, seen, now);
      LiveIsShort(times, now);
      times := Live(times, now);
      seen := now;
    }

    /** `bucket.append(now)`. */
    method Grant(now: Time)
      requires Valid() && now == seen && |times| < limit
      modifies this`times, this`history
      ensures Valid() && history == old(history) + [now]
    {
      LiveIsSuffix(history, now);
      ghost var before := history;
      times := times + [now];
      history := history + [now];
      assert history[..|before|] == before;
      forall i | 0 <= i && i + limit < |history| ensures history[i + limit] - history[i] >= WINDOW {
        if i + limit == |before| {
          assert i < |before| - |Live(before, now)|;
        } else {
          assert before[i + limit] - before[i] >= WINDOW;
        }
      }
    }
  }

  class RateLimiter {
    const readBucket: Bucket
    const writeBucket: Bucket
    ghost var clock: Time

    ghost predicate Valid()
      reads this, readBucket, writeBucket
    {
      readBucket != writeBucket && readBucket.Valid() && writeBucket.Valid() && readBucket.seen <= clock
        && writeBucket.seen <= clock
    }

    constructor (ghost start: Time)
      ensures Valid() && fresh(readBucket) && fresh(writeBucket) && clock == start
      ensures readBucket.limit == 80 && writeBucket.limit == 16
      ensures readBucket.history == [] && writeBucket.history == []
    {
      readBucket := new Bucket(READ_LIMIT, start);
      writeBucket := new Bucket(WRITE_LIMIT, start);
      clock := start;
    }

    /** The list that a kind of call draws on. */
    function Drawn(write: bool): Bucket {
      if write then writeBucket else readBucket
    }

    /** Reads and writes pace themselves separately. */
    method Draw(write: bool, readings: seq<Time>) returns (sleeps: Option<nat>)
      requires Valid() && Ordered(readings) && (readings != [] ==> clock <= readings[0])
      modifies this, readBucket, writeBucket
      ensures Valid()
      ensures Drawn(!write).history == old(Drawn(!write).history) && Drawn(!write).times == old(Drawn(!write).times)
      ensures sleeps.Some? ==> sleeps.value < |readings| &&
                               Drawn(write).history == old(Drawn(write).history) + [readings[sleeps.value]]
      ensures sleeps.None? ==> Drawn(write).history == old(Drawn(write).history)
      ensures Patient(old(Drawn(write).history), Drawn(write).limit, readings) ==> sleeps.Some? && sleeps.value <= 1
    {
      if write {
        sleeps := writeBucket.Acquire(readings);
        clock := if readings == [] then clock else writeBucket.seen;
      } else {
        sleeps := readBucket.Acquire(readings);
        clock := if readings == [] then clock else readBucket.seen;
      }
    }

    /** `acquire`. */
    method Acquire(verb: string, readings: seq<Time>) returns (sleeps: Option<nat>)
      requires Valid() && Ordered(readings) && (readings != [] ==> clock <= readings[0])
      modifies this, readBucket, writeBucket
      ensures Valid() && (sleeps.Some? ==> sleeps.value < |readings|)
      ensures IsWrite(verb) ==>
                && readBucket.history == old(readBucket.history) && readBucket.times == old(readBucket.times)
                && writeBucket.history
                   == old(writeBucket.history) + (if sleeps.Some? then [readings[sleeps.value]] else [])
                && (Patient(old(writeBucket.history), writeBucket.limit, readings) ==>
                      sleeps.Some? && sleeps.value <= 1)
      ensures !IsWrite(verb) ==>
                && writeBucket.history == old(writeBucket.history) && writeBucket.times == old(writeBucket.times)
                && readBucket.history
                   == old(readBucket.history) + (if sleeps.Some? then [readings[sleeps.value]] else [])
                && (Patient(old(readBucket.history), readBucket.limit, readings) ==> sleeps.Some? && sleeps.value <= 1)
    {
      sleeps := Draw(IsWrite(verb), readings);
    }
  }
}
