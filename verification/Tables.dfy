/**
  The shared tables, and the queue primitives of `emaild/worker.py` and the body purge of
  `emaild/ingest.py` that update them in place. Each method runs inside one transaction.
*/
module Tables {
  import opened Prelude
  import opened Messages
  import opened Addresses
  import Protocol

  // ---- Selecting what is due ---------------------------------------------------------

  /** The claimable row that is due first, among the first `n`. */
  function First(rows: seq<Message>, n: nat, now: Time, locked: set<nat>): (r: Option<nat>)
    requires n <= |rows|
    ensures r.Some? ==> Protocol.Claimable(rows, now, locked, r.value)
    ensures r.Some? ==> forall id :: 0 <= id < n && Protocol.Claimable(rows, now, locked, id) ==>
                                       rows[r.value].nextAttemptAt <= rows[id].nextAttemptAt
    ensures r.None? ==> forall id :: 0 <= id < n ==> !Protocol.Claimable(rows, now, locked, id)
  {
    if n == 0 then None
    else
      var best := First(rows, n - 1, now, locked);
      if !Protocol.Claimable(rows, now, locked, n - 1) then best
      else if best.Some? && rows[best.value].nextAttemptAt <= rows[n - 1].nextAttemptAt then best
      else Some(n - 1)
  }

  /** The subquery of `claim_messages`. */
  function Select(rows: seq<Message>, now: Time, limit: nat, locked: set<nat>): seq<nat> {
    if limit == 0 then []
    else
      match First(rows, |rows|, now, locked)
      case None => []
      case Some(id) => [id] + Select(rows, now, limit - 1, locked + {id})
  }

  /** It returns what the query asks for: due rows in due order, nobody skipped. */
  lemma {:induction false} SelectIsSelection(rows: seq<Message>, now: Time, limit: nat, locked: set<nat>)
    ensures Protocol.Selection(rows, now, limit, locked, Select(rows, now, limit, locked))
  {
    if limit > 0 && First(rows, |rows|, now, locked).Some? {
      var id := First(rows, |rows|, now, locked).value;
      SelectIsSelection(rows, now, limit - 1, locked + {id});
      FirstGoesFirst(rows, now, limit, locked, id, Select(rows, now, limit - 1, locked + {id}));
    }
  }

  lemma FirstGoesFirst(rows: seq<Message>, now: Time, limit: nat, locked: set<nat>, id: nat, rest: seq<nat>)
    requires limit > 0 && First(rows, |rows|, now, locked) == Some(id)
    requires Protocol.Selection(rows, now, limit - 1, locked + {id}, rest)
    ensures Protocol.Selection(rows, now, limit, locked, [id] + rest)
  {
    var ids := [id] + rest;
    forall i | 0 <= i < |ids|
      ensures Protocol.Claimable(rows, now, locked, ids[i])
      ensures i > 0 ==> ids[i] != id && rows[id].nextAttemptAt <= rows[ids[i]].nextAttemptAt
    {
      assert i > 0 ==> ids[i] == rest[i - 1] && Protocol.Claimable(rows, now, locked + {id}, rest[i - 1]);
    }
    forall j | 0 <= j < |rows| && Protocol.Claimable(rows, now, locked, j) && j !in ids
      ensures |ids| == limit
      ensures forall i :: 0 <= i < |ids| ==> rows[ids[i]].nextAttemptAt <= rows[j].nextAttemptAt
    {
      assert j != id && j !in rest;
      assert Protocol.Claimable(rows, now, locked + {id}, j);
    }
  }

  // ---- The tables --------------------------------------------------------------------

  class Database {
    var rows: seq<Message>
    var events: seq<seq<Event>>
    var suppressed: set<string>

    constructor ()
      ensures rows == [] && events == [] && suppressed == {}
    {
      rows, events, suppressed := [], [], {};
    }

    /** `_emit`. */
    method Append(id: nat, kind: Kind, now: Time)
      requires id < |events|
      modifies this`events
      ensures events == old(events)[id := Emit(old(events)[id], kind, now)]
    {
      var log := events[id];
      var top := 0;
      for i := 0 to |log|
        invariant top == MaxSequence(log[..i])
      {
        assert log[..i + 1][..i] == log[..i];
        if top < log[i].sequence {
          top := log[i].sequence;
        }
      }
      assert log[..|log|] == log;
      events := events[id := log + [Event(top + 1, kind, now)]];
    }

    /** Take up to `limit` due messages that no other transaction has locked. */
    method ClaimMessages(worker: WorkerId, limit: nat, locked: set<nat>, now: Time) returns (ids: seq<nat>)
      modifies this`rows
      ensures Protocol.Selection(old(rows), now, limit, locked, ids)
      ensures rows == Protocol.ClaimAll(old(rows), ids, worker, now)
    {
      ids := Select(rows, now, limit, locked);
      SelectIsSelection(rows, now, limit, locked);
      ghost var before := rows;
      for k := 0 to |ids|
        invariant |rows| == |before|
        invariant forall i :: 0 <= i < |rows| ==>
                    rows[i] == if i in ids[..k] then ClaimRow(before[i], worker, now) else before[i]
      {
        var id := ids[k];
        assert Protocol.Claimable(before, now, locked, id);
        assert forall j :: 0 <= j < k ==> ids[j] != id;
        rows := rows[id := rows[id].(status := Sending, claimedBy := Some(worker), claimedAt := Some(now))];
        assert ids[..k + 1] == ids[..k] + [id];
      }
      assert ids[..|ids|] == ids;
    }

    method ReleaseClaim(id: nat)
      requires id < |rows|
      modifies this`rows
      ensures rows == old(rows)[id := ReleaseRow(old(rows)[id])]
    {
      if rows[id].status == Sending {
        rows := rows[id := rows[id].(status := Queued, claimedBy := None, claimedAt := None)];
      }
    }

    method ReapStaleClaims(now: Time) returns (reaped: nat)
      modifies this`rows
      ensures rows == Protocol.ReapAll(old(rows), now)
      ensures reaped == |set i | 0 <= i < |old(rows)| && StaleClaim(old(rows)[i], now - Protocol.STALE_CLAIM_AFTER)|
    {
      var cutoff := now - Protocol.STALE_CLAIM_AFTER;
      ghost var taken: set<nat> := {};
      ghost var before := rows;
      reaped := 0;
      for i := 0 to |rows|
        invariant |rows| == |before|
        invariant forall j :: 0 <= j < i ==> rows[j] == ReapRow(before[j], cutoff, now)
        invariant forall j :: i <= j < |rows| ==> rows[j] == before[j]
        invariant taken == set j | 0 <= j < i && StaleClaim(before[j], cutoff)
        invariant reaped == |taken|
      {
        if StaleClaim(rows[i], cutoff) {
          rows := rows[i := rows[i].(
            status := TemporarilyFailed, claimedBy := None, claimedAt := None, nextAttemptAt := now)];
          reaped := reaped + 1;
          taken := taken + {i};
        }
      }
    }

    /** `purge_expired_bodies`. */
    method PurgeExpiredBodies(retention: real, now: Time) returns (purged: nat)
      modifies this`rows
      ensures rows == Protocol.PurgeAll(old(rows), retention, now)
      ensures purged == |set i | 0 <= i < |old(rows)| && Expired(old(rows)[i], now - retention)|
    {
      var cutoff := now - retention;
      ghost var cleared: set<nat> := {};
      ghost var before := rows;
      purged := 0;
      for i := 0 to |rows|
        invariant |rows| == |before|
        invariant forall j :: 0 <= j < i ==> rows[j] == PurgeRow(before[j], cutoff, now)
        invariant forall j :: i <= j < |rows| ==> rows[j] == before[j]
        invariant cleared == set j | 0 <= j < i && Expired(before[j], cutoff)
        invariant purged == |cleared|
      {
        if Expired(rows[i], cutoff) {
          rows := rows[i := rows[i].(body := Body(None, None), purgedAt := Some(now))];
          purged := purged + 1;
          cleared := cleared + {i};
        }
      }
    }

    /** `add_suppression`, when no other transaction adds the same address first. */
    method AddSuppression(parse: Parser, address: string) returns (created: Option<bool>)
      modifies this`suppressed
      ensures created.None? <==> Normalise(parse, address).None?
      ensures created.None? ==> suppressed == old(suppressed)
      ensures created.Some? ==>
                && suppressed == old(suppressed) + {Normalise(parse, address).value}
                && (created.value <==> Normalise(parse, address).value !in old(suppressed))
    {
      var normal := Normalise(parse, address);
      if normal.None? {
        return None;
      }
      if normal.value in suppressed {
        return Some(false);
      }
      suppressed := suppressed + {normal.value};
      return Some(true);
    }

    /** `remove_suppression`. */
    method RemoveSuppression(parse: Parser, address: string) returns (removed: Option<bool>)
      modifies this`suppressed
      ensures removed.None? <==> Normalise(parse, address).None?
      ensures removed.None? ==> suppressed == old(suppressed)
      ensures removed.Some? ==>
                && suppressed == old(suppressed) - {Normalise(parse, address).value}
                && (removed.value <==> Normalise(parse, address).value in old(suppressed))
    {
      var normal := Normalise(parse, address);
      if normal.None? {
        return None;
      }
      removed := Some(normal.value in suppressed);
      suppressed := suppressed - {normal.value};
    }
  }
}
