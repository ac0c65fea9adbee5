/** Runs that reach the bound of `GateTheorems.GateHolds`, for every ceiling and any number of workers. */
module GateLimits {
  import opened Prelude
  import opened Messages
  import opened Protocol
  import Backoff
  import Budget

  /**
    Messages of one sender only, none of them waiting: `k` were delivered within the hour, and each of
    the first `w` workers has passed the gate with one more. The other workers are idle.
  */
  predicate Lined(c: Config, s: State, mailbox: MailboxId, k: nat, w: nat) {
    && |s.rows| == |s.logs| == k + w && w <= |s.workers| == c.workers
    && (forall i :: 0 <= i < |s.rows| ==> s.rows[i].mailbox == mailbox && !Pending(s.rows[i]))
    && Budget.Used(s.rows, mailbox, s.now) == k
    && (forall v :: 0 <= v < w ==> AtGate(s, mailbox, k, v))
    && (forall v :: w <= v < |s.workers| ==> s.workers[v] == IDLE)
  }

  /** Worker `v` is between check and stamp with message number `k + v`. */
  predicate AtGate(s: State, mailbox: MailboxId, k: nat, v: nat) {
    && v < |s.workers| && k + v < |s.rows| && Through(s.workers[v], k + v)
    && s.rows[k + v].mailbox == mailbox && s.rows[k + v].lastAttemptAt.None?
  }

  predicate Through(local: Local, id: nat) {
    local.flight.Cleared? && local.flight.id == id && local.batch == {id}
  }

  function Letter(mailbox: MailboxId): Step {
    Ingest(mailbox, Recipients([], [], []), Body(None, None))
  }

  // ---- One more worker through the gate ----------------------------------------------

  /** The new message is the only one to claim. */
  lemma NewIsClaimed(c: Config, s: State, mailbox: MailboxId, k: nat, w: nat)
    requires Lined(c, s, mailbox, k, w) && w < c.workers && mailbox < |c.limits|
    ensures Enabled(c, s, Letter(mailbox))
    ensures var s1, claim := Apply(c, s, Letter(mailbox)), Claim(w, [k + w], {});
            && Enabled(c, s1, claim)
            && var s2 := Apply(c, s1, claim);
               && |s2.rows| == |s2.logs| == k + w + 1 && s2.now == s.now
               && (forall i :: 0 <= i < k + w ==> s2.rows[i] == s.rows[i])
               && s2.rows[k + w] == ClaimRow(s1.rows[k + w], w, s.now) && s1.rows[k + w].mailbox == mailbox
               && s2.rows[k + w].lastAttemptAt.None?
               && s2.workers == s.workers[w := Local({k + w}, Grounded)]
  {
    var s1 := Apply(c, s, Letter(mailbox));
    assert Due(s1.rows[k + w], s1.now);
    var s2 := Apply(c, s1, Claim(w, [k + w], {}));
    assert s2.workers[w].batch == {k + w};
  }

  lemma UncountedRow(rows: seq<Message>, more: seq<Message>, mailbox: MailboxId, now: Time)
    requires |more| == |rows| + 1 && more[|rows|].lastAttemptAt.None?
    requires forall i :: 0 <= i < |rows| ==> more[i] == rows[i]
    ensures Budget.Used(more, mailbox, now) == Budget.Used(rows, mailbox, now)
  {
    assert more[..|rows|] == rows;
  }

  /** A new message arrives, and worker `w` takes it. */
  lemma TakesNew(c: Config, run: Run, s: State, mailbox: MailboxId, k: nat, w: nat) returns (more: Run, s': State)
    requires Leads(c, run, s) && Lined(c, s, mailbox, k, w) && w < c.workers && mailbox < |c.limits|
    ensures Leads(c, more, s') && s'.now == s.now
    ensures |s'.rows| == |s'.logs| == k + w + 1 && s'.workers == s.workers[w := Local({k + w}, Grounded)]
    ensures forall i :: 0 <= i < k + w ==> s'.rows[i] == s.rows[i]
    ensures var row := s'.rows[k + w]; row.mailbox == mailbox && !Pending(row) && row.lastAttemptAt.None?
    ensures Budget.Used(s'.rows, mailbox, s'.now) == k
  {
    NewIsClaimed(c, s, mailbox, k, w);
    var s1, claim := Apply(c, s, Letter(mailbox)), Claim(w, [k + w], {});
    Extend(c, run, s, Letter(mailbox));
    Extend(c, Then(run, Letter(mailbox)), s1, claim);
    more := Then(Then(run, Letter(mailbox)), claim);
    s' := Apply(c, s1, claim);
    UncountedRow(s.rows, s'.rows, mailbox, s.now);
  }

  lemma OneMoreThrough(c: Config, run: Run, s: State, mailbox: MailboxId, k: nat, w: nat) returns (more: Run, s': State)
    requires Leads(c, run, s) && Lined(c, s, mailbox, k, w) && w < c.workers
    requires mailbox < |c.limits| && k < Ceiling(c, mailbox)
    ensures Leads(c, more, s') && Lined(c, s', mailbox, k, w + 1)
  {
    var taken: Run, t: State;
    taken, t := TakesNew(c, run, s, mailbox, k, w);
    GatePasses(c, t, mailbox, w, k + w);
    Extend(c, taken, t, Check(w, k + w));
    more := Then(taken, Check(w, k + w));
    s' := Apply(c, t, Check(w, k + w));
    LineGrows(c, s, s', mailbox, k, w);
  }

  lemma GatePasses(c: Config, s: State, mailbox: MailboxId, w: nat, id: nat)
    requires w < |s.workers| && s.workers[w] == Local({id}, Grounded) && id < |s.rows| == |s.logs|
    requires s.rows[id].mailbox == mailbox < |c.limits| && Budget.Used(s.rows, mailbox, s.now) < Ceiling(c, mailbox)
    ensures Enabled(c, s, Check(w, id))
    ensures Apply(c, s, Check(w, id))
         == s.(workers := s.workers[w := Local({id}, Cleared(id, s.rows[id].body, s.rows[id].attempts))])
  {
  }

  lemma LineGrows(c: Config, s: State, s': State, mailbox: MailboxId, k: nat, w: nat)
    requires Lined(c, s, mailbox, k, w) && w < c.workers
    requires |s'.rows| == |s'.logs| == k + w + 1 && |s'.workers| == |s.workers|
    requires forall i :: 0 <= i < k + w ==> s'.rows[i] == s.rows[i]
    requires var row := s'.rows[k + w]; row.mailbox == mailbox && !Pending(row) && row.lastAttemptAt.None?
    requires forall v :: 0 <= v < |s.workers| && v != w ==> s'.workers[v] == s.workers[v]
    requires Through(s'.workers[w], k + w) && Budget.Used(s'.rows, mailbox, s'.now) == k
    ensures Lined(c, s', mailbox, k, w + 1)
  {
    forall v | 0 <= v < w ensures AtGate(s', mailbox, k, v) {
      assert AtGate(s, mailbox, k, v);
    }
  }

  // ---- Filling the budget to one below its ceiling -----------------------------------

  function Acceptance(): DeliveryResult {
    DeliveryResult(true, None, None, [], [])
  }

  /** The only worker at the gate delivers. */
  lemma OneMoreDelivered(c: Config, run: Run, s: State, mailbox: MailboxId, k: nat) returns (more: Run, s': State)
    requires Leads(c, run, s) && Lined(c, s, mailbox, k, 1) && mailbox < |c.limits|
    ensures Leads(c, more, s') && Lined(c, s', mailbox, k + 1, 0)
  {
    assert AtGate(s, mailbox, k, 0);
    more, s' := GoesThrough(c, run, s, mailbox, k);
    LineEmpties(c, s, s', mailbox, k);
  }

  lemma GoesThrough(c: Config, run: Run, s: State, mailbox: MailboxId, k: nat) returns (more: Run, s': State)
    requires Leads(c, run, s) && |s.rows| == |s.logs| == k + 1 && AtGate(s, mailbox, k, 0)
    requires Budget.Used(s.rows, mailbox, s.now) == k
    ensures Leads(c, more, s') && |s'.rows| == |s'.logs| == k + 1 && s'.workers == s.workers[0 := IDLE]
    ensures s'.rows == s.rows[k := s'.rows[k]] && s'.rows[k].mailbox == mailbox && !Pending(s'.rows[k])
    ensures Budget.Used(s'.rows, mailbox, s'.now) == k + 1
  {
    var s1 := StampUses(c, s, mailbox, k, 0, 0);
    Extend(c, run, s, Protocol.Stamp(0));
    more, s' := Accept(c, Then(run, Protocol.Stamp(0)), s1, k);
    Budget.UsedUpdate(s1.rows, k, s'.rows[k], mailbox, s1.now);
  }

  lemma LineEmpties(c: Config, s: State, s': State, mailbox: MailboxId, k: nat)
    requires Lined(c, s, mailbox, k, 1)
    requires |s'.rows| == |s'.logs| == k + 1 && s'.workers == s.workers[0 := IDLE]
    requires s'.rows == s.rows[k := s'.rows[k]] && s'.rows[k].mailbox == mailbox && !Pending(s'.rows[k])
    requires Budget.Used(s'.rows, mailbox, s'.now) == k + 1
    ensures Lined(c, s', mailbox, k + 1, 0)
  {
  }

  /** The first worker's conversation succeeds at once. */
  lemma Accept(c: Config, run: Run, s: State, k: nat) returns (more: Run, s': State)
    requires Leads(c, run, s) && |s.workers| > 0 && k < |s.rows| == |s.logs|
    requires s.workers[0].flight.OnWire? && s.workers[0].flight.id == k && s.workers[0].batch == {k}
    ensures Leads(c, more, s') && s'.now == s.now && |s'.logs| == |s.logs|
    ensures s'.rows == s.rows[k := AcceptRow(s.rows[k], s.now)] && s'.workers == s.workers[0 := IDLE]
  {
    var send := Send(0, Acceptance());
    var s1 := Apply(c, s, send);
    Extend(c, run, s, send);
    var attempt := s1.workers[0].flight.attempt;
    Backoff.DelayIsPossible(attempt, 1.0);
    var record := Record(0, Backoff.Delay(attempt, 1.0), []);
    Extend(c, Then(run, send), s1, record);
    more := Then(Then(run, send), record);
    s' := Apply(c, s1, record);
    assert Without(s1.workers[0], k) == IDLE;
  }

  /** A stamp uses one more of the budget. */
  lemma StampUses(c: Config, s: State, mailbox: MailboxId, k: nat, v: nat, used: nat) returns (s': State)
    requires |s.rows| == |s.logs| && AtGate(s, mailbox, k, v)
    requires Budget.Used(s.rows, mailbox, s.now) == k + used
    ensures Enabled(c, s, Protocol.Stamp(v)) && s' == Apply(c, s, Protocol.Stamp(v)) && s'.now == s.now
    ensures s'.rows == s.rows[k + v := StampRow(s.rows[k + v], s.workers[v].flight.seen + 1, s.now)]
            && |s'.logs| == |s.logs|
    ensures |s'.workers| == |s.workers| && forall u :: 0 <= u < |s.workers| && u != v ==> s'.workers[u] == s.workers[u]
    ensures s'.workers[v].flight.OnWire? && s'.workers[v].flight.id == k + v && s'.workers[v].batch == {k + v}
    ensures Budget.Used(s'.rows, mailbox, s'.now) == k + used + 1
  {
    s' := Apply(c, s, Protocol.Stamp(v));
    Budget.UsedUpdate(s.rows, k + v, s'.rows[k + v], mailbox, s.now);
  }

  lemma {:induction false} Filled(c: Config, mailbox: MailboxId, k: nat) returns (run: Run, s: State)
    requires mailbox < |c.limits| && c.workers >= 1 && k < Ceiling(c, mailbox)
    ensures Leads(c, run, s) && Lined(c, s, mailbox, k, 0)
    decreases k
  {
    if k == 0 {
      run, s := Start, Init(c);
    } else {
      run, s := Filled(c, mailbox, k - 1);
      run, s := OneMoreThrough(c, run, s, mailbox, k - 1, 0);
      run, s := OneMoreDelivered(c, run, s, mailbox, k - 1);
    }
  }

  // ---- Everybody through, then everybody stamps --------------------------------------

  lemma {:induction false} AllThrough(c: Config, mailbox: MailboxId, k: nat, w: nat) returns (run: Run, s: State)
    requires mailbox < |c.limits| && c.workers >= 1 && k < Ceiling(c, mailbox) && w <= c.workers
    ensures Leads(c, run, s) && Lined(c, s, mailbox, k, w)
    decreases w
  {
    if w == 0 {
      run, s := Filled(c, mailbox, k);
    } else {
      run, s := AllThrough(c, mailbox, k, w - 1);
      run, s := OneMoreThrough(c, run, s, mailbox, k, w - 1);
    }
  }

  /** The first `w` workers have stamped; the others are still between check and stamp. */
  predicate Stamping(c: Config, s: State, mailbox: MailboxId, k: nat, w: nat) {
    && |s.rows| == |s.logs| == k + c.workers && w <= |s.workers| == c.workers
    && Budget.Used(s.rows, mailbox, s.now) == k + w
    && forall v :: w <= v < c.workers ==> AtGate(s, mailbox, k, v)
  }

  lemma StampingGoesOn(c: Config, s: State, s': State, mailbox: MailboxId, k: nat, w: nat)
    requires Stamping(c, s, mailbox, k, w) && w < c.workers
    requires |s'.rows| == |s.rows| && |s'.logs| == |s.logs|
    requires forall i :: 0 <= i < |s.rows| && i != k + w ==> s'.rows[i] == s.rows[i]
    requires |s'.workers| == |s.workers| && forall u :: 0 <= u < |s.workers| && u != w ==> s'.workers[u] == s.workers[u]
    requires Budget.Used(s'.rows, mailbox, s'.now) == k + w + 1
    ensures Stamping(c, s', mailbox, k, w + 1)
  {
    forall v | w + 1 <= v < c.workers ensures AtGate(s', mailbox, k, v) {
      assert AtGate(s, mailbox, k, v);
    }
  }

  lemma {:induction false} AllStamp(c: Config, mailbox: MailboxId, k: nat, w: nat) returns (run: Run, s: State)
    requires mailbox < |c.limits| && c.workers >= 1 && k < Ceiling(c, mailbox) && w <= c.workers
    ensures Leads(c, run, s) && Stamping(c, s, mailbox, k, w)
    decreases w
  {
    if w == 0 {
      run, s := AllThrough(c, mailbox, k, c.workers);
    } else {
      var before: Run, t: State;
      before, t := AllStamp(c, mailbox, k, w - 1);
      s := StampUses(c, t, mailbox, k, w - 1, w - 1);
      StampingGoesOn(c, t, s, mailbox, k, w - 1);
      Extend(c, before, t, Protocol.Stamp(w - 1));
      run := Then(before, Protocol.Stamp(w - 1));
    }
  }

  /**
    Workers that all read the budget before any commits its stamp exceed the ceiling by all of them but
    one: for every configuration and every sender there is a run that reaches the bound.
  */
  lemma BoundIsReached(c: Config, mailbox: MailboxId) returns (run: Run)
    requires mailbox < |c.limits| && c.workers >= 1
    ensures Valid(c, run)
    ensures Budget.Used(After(c, run).rows, mailbox, After(c, run).now) == Ceiling(c, mailbox) + c.workers - 1
  {
    var s: State;
    run, s := AllStamp(c, mailbox, Ceiling(c, mailbox) - 1, c.workers);
  }
}
