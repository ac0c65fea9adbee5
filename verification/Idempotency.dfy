/**
  Concurrent requests under one idempotency key (`emaild/ingest.py`). A request looks the key up, then
  inserts its message and its key, then commits; any number of requests interleave between these steps.
  The unique constraint of `idempotency_keys` is what the database does at the insert: it waits for an
  uncommitted row of the same key, and fails against a committed one.
*/
module Idempotency {
  import opened Prelude
  import opened Ingest

  /** A request that has passed every check before the key. An empty key is none. */
  datatype Ask = Ask(project: nat, key: string, hash: string)

  datatype Answer =
    | Created(id: nat)
    | Repeat(id: nat)
    | Reused
    | InProgress
    | Lost

  datatype Phase =
    | Waiting
    | Missed
    | Holding(id: nat)
    | Done(answer: Answer)

  /** `messages` holds the ids of committed messages; `issued` every id ever drawn. */
  datatype State = State(
    phases: seq<Phase>,
    keys: map<KeyId, KeyRow>,
    messages: seq<nat>,
    issued: set<nat>)

  datatype Step =
    | Look(r: nat)
    | Insert(r: nat, id: nat)
    | Clash(r: nat)
    | Commit(r: nat)
    | Abort(r: nat)

  function KeyOf(ask: Ask): KeyId {
    (ask.project, ask.key)
  }

  predicate Keyed(ask: Ask) {
    ask.key != ""
  }

  /** An uncommitted row of the key of request `r` is in the way. */
  predicate Blocked(asks: seq<Ask>, s: State, r: nat)
    requires r < |asks| == |s.phases|
  {
    Keyed(asks[r]) && exists o :: 0 <= o < |asks| && Holds(asks, s, o, KeyOf(asks[r]))
  }

  /** Request `o` has inserted this key and has not committed. */
  predicate Holds(asks: seq<Ask>, s: State, o: nat, id: KeyId)
    requires |asks| == |s.phases|
  {
    o < |asks| && s.phases[o].Holding? && Keyed(asks[o]) && KeyOf(asks[o]) == id
  }

  predicate Taken(asks: seq<Ask>, s: State, r: nat)
    requires r < |asks|
  {
    Keyed(asks[r]) && KeyOf(asks[r]) in s.keys
  }

  predicate Enabled(asks: seq<Ask>, s: State, step: Step)
    requires |asks| == |s.phases|
  {
    && step.r < |asks|
    && match step
       case Look(r) => s.phases[r].Waiting?
       case Insert(r, id) => s.phases[r].Missed? && !Blocked(asks, s, r) && !Taken(asks, s, r) && id !in s.issued
       case Clash(r) => s.phases[r].Missed? && !Blocked(asks, s, r) && Taken(asks, s, r)
       case Commit(r) => s.phases[r].Holding?
       case Abort(r) => !s.phases[r].Done?
  }

  function AfterLook(ask: Ask, keys: map<KeyId, KeyRow>): Phase {
    match Seen(keys, ask.project, ask.key, ask.hash)
    case None => Missed
    case Some(Ok(id)) => Done(Repeat(id))
    case Some(Err(e)) => Done(if e.KeyInProgress? then InProgress else Reused)
  }

  function Apply(asks: seq<Ask>, s: State, step: Step): (s': State)
    requires |asks| == |s.phases| && Enabled(asks, s, step)
    ensures |s'.phases| == |asks|
  {
    match step
    case Look(r) => s.(phases := s.phases[r := AfterLook(asks[r], s.keys)])
    case Insert(r, id) => s.(phases := s.phases[r := Holding(id)], issued := s.issued + {id})
    case Clash(r) => s.(phases := s.phases[r := Done(InProgress)])
    case Commit(r) =>
      var id := s.phases[r].id;
      s.(phases := s.phases[r := Done(Created(id))],
         messages := s.messages + [id],
         keys := Remember(s.keys, asks[r].project, asks[r].key, asks[r].hash, id))
    case Abort(r) => s.(phases := s.phases[r := Done(Lost)])
  }

  function Init(asks: seq<Ask>): (s: State)
    ensures |s.phases| == |asks|
  {
    State(seq(|asks|, _ => Waiting), map[], [], {})
  }

  datatype Run = Start | Then(before: Run, step: Step)

  predicate Valid(asks: seq<Ask>, run: Run)
    decreases run, 0
  {
    match run
    case Start => true
    case Then(before, step) => Valid(asks, before) && Enabled(asks, After(asks, before), step)
  }

  function After(asks: seq<Ask>, run: Run): (s: State)
    requires Valid(asks, run)
    ensures |s.phases| == |asks|
    decreases run, 1
  {
    match run
    case Start => Init(asks)
    case Then(before, step) => Apply(asks, After(asks, before), step)
  }

  // ---- What every interleaving keeps -------------------------------------------------

  /** Every request's phase is backed by the tables. */
  predicate Backed(asks: seq<Ask>, s: State, r: nat)
    requires r < |asks| == |s.phases|
  {
    match s.phases[r]
    case Waiting => true
    case Missed => true
    case Holding(id) => id in s.issued && id !in s.messages && !Taken(asks, s, r)
    case Done(Lost) => true
    case Done(Created(id)) =>
      id in s.issued && id in s.messages
      && (Keyed(asks[r]) ==> KeyOf(asks[r]) in s.keys && s.keys[KeyOf(asks[r])] == KeyRow(asks[r].hash, Some(id)))
    case Done(Repeat(id)) => Taken(asks, s, r) && s.keys[KeyOf(asks[r])] == KeyRow(asks[r].hash, Some(id))
    case Done(Reused) => Taken(asks, s, r) && s.keys[KeyOf(asks[r])].hash != asks[r].hash
    case Done(InProgress) => Taken(asks, s, r)
  }

  function Drawn(phase: Phase): Option<nat> {
    match phase
    case Holding(id) => Some(id)
    case Done(Created(id)) => Some(id)
    case _ => None
  }

  /** Different requests drew different ids, and no two hold the same key. */
  predicate Apart(asks: seq<Ask>, s: State)
    requires |asks| == |s.phases|
  {
    forall q, r :: 0 <= q < r < |asks| ==>
      && (Drawn(s.phases[q]).None? || Drawn(s.phases[q]) != Drawn(s.phases[r]))
      && !(Holds(asks, s, q, KeyOf(asks[q])) && Holds(asks, s, r, KeyOf(asks[q])))
  }

  /** Request `r` created message `id`. */
  predicate CreatedBy(asks: seq<Ask>, s: State, r: nat, id: nat)
    requires |asks| == |s.phases|
  {
    r < |asks| && s.phases[r] == Done(Created(id))
  }

  predicate Grounded(asks: seq<Ask>, s: State)
    requires |asks| == |s.phases|
  {
    && (forall id :: id in s.messages ==> exists r :: 0 <= r < |asks| && CreatedBy(asks, s, r, id))
    && (forall i, j :: 0 <= i < j < |s.messages| ==> s.messages[i] != s.messages[j])
    && (forall id :: id in s.messages ==> id in s.issued)
    && (forall k :: k in s.keys ==> s.keys[k].response.Some?)
  }

  predicate Sound(asks: seq<Ask>, s: State) {
    && |asks| == |s.phases|
    && (forall r :: 0 <= r < |asks| ==> Backed(asks, s, r))
    && Apart(asks, s)
    && Grounded(asks, s)
  }

  lemma {:induction false} RunsAreSound(asks: seq<Ask>, run: Run)
    requires Valid(asks, run)
    ensures Sound(asks, After(asks, run))
  {
    if run.Then? {
      RunsAreSound(asks, run.before);
      var s := After(asks, run.before);
      StepKeepsBacked(asks, s, run.step);
      StepKeepsApart(asks, s, run.step);
      StepKeepsGrounded(asks, s, run.step);
    }
  }

  lemma StepKeepsBacked(asks: seq<Ask>, s: State, step: Step)
    requires Sound(asks, s) && Enabled(asks, s, step)
    ensures forall r :: 0 <= r < |asks| ==> Backed(asks, Apply(asks, s, step), r)
  {
    var s' := Apply(asks, s, step);
    forall r | 0 <= r < |asks| ensures Backed(asks, s', r) {
      assert Backed(asks, s, r) && Backed(asks, s, step.r);
      if step.Commit? && r != step.r {
        CommitKeepsOthers(asks, s, step.r, r);
      }
    }
  }

  lemma CommitKeepsOthers(asks: seq<Ask>, s: State, r: nat, other: nat)
    requires Sound(asks, s) && Enabled(asks, s, Commit(r)) && other < |asks| && other != r
    ensures Backed(asks, Apply(asks, s, Commit(r)), other)
  {
    assert Backed(asks, s, other) && Backed(asks, s, r);
    if s.phases[other].Holding? && Keyed(asks[other]) {
      assert Holds(asks, s, other, KeyOf(asks[other]));
      var low, high := if r < other then r else other, if r < other then other else r;
      assert !(Holds(asks, s, low, KeyOf(asks[low])) && Holds(asks, s, high, KeyOf(asks[low])));
    }
  }

  lemma StepKeepsApart(asks: seq<Ask>, s: State, step: Step)
    requires Sound(asks, s) && Enabled(asks, s, step)
    ensures Apart(asks, Apply(asks, s, step))
  {
    var s' := Apply(asks, s, step);
    forall q, r | 0 <= q < r < |asks|
      ensures Drawn(s'.phases[q]).None? || Drawn(s'.phases[q]) != Drawn(s'.phases[r])
      ensures !(Holds(asks, s', q, KeyOf(asks[q])) && Holds(asks, s', r, KeyOf(asks[q])))
    {
      assert Backed(asks, s, q) && Backed(asks, s, r);
      assert Holds(asks, s, q, KeyOf(asks[q])) ==> !Holds(asks, s, r, KeyOf(asks[q]));
      var key := KeyOf(asks[step.r]);
      assert step.Insert? && Keyed(asks[step.r]) ==> !Holds(asks, s, q, key) && !Holds(asks, s, r, key);
    }
  }

  lemma StepKeepsGrounded(asks: seq<Ask>, s: State, step: Step)
    requires Sound(asks, s) && Enabled(asks, s, step)
    ensures Grounded(asks, Apply(asks, s, step))
  {
    var s' := Apply(asks, s, step);
    assert Backed(asks, s, step.r);
    forall id | id in s'.messages ensures exists r :: 0 <= r < |asks| && CreatedBy(asks, s', r, id) {
      if id in s.messages {
        var r :| 0 <= r < |asks| && CreatedBy(asks, s, r, id);
        assert CreatedBy(asks, s', r, id);
      } else {
        assert CreatedBy(asks, s', step.r, id);
      }
    }
  }

  // ---- Exactly once ------------------------------------------------------------------

  predicate Succeeds(asks: seq<Ask>, s: State, r: nat, id: nat)
    requires |asks| == |s.phases|
  {
    r < |asks| && (s.phases[r] == Done(Created(id)) || s.phases[r] == Done(Repeat(id)))
  }

  /** Two requests under the same key of the same project. */
  predicate SameKey(asks: seq<Ask>, q: nat, r: nat) {
    q < |asks| && r < |asks| && Keyed(asks[q]) && asks[q].project == asks[r].project && asks[q].key == asks[r].key
  }

  /**
    In every interleaving: under one key, all successes return the same id, they all carry the same
    request, and at most one of them created a message.
  */
  lemma ExactlyOnce(asks: seq<Ask>, run: Run, q: nat, r: nat, id: nat, id': nat)
    requires Valid(asks, run) && SameKey(asks, q, r)
    requires Succeeds(asks, After(asks, run), q, id) && Succeeds(asks, After(asks, run), r, id')
    ensures id == id'
    ensures asks[q].hash == asks[r].hash
    ensures q != r ==> !(CreatedBy(asks, After(asks, run), q, id) && CreatedBy(asks, After(asks, run), r, id'))
  {
    RunsAreSound(asks, run);
    var s := After(asks, run);
    assert Backed(asks, s, q) && Backed(asks, s, r);
    assert KeyOf(asks[q]) == KeyOf(asks[r]);
  }

  /** Committed messages are exactly the non-replayed successes, each of them there once. */
  lemma MessagesAreCreations(asks: seq<Ask>, run: Run, id: nat)
    requires Valid(asks, run)
    ensures var s := After(asks, run);
            && (id in s.messages <==> exists r :: 0 <= r < |asks| && CreatedBy(asks, s, r, id))
            && (forall i, j :: 0 <= i < j < |s.messages| ==> s.messages[i] != s.messages[j])
  {
    RunsAreSound(asks, run);
    forall r | 0 <= r < |asks| && CreatedBy(asks, After(asks, run), r, id) ensures id in After(asks, run).messages {
      assert Backed(asks, After(asks, run), r);
    }
  }

  lemma CreatedOnce(asks: seq<Ask>, run: Run, q: nat, r: nat, id: nat)
    requires Valid(asks, run)
    requires CreatedBy(asks, After(asks, run), q, id) && CreatedBy(asks, After(asks, run), r, id)
    ensures q == r
  {
    RunsAreSound(asks, run);
    assert Drawn(After(asks, run).phases[q]) == Drawn(After(asks, run).phases[r]) == Some(id);
  }

  /** A replay always repeats an id that was committed under the same key by another request. */
  lemma ReplaysHaveAnOriginal(asks: seq<Ask>, run: Run, r: nat, id: nat)
    requires Valid(asks, run) && r < |asks| && After(asks, run).phases[r] == Done(Repeat(id))
    ensures exists q :: 0 <= q < |asks| && SameKey(asks, q, r) && CreatedBy(asks, After(asks, run), q, id)
  {
    RunsAreSound(asks, run);
    assert Backed(asks, After(asks, run), r);
    KeysHaveAnOwner(asks, run, KeyOf(asks[r]));
    var q :| 0 <= q < |asks| && Owns(asks, After(asks, run), q, KeyOf(asks[r]));
    assert SameKey(asks, q, r) && CreatedBy(asks, After(asks, run), q, id);
  }

  /** Request `q` committed this key. */
  predicate Owns(asks: seq<Ask>, s: State, q: nat, id: KeyId)
    requires |asks| == |s.phases|
  {
    && q < |asks| && id in s.keys && Keyed(asks[q]) && KeyOf(asks[q]) == id && s.keys[id].hash == asks[q].hash
    && s.keys[id].response.Some? && s.phases[q] == Done(Created(s.keys[id].response.value))
  }

  lemma {:induction false} KeysHaveAnOwner(asks: seq<Ask>, run: Run, id: KeyId)
    requires Valid(asks, run) && id in After(asks, run).keys
    ensures exists q :: 0 <= q < |asks| && Owns(asks, After(asks, run), q, id)
  {
    var s, t := After(asks, run.before), After(asks, run);
    RunsAreSound(asks, run.before);
    assert Backed(asks, s, run.step.r);
    if id in s.keys {
      KeysHaveAnOwner(asks, run.before, id);
      var q :| 0 <= q < |asks| && Owns(asks, s, q, id);
      assert Owns(asks, t, q, id);
    } else {
      assert Owns(asks, t, run.step.r, id);
    }
  }

  // ---- Answers other than success ----------------------------------------------------

  /** The stored response is never missing: the lookup itself never finds a key "in progress". */
  lemma {:induction false} LookupNeverFindsProgress(asks: seq<Ask>, run: Run, ask: Ask)
    requires Valid(asks, run)
    ensures Seen(After(asks, run).keys, ask.project, ask.key, ask.hash) != Some(Err(KeyInProgress))
  {
    RunsAreSound(asks, run);
  }

  /**
    "In progress, retry shortly" is only ever said once a winner has committed: the same request
    asked again is answered at once, by a replay if it is the winner's request and by a refusal if not.
  */
  lemma ConflictIsAlreadyDecided(asks: seq<Ask>, run: Run, r: nat)
    requires Valid(asks, run) && r < |asks| && After(asks, run).phases[r] == Done(InProgress)
    ensures exists q :: 0 <= q < |asks| && Won(asks, After(asks, run), q, r)
  {
    RunsAreSound(asks, run);
    var s := After(asks, run);
    assert Backed(asks, s, r);
    KeysHaveAnOwner(asks, run, KeyOf(asks[r]));
    var q :| 0 <= q < |asks| && Owns(asks, s, q, KeyOf(asks[r]));
    assert Won(asks, s, q, r);
  }

  /** Request `q` created the message of the key that `r` asked with; this is what `r` would be told now. */
  predicate Won(asks: seq<Ask>, s: State, q: nat, r: nat)
    requires |asks| == |s.phases|
  {
    && SameKey(asks, q, r) && s.phases[q].Done? && s.phases[q].answer.Created?
    && AfterLook(asks[r], s.keys)
       == Done(if asks[q].hash == asks[r].hash then Repeat(s.phases[q].answer.id) else Reused)
  }

  /** Nobody deadlocks: an unfinished request can go on, or waits for one that can commit. */
  lemma NobodyIsStuck(asks: seq<Ask>, run: Run, r: nat)
    requires Valid(asks, run) && r < |asks| && !After(asks, run).phases[r].Done?
    ensures exists step :: Enabled(asks, After(asks, run), step) && !step.Abort?
                           && (step.r == r || (step.Commit? && SameKey(asks, step.r, r)))
  {
    var s := After(asks, run);
    match s.phases[r]
    case Waiting => assert Enabled(asks, s, Look(r));
    case Holding(_) => assert Enabled(asks, s, Commit(r));
    case Missed =>
      if Blocked(asks, s, r) {
        var o :| 0 <= o < |asks| && Holds(asks, s, o, KeyOf(asks[r]));
        assert Enabled(asks, s, Commit(o)) && SameKey(asks, o, r);
      } else if Taken(asks, s, r) {
        assert Enabled(asks, s, Clash(r));
      } else {
        var id := Unused(s.issued);
        assert Enabled(asks, s, Insert(r, id));
      }
  }

  lemma Unused(ids: set<nat>) returns (id: nat)
    ensures id !in ids
  {
    id := 0;
    var rest := ids;
    while rest != {}
      invariant rest <= ids
      invariant forall i :: i in ids && i !in rest ==> i < id
    {
      var i :| i in rest;
      rest := rest - {i};
      id := if id <= i then i + 1 else id;
    }
  }
}
