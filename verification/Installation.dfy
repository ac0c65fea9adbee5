/**
  The identity of an installation (`emaild/bootstrap.py`): insert if absent, then read again. Each call
  runs in a READ COMMITTED transaction against a table that can hold one row.
*/
module Installation {
  import opened Prelude

  /**
    A call of `ensure_installation`. `Settled` has its answer but has not committed; `mine` tells
    whether the row it reports is its own uncommitted insert.
  */
  datatype Phase =
    | Fresh
    | FoundNothing
    | Inserted
    | Conflicted
    | Settled(id: string, mine: bool)
    | Committed(id: string)
    | RolledBack

  datatype Step =
    | Select(p: nat)
    | Insert(p: nat)
    | Reread(p: nat)
    | Commit(p: nat)
    | Abort(p: nat)

  /** The committed row, and the calls; `candidates[i]` is the id call `i` would mint. */
  datatype State = State(row: Option<string>, calls: seq<Phase>)

  /** An uncommitted insert: others that insert must wait for it. */
  predicate Inserting(call: Phase) {
    call.Inserted? || (call.Settled? && call.mine)
  }

  predicate Enabled(s: State, step: Step) {
    && step.p < |s.calls|
    && match step
       case Select(p) => s.calls[p].Fresh?
       case Insert(p) => s.calls[p].FoundNothing? && forall q :: 0 <= q < |s.calls| ==> !Inserting(s.calls[q])
       case Reread(p) => s.calls[p].Inserted? || (s.calls[p].Conflicted? && s.row.Some?)
       case Commit(p) => s.calls[p].Settled?
       case Abort(p) => !s.calls[p].Committed?
  }

  function Apply(candidates: seq<string>, s: State, step: Step): State
    requires Enabled(s, step) && |candidates| == |s.calls|
  {
    var p := step.p;
    match step
    case Select(_) =>
      s.(calls := s.calls[p := if s.row.Some? then Settled(s.row.value, false) else FoundNothing])
    case Insert(_) =>
      // ON CONFLICT DO NOTHING.
      s.(calls := s.calls[p := if s.row.Some? then Conflicted else Inserted])
    case Reread(_) =>
      s.(calls := s.calls[p :=
            if s.calls[p].Inserted? then Settled(candidates[p], true) else Settled(s.row.value, false)])
    case Commit(_) =>
      State(if s.calls[p].mine then Some(s.calls[p].id) else s.row, s.calls[p := Committed(s.calls[p].id)])
    case Abort(_) => s.(calls := s.calls[p := RolledBack])
  }

  datatype Run = Start | Then(before: Run, step: Step)

  /** Runs from any committed row: a fresh database, or one restored from a backup. */
  predicate Valid(candidates: seq<string>, row: Option<string>, run: Run)
    decreases run, 0
  {
    run.Then? ==> Valid(candidates, row, run.before) && Enabled(After(candidates, row, run.before), run.step)
  }

  function After(candidates: seq<string>, row: Option<string>, run: Run): (s: State)
    requires Valid(candidates, row, run)
    ensures |s.calls| == |candidates|
    decreases run, 1
  {
    match run
    case Start => State(row, seq(|candidates|, _ => Fresh))
    case Then(before, step) => Apply(candidates, After(candidates, row, before), step)
  }

  /** At most one insert is pending, only while there is no row; every settled answer is the row or that insert. */
  predicate Inv(s: State) {
    && (forall p, q :: 0 <= p < |s.calls| && 0 <= q < |s.calls| && Inserting(s.calls[p]) && Inserting(s.calls[q]) ==>
          p == q)
    && (forall p :: 0 <= p < |s.calls| && Inserting(s.calls[p]) ==> s.row.None?)
    && (forall p :: 0 <= p < |s.calls| ==>
          match s.calls[p]
          case Settled(id, mine) => mine || s.row == Some(id)
          case Committed(id) => s.row == Some(id)
          case Conflicted => s.row.Some?
          case _ => true)
  }

  lemma StepKeepsInv(candidates: seq<string>, s: State, step: Step)
    requires Inv(s) && Enabled(s, step) && |candidates| == |s.calls|
    ensures Inv(Apply(candidates, s, step))
    ensures s.row.Some? ==> Apply(candidates, s, step).row == s.row
  {
  }

  lemma {:induction false} RunsKeepInv(candidates: seq<string>, row: Option<string>, run: Run)
    requires Valid(candidates, row, run)
    ensures Inv(After(candidates, row, run))
  {
    if run.Then? {
      RunsKeepInv(candidates, row, run.before);
      StepKeepsInv(candidates, After(candidates, row, run.before), run.step);
    }
  }

  /**
    Every call that committed reported the one identity there is, and an identity that was there before is
    the one kept.
  */
  lemma {:induction false} CommittedCallsAgree(candidates: seq<string>, row: Option<string>, run: Run, p: nat)
    requires Valid(candidates, row, run)
    requires p < |candidates| && After(candidates, row, run).calls[p].Committed?
    ensures After(candidates, row, run).row == Some(After(candidates, row, run).calls[p].id)
    ensures row.Some? ==> After(candidates, row, run).row == row
  {
    RunsKeepInv(candidates, row, run);
    if row.Some? {
      EverythingExtendsStart(run);
      RowIsKept(candidates, row, Start, run);
    }
  }

  lemma {:induction false} EverythingExtendsStart(run: Run)
    ensures Extends(Start, run)
  {
    if run.Then? {
      EverythingExtendsStart(run.before);
    }
  }

  predicate Extends(run: Run, more: Run) {
    more == run || (more.Then? && Extends(run, more.before))
  }

  /** A committed identity is never replaced. */
  lemma {:induction false} RowIsKept(candidates: seq<string>, row: Option<string>, run: Run, more: Run)
    requires Valid(candidates, row, more) && Valid(candidates, row, run)
    requires After(candidates, row, run).row.Some? && Extends(run, more)
    ensures After(candidates, row, more).row == After(candidates, row, run).row
  {
    if more != run {
      RowIsKept(candidates, row, run, more.before);
      RunsKeepInv(candidates, row, more.before);
      StepKeepsInv(candidates, After(candidates, row, more.before), more.step);
    }
  }

  /** A call that has not committed may still be wrong: its insert can be rolled back and another's take the place. */
  lemma UncommittedAnswersMayBeLost(a: string, b: string)
    requires a != b
    ensures var early := Then(Then(Then(Start, Select(0)), Insert(0)), Reread(0));
            var late := Then(Then(Then(Then(Then(early, Abort(0)), Select(1)), Insert(1)), Reread(1)), Commit(1));
            && Valid([a, b], None, late)
            && After([a, b], None, early).calls[0] == Settled(a, true)
            && After([a, b], None, late).row == Some(b)
  {
    var c := [a, b];
    var selected := Then(Start, Select(0));
    assert After(c, None, selected) == State(None, [FoundNothing, Fresh]);
    var inserted := Then(selected, Insert(0));
    assert After(c, None, inserted) == State(None, [Inserted, Fresh]);
    var early := Then(inserted, Reread(0));
    assert After(c, None, early) == State(None, [Settled(a, true), Fresh]);
    var aborted := Then(early, Abort(0));
    assert After(c, None, aborted) == State(None, [RolledBack, Fresh]);
    var selected1 := Then(aborted, Select(1));
    assert After(c, None, selected1) == State(None, [RolledBack, FoundNothing]);
    var inserted1 := Then(selected1, Insert(1));
    assert After(c, None, inserted1) == State(None, [RolledBack, Inserted]);
    var reread1 := Then(inserted1, Reread(1));
    assert After(c, None, reread1) == State(None, [RolledBack, Settled(b, true)]);
  }
}
