/**
  A secret that generates itself on first boot (`emaild/secretstore.py`): any number of processes
  check, create exclusively, write and read one file, and may die at any point.
*/
module SecretStore {
  import opened Prelude
  import opened Text

  /** The secret's file. Creating it and writing it are separate steps. */
  datatype File = Absent | Holds(content: string)

  /** What text mode makes of line ends when it reads. Writing leaves them alone on the platforms of the image. */
  function Newlines(s: string): string {
    if s == "" then ""
    else if s[0] != '\r' then [s[0]] + Newlines(s[1..])
    else "\n" + Newlines(if |s| > 1 && s[1] == '\n' then s[2..] else s[1..])
  }

  /** The secret a reader finds in this content. */
  function Secret(content: string): string {
    Strip(Newlines(content))
  }

  /** `_read_if_present`: None for no file, an error for a blank one. */
  function ReadIfPresent(file: File): Result<Option<string>, ()> {
    match file
    case Absent => Ok(None)
    case Holds(content) => if Secret(content) == "" then Err(()) else Ok(Some(Secret(content)))
  }

  // ---- One process -------------------------------------------------------------------

  datatype Phase =
    | Fresh
    | FoundNothing
    | Opened
    | LostRace
    | Returned(value: string)
    | Stopped

  datatype Step =
    | Look(p: nat)
    | Create(p: nat)
    | Write(p: nat)
    | Tear(p: nat, length: nat)
    | LookAgain(p: nat)
    | Die(p: nat)

  /** `procs[i]` is one call of `read_or_create`, whose factory would make `values[i]`. */
  datatype State = State(file: File, procs: seq<Phase>)

  /** What a process that read the file does next. */
  function Reading(file: File): Phase {
    match ReadIfPresent(file)
    case Err(_) => Stopped
    case Ok(None) => FoundNothing
    case Ok(Some(value)) => Returned(value)
  }

  predicate Enabled(s: State, step: Step) {
    && step.p < |s.procs|
    && match step
       case Look(p) => s.procs[p].Fresh?
       case Create(p) => s.procs[p].FoundNothing?
       case Write(p) => s.procs[p].Opened?
       case Tear(p, _) => s.procs[p].Opened?
       case LookAgain(p) => s.procs[p].LostRace?
       case Die(p) => !s.procs[p].Returned?
  }

  function Apply(values: seq<string>, s: State, step: Step): State
    requires Enabled(s, step) && |values| == |s.procs|
  {
    match step
    case Look(p) => s.(procs := s.procs[p := Reading(s.file)])
    case Create(p) =>
      // O_CREAT | O_EXCL: succeeds only if there is no file at all.
      if s.file.Absent? then State(Holds(""), s.procs[p := Opened]) else s.(procs := s.procs[p := LostRace])
    case Write(p) => State(Holds(values[p]), s.procs[p := Returned(values[p])])
    case Tear(p, length) =>
      State(Holds(if length <= |values[p]| then values[p][..length] else values[p]), s.procs[p := Stopped])
    case LookAgain(p) =>
      s.(procs := s.procs[p := if Reading(s.file).FoundNothing? then Stopped else Reading(s.file)])
    case Die(p) => s.(procs := s.procs[p := Stopped])
  }

  datatype Run = Start | Then(before: Run, step: Step)

  predicate Valid(values: seq<string>, run: Run)
    decreases run, 0
  {
    run.Then? ==> Valid(values, run.before) && Enabled(After(values, run.before), run.step)
  }

  function After(values: seq<string>, run: Run): (s: State)
    requires Valid(values, run)
    ensures |s.procs| == |values|
    decreases run, 1
  {
    match run
    case Start => State(Absent, seq(|values|, _ => Fresh))
    case Then(before, step) => Apply(values, After(values, before), step)
  }

  // ---- Agreement ---------------------------------------------------------------------

  /** At most one process ever holds the file open, and whoever returned, returned what the file holds. */
  predicate Inv(s: State) {
    && (forall p, q :: 0 <= p < |s.procs| && 0 <= q < |s.procs| && s.procs[p].Opened? && s.procs[q].Opened? ==> p == q)
    && (forall p :: 0 <= p < |s.procs| && s.procs[p].Opened? ==> s.file == Holds(""))
    && (forall p :: 0 <= p < |s.procs| && s.procs[p].Returned? ==>
          && s.file.Holds?
          && (s.procs[p].value == s.file.content || s.procs[p].value == Secret(s.file.content))
          && forall q :: 0 <= q < |s.procs| ==> !s.procs[q].Opened?)
    && (s.file.Absent? ==> forall p :: 0 <= p < |s.procs| ==> !s.procs[p].LostRace?)
  }

  lemma StepKeepsInv(values: seq<string>, s: State, step: Step)
    requires Inv(s) && Enabled(s, step) && |values| == |s.procs|
    ensures Inv(Apply(values, s, step))
  {
    match step
    case Create(_) => CreateKeepsInv(values, s, step);
    case Write(_) => FillKeepsInv(values, s, step);
    case Tear(_, _) => FillKeepsInv(values, s, step);
    case _ => ReadKeepsInv(values, s, step);
  }

  lemma CreateKeepsInv(values: seq<string>, s: State, step: Step)
    requires Inv(s) && Enabled(s, step) && |values| == |s.procs| && step.Create?
    ensures Inv(Apply(values, s, step))
  {
  }

  /** The one process that has the file open puts something in it and lets go. */
  lemma FillKeepsInv(values: seq<string>, s: State, step: Step)
    requires Inv(s) && Enabled(s, step) && |values| == |s.procs| && (step.Write? || step.Tear?)
    ensures Inv(Apply(values, s, step))
  {
  }

  /** Readers leave the file alone, and refuse it while it is empty. */
  lemma ReadKeepsInv(values: seq<string>, s: State, step: Step)
    requires Inv(s) && Enabled(s, step) && |values| == |s.procs|
    requires step.Look? || step.LookAgain? || step.Die?
    ensures Inv(Apply(values, s, step))
  {
  }

  lemma {:induction false} RunsKeepInv(values: seq<string>, run: Run)
    requires Valid(values, run)
    ensures Inv(After(values, run))
  {
    if run.Then? {
      RunsKeepInv(values, run.before);
      StepKeepsInv(values, After(values, run.before), run.step);
    }
  }

  /** A process returns the secret it read in the file, or is the creator and returns all of its own value. */
  lemma {:induction false} ReturnedValues(values: seq<string>, run: Run, p: nat)
    requires Valid(values, run) && p < |values| && After(values, run).procs[p].Returned?
    ensures var s := After(values, run);
            s.file.Holds? && ((s.procs[p].value == Secret(s.file.content) && s.procs[p].value != "")
                              || (s.procs[p].value == s.file.content == values[p]))
  {
    match run
    case Start =>
    case Then(before, step) =>
      RunsKeepInv(values, before);
      if After(values, before).procs[p].Returned? {
        ReturnedValues(values, before, p);
      }
  }

  /** Call `p` of this run succeeded with this secret. */
  predicate Succeeds(values: seq<string>, run: Run, p: nat, value: string) {
    Valid(values, run) && p < |values| && After(values, run).procs[p] == Returned(value)
  }

  /** Whatever the interleaving and whoever dies, successful calls return one secret. */
  ghost predicate AlwaysAgree(values: seq<string>) {
    forall run, p, q, a, b :: Succeeds(values, run, p, a) && Succeeds(values, run, q, b) ==> a == b
  }

  // ---- Which secrets survive being read ----------------------------------------------

  /** No blanks at its ends and no carriage return inside, or nothing but blanks. */
  predicate Harmless(value: string) {
    (Trimmed(value) && '\r' !in value) || Blank(value)
  }

  lemma {:induction false} NewlinesLeaveNoReturn(s: string)
    ensures '\r' !in Newlines(s)
    ensures '\r' !in s ==> Newlines(s) == s
    ensures Blank(Newlines(s)) <==> Blank(s)
    decreases |s|
  {
    if s != "" {
      var rest := if s[0] == '\r' && |s| > 1 && s[1] == '\n' then s[2..] else s[1..];
      var first := if s[0] == '\r' then '\n' else s[0];
      var head := s[..|s| - |rest|];
      NewlinesLeaveNoReturn(rest);
      assert Newlines(s) == [first] + Newlines(rest) && s == head + rest;
      assert IsSpace('\r') && IsSpace('\n');
      if s[0] == '\r' {
        assert Blank([first]) && Blank(head);
      } else {
        assert head == [first];
      }
      BlankSplits([first], Newlines(rest));
      BlankSplits(head, rest);
      if '\r' !in s {
        assert '\r' !in rest;
      }
    }
  }

  /** Reading gives a secret back, or refuses it, exactly if it is harmless. */
  lemma HarmlessIff(value: string)
    ensures Harmless(value) <==> Secret(value) == value || Secret(value) == ""
  {
    var text := Newlines(value);
    NewlinesLeaveNoReturn(value);
    StripLeftSuffix(text);
    StripRightPrefix(StripLeft(text));
    StripIsTrimmed(text);
    if Trimmed(value) && '\r' !in value {
      TrimmedIsStripped(value);
    }
    if Secret(value) == "" && StripLeft(text) != "" {
      StripLeftStarts(text);
      StripLeftKeeps(text);
    }
    assert Secret(value) == value ==> '\r' !in value;
  }

  /** Stripping on the right leaves the character that stopped the stripping on the left. */
  lemma {:induction false} StripLeftKeeps(s: string)
    requires StripLeft(s) != ""
    ensures Strip(s) != ""
  {
    StripLeftStarts(s);
    RightKeeps(StripLeft(s));
  }

  lemma {:induction false} RightKeeps(s: string)
    requires s != "" && !IsSpace(s[0])
    ensures StripRight(s) != ""
  {
    if IsSpace(s[|s| - 1]) {
      RightKeeps(s[..|s| - 1]);
    }
  }

  lemma SuccessesAgree(values: seq<string>, run: Run, p: nat, q: nat, a: string, b: string)
    requires Succeeds(values, run, p, a) && Succeeds(values, run, q, b)
    requires forall i :: 0 <= i < |values| ==> Harmless(values[i])
    ensures a == b
  {
    ReturnedValues(values, run, p);
    ReturnedValues(values, run, q);
    HarmlessIff(values[p]);
    HarmlessIff(values[q]);
  }

  /**
    The creator returns its raw value, readers what text mode and stripping make of it. So with two calls
    or more, they agree in every run if and only if no factory makes a secret that has a blank at an end
    or a carriage return anywhere, other than one of blanks alone, which every reader refuses.
  */
  lemma AgreementIff(values: seq<string>)
    requires |values| >= 2
    ensures AlwaysAgree(values) <==> forall i :: 0 <= i < |values| ==> Harmless(values[i])
  {
    if forall i :: 0 <= i < |values| ==> Harmless(values[i]) {
      forall run, p, q, a, b | Succeeds(values, run, p, a) && Succeeds(values, run, q, b) ensures a == b {
        SuccessesAgree(values, run, p, q, a, b);
      }
    } else {
      var i :| 0 <= i < |values| && !Harmless(values[i]);
      var j := if i == 0 then 1 else 0;
      HarmfulSecretsDisagree(values, i, j);
    }
  }

  /** No process dies while it writes. */
  predicate Untorn(run: Run) {
    run.Then? ==> !run.step.Tear? && Untorn(run.before)
  }

  /** The file holds what this factory made, or as much of it as a dying creator had written. */
  predicate Wrote(values: seq<string>, run: Run, content: string, i: nat) {
    i < |values| && content <= values[i] && (Untorn(run) ==> content == values[i])
  }

  /** A returned secret is the creator's own, or what is read of one that a factory made. */
  predicate Source(values: seq<string>, run: Run, value: string, i: nat) {
    i < |values| && (value == values[i] || exists n :: 0 <= n <= |values[i]| && value == Secret(values[i][..n])
                                                       && (Untorn(run) ==> n == |values[i]|))
  }

  lemma {:induction false} CreatorsContent(values: seq<string>, run: Run)
    requires Valid(values, run)
    ensures var s := After(values, run);
            s.file.Holds? ==> s.file.content == "" || exists i: nat :: Wrote(values, run, s.file.content, i)
  {
    if run.Then? {
      CreatorsContent(values, run.before);
      var s, s' := After(values, run.before), After(values, run);
      if run.step.Write? || run.step.Tear? {
        RunsKeepInv(values, run.before);
        assert s'.file.content == "" || Wrote(values, run, s'.file.content, run.step.p);
      } else if s.file.Holds? && s.file.content != "" {
        var i: nat :| Wrote(values, run.before, s.file.content, i);
        assert s'.file == s.file && Wrote(values, run, s'.file.content, i);
      }
    }
  }

  /**
    No call ever returns anything but a factory's secret: whole if no creator died while writing it, and
    otherwise perhaps cut short, for a torn file that is not blank passes for a secret.
  */
  lemma SecretsHaveASource(values: seq<string>, run: Run, p: nat, value: string)
    requires Succeeds(values, run, p, value)
    ensures exists i: nat :: Source(values, run, value, i)
  {
    ReturnedValues(values, run, p);
    CreatorsContent(values, run);
    var content := After(values, run).file.content;
    if value == values[p] {
      assert Source(values, run, value, p);
    } else {
      assert content != "";
      var i: nat :| Wrote(values, run, content, i);
      assert content == values[i][..|content|];
      assert Source(values, run, value, i);
    }
  }

  function Disagreement(i: nat, j: nat): Run {
    Then(Then(Then(Then(Start, Look(i)), Create(i)), Write(i)), Look(j))
  }

  /** With any other secret, its creator disagrees with every later reader. */
  lemma HarmfulSecretsDisagree(values: seq<string>, i: nat, j: nat)
    requires i < |values| && j < |values| && i != j && !Harmless(values[i])
    ensures Succeeds(values, Disagreement(i, j), i, values[i])
    ensures Succeeds(values, Disagreement(i, j), j, Secret(values[i]))
    ensures values[i] != Secret(values[i])
  {
    HarmlessIff(values[i]);
    var looked := Then(Start, Look(i));
    var created := Then(looked, Create(i));
    var written := Then(created, Write(i));
    var s0 := After(values, Start);
    assert s0.file == Absent && s0.procs[i] == Fresh && s0.procs[j] == Fresh;
    assert Valid(values, looked);
    var s1 := After(values, looked);
    assert s1 == State(Absent, s0.procs[i := FoundNothing]) && s1.procs[j] == Fresh;
    assert Valid(values, created);
    var s2 := After(values, created);
    assert s2 == State(Holds(""), s1.procs[i := Opened]) && s2.procs[j] == Fresh;
    assert Valid(values, written);
    var s3 := After(values, written);
    assert s3 == State(Holds(values[i]), s2.procs[i := Returned(values[i])]) && s3.procs[j] == Fresh;
  }

  // ---- Permanence --------------------------------------------------------------------

  predicate Extends(run: Run, more: Run) {
    more == run || (more.Then? && Extends(run, more.before))
  }

  /** No process is about to write: the creator is done with the file, or dead. */
  predicate Closed(s: State) {
    s.file.Holds? && forall p :: 0 <= p < |s.procs| ==> !s.procs[p].Opened?
  }

  /**
    Once its creator has let go of it the file never changes again. In particular an empty file, left by
    a creator that died, is never replaced: every later call refuses.
  */
  lemma {:induction false} StoredForGood(values: seq<string>, run: Run, more: Run)
    requires Valid(values, more) && Extends(run, more)
    requires Valid(values, run) && Closed(After(values, run))
    ensures Closed(After(values, more)) && After(values, more).file == After(values, run).file
  {
    if more != run {
      StoredForGood(values, run, more.before);
    }
  }

  /** Any secret that some call returned is in a file that nobody will write again. */
  lemma ReturnedMeansClosed(values: seq<string>, run: Run, p: nat)
    requires Valid(values, run) && p < |values| && After(values, run).procs[p].Returned?
    ensures Closed(After(values, run))
  {
    RunsKeepInv(values, run);
  }

  // ---- The call itself ---------------------------------------------------------------

  datatype Refusal = Unreadable | CannotCreate | Vanished

  class Directory {
    var file: File

    /**
      `read_or_create`. `raced` is the file as other processes may have left it between the check and
      the exclusive create, None if nobody interfered; `vanishes` if it is gone again by the second read.
    */
    method ReadOrCreate(value: string, writable: bool, raced: Option<string>, vanishes: bool)
      returns (r: Result<string, Refusal>)
      modifies this
      ensures old(file).Holds? ==>
                && file == old(file)
                && r == (if Secret(old(file).content) == "" then Err(Unreadable) else Ok(Secret(old(file).content)))
      ensures old(file).Absent? && !writable ==> r == Err(CannotCreate) && file == old(file)
      ensures old(file).Absent? && writable && raced.Some? ==>
                if vanishes then file == Absent && r == Err(Vanished)
                else file == Holds(raced.value)
                     && r == if Secret(raced.value) == "" then Err(Unreadable) else Ok(Secret(raced.value))
      ensures old(file).Absent? && writable && raced.None? ==> r == Ok(value) && file == Holds(value)
    {
      var existing := ReadIfPresent(file);
      if existing.Err? {
        return Err(Unreadable);
      }
      if existing.value.Some? {
        return Ok(existing.value.value);
      }
      if !writable {
        return Err(CannotCreate);
      }
      if raced.Some? {
        file := Holds(raced.value);
      }
      if file.Holds? {
        if vanishes {
          file := Absent;
        }
        existing := ReadIfPresent(file);
        if existing.Err? {
          return Err(Unreadable);
        }
        if existing.value.None? {
          return Err(Vanished);
        }
        return Ok(existing.value.value);
      }
      file := Holds("");
      file := Holds(value);
      return Ok(value);
    }
  }
}
