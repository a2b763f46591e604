/** Runs that get somewhere: to a complete copy, to the point before the switch, to the end. */
module CopyDrive {
  import opened Basics
  import opened ComponentDir
  import opened CopyMachine
  import opened CopyLayout
  import opened CopySafety

  lemma {:induction false} ExecConcat(s: State, a: seq<Event>, b: seq<Event>)
    ensures Exec(s, a + b) == Exec(Exec(s, a), b)
    decreases |a|
  {
    if a == [] {
      assert a + b == b;
    } else {
      assert (a + b)[1..] == a[1..] + b;
      ExecConcat(Step(s, a[0]), a[1..], b);
    }
  }

  predicate MidCopy(st: State, s: Source) {
    && st.proc.phase.Copying? && st.proc.src == Some(s) && s.direct
    && st.proc.temp in st.dir && st.dir[st.proc.temp].Version?
    && forall k :: k in st.dir[st.proc.temp].files ==> k in s.files && st.dir[st.proc.temp].files[k] == s.files[k]
  }

  lemma CopyOne(st: State, s: Source, k: string) returns (w: Event)
    requires MidCopy(st, s) && k in s.files
    ensures MidCopy(Step(st, w), s)
    ensures var d := Step(st, w).dir; var t := st.proc.temp;
      && d == st.dir[t := d[t]] && d[t].files == st.dir[t].files[k := s.files[k]]
    ensures Step(st, w).proc == st.proc.(staging := Step(st, w).proc.staging) && w.Write?
  {
    w := Write(k, match s.files[k] case Data(b) => |b| case _ => 0);
    assert match s.files[k] case Data(b) => b[..|b|] == b case _ => true;
    assert Piece(s.files[k], w.upTo) == s.files[k];
    assert Step(st, w) == CopyingStep(st.dir, st.proc, s, w);
  }

  /** The copy can be finished from any point it has reached without error. */
  lemma FinishCopy(st: State, s: Source) returns (ws: seq<Event>)
    requires MidCopy(st, s)
    ensures var e := Exec(st, ws);
      && MidCopy(e, s) && e.dir[e.proc.temp].files == s.files
      && e.proc == st.proc.(staging := e.proc.staging)
      && e.dir == st.dir[st.proc.temp := e.dir[st.proc.temp]]
    decreases |s.files.Keys - st.dir[st.proc.temp].files.Keys|
  {
    var have := st.dir[st.proc.temp].files;
    var todo := s.files.Keys - have.Keys;
    if todo == {} {
      assert forall k :: k in s.files ==> k !in todo;
      assert have.Keys == s.files.Keys && have == s.files;
      ws := [];
      assert st.dir == st.dir[st.proc.temp := st.dir[st.proc.temp]];
    } else {
      var k :| k in todo;
      var w := CopyOne(st, s, k);
      var next := Step(st, w);
      assert s.files.Keys - next.dir[st.proc.temp].files.Keys == todo - {k};
      var more := FinishCopy(next, s);
      ws := [w] + more;
      assert ws[1..] == more;
    }
  }

  /** One event more. */
  lemma Extend(st: State, es: seq<Event>, e: Event)
    ensures Exec(st, es + [e]) == Step(Exec(st, es), e)
  {
    ExecAppend(st, es, e);
  }

  /** How the first step is passed: past a destination that is up to date only if its stat fails. */
  function Opening(d: Dir, s: Source): Event {
    if StatVersion(d) == Some(s.name) then Blind else Go
  }

  /** Some run gets as far as having made the link. */
  lemma DriveToLink(d: Dir, s: Source, remount: bool) returns (es: seq<Event>)
    requires ProperSource(s) && CURRENT_TMP !in d
    ensures var st0 := Start(d, Some(s), remount); var st := Exec(st0, es);
      && st.dir == d[CURRENT_TMP := Link(s.name)]
      && st.proc == st0.proc.(phase := MakeTemp, undo := [RemoveLink], pointer := Pending)
    ensures es != [] && es[0] == Opening(d, s)
  {
    var st0 := Start(d, Some(s), remount);
    es := [Opening(d, s)];
    Extend(st0, [], Opening(d, s));
    assert [] + [Opening(d, s)] == es;
    if remount {
      Extend(st0, es, Go);
      es := es + [Go];
    }
    var st1 := Exec(st0, es);
    assert st1.proc == st0.proc.(phase := MakeLink) && st1.dir == d;
    Extend(st0, es, Go);
    es := es + [Go];
    assert Step(st1, Go) == MakeLinkStep(d, st1.proc, s.name, Go);
  }

  lemma TempGoes(d: Dir, s: Source, p: Proc, t: Name)
    requires p.phase.MakeTemp? && p.src == Some(s) && s.direct && TempShape(s.name, t) && t !in d
    ensures MidCopy(Step(State(d, p), TempName(t)), s)
  {
    assert Step(State(d, p), TempName(t)) == MakeTempStep(d, p, s.name, TempName(t));
  }

  /** Nothing keeps a run of `s` from copying into the temporary directory `t`. */
  predicate Ready(d: Dir, s: Source, t: Name) {
    ProperSource(s) && s.direct && CURRENT_TMP !in d && TempShape(s.name, t) && t !in d
  }

  /** Some run gets as far as copying. */
  lemma DriveToCopying(d: Dir, s: Source, remount: bool, t: Name) returns (es: seq<Event>)
    requires Ready(d, s, t)
    ensures var st := Exec(Start(d, Some(s), remount), es); MidCopy(st, s) && st.proc.temp == t
    ensures es != [] && es[0] == Opening(d, s)
  {
    var st0 := Start(d, Some(s), remount);
    es := DriveToLink(d, s, remount);
    var st := Exec(st0, es);
    TempNameOk(d, s.name, t);
    TempGoes(st.dir, s, st.proc, t);
    Extend(st0, es, TempName(t));
    es := es + [TempName(t)];
  }

  predicate AtFor(d: Dir, st: State, ph: Phase, s: Source, t: Name) {
    At(d, st, ph) && st.proc.src == Some(s) && st.proc.temp == t
  }

  /** Some run gets as far as a complete copy. */
  lemma DriveToInspect(d: Dir, s: Source, remount: bool, t: Name) returns (es: seq<Event>)
    requires Ready(d, s, t)
    ensures AtFor(d, Exec(Start(d, Some(s), remount), es), Inspect, s, t)
    ensures es != [] && es[0] == Opening(d, s)
  {
    var st0 := Start(d, Some(s), remount);
    es := DriveToCopying(d, s, remount, t);
    var ws := FinishCopy(Exec(st0, es), s);
    ExecConcat(st0, es, ws);
    Extend(st0, es + ws, Go);
    es := es + ws + [Go];
    RunningStart(d, Some(s), remount);
    RunningExec(d, st0, es);
  }

  /** What stands at `n` is found to be a directory, and can be moved aside. */
  predicate Movable(d: Dir, n: Name, t: Name) {
    n in d && Seen(d, n, t).IsDir? && (Old(n) in d ==> CanReplace(d[n], d[Old(n)]))
  }

  /** What stands at `n` is found to be no directory. */
  predicate Removable(d: Dir, n: Name, t: Name) {
    n in d && Seen(d, n, t).NotDir?
  }

  /** Some run gets as far as having moved what is there aside, with the new version not in place. */
  lemma DriveToInstall(d: Dir, s: Source, remount: bool, t: Name) returns (es: seq<Event>)
    requires Ready(d, s, t) && Movable(d, s.name, t)
    ensures var st := Exec(Start(d, Some(s), remount), es);
      AtFor(d, st, Install, s, t) && st.proc.undo == STACK && st.proc.aside.Moved?
    ensures es != [] && es[0] == Opening(d, s)
  {
    var st0 := Start(d, Some(s), remount);
    es := DriveToInspect(d, s, remount, t);
    InspectGoes(d, s, Exec(st0, es), t);
    MoveAsideGoes(d, s, Step(Exec(st0, es), Go), t);
    Extend(st0, es, Go);
    Extend(st0, es + [Go], Go);
    es := es + [Go] + [Go];
  }

  /** Some run gets as far as having removed it. */
  lemma DriveToDropped(d: Dir, s: Source, remount: bool, t: Name) returns (es: seq<Event>)
    requires Ready(d, s, t) && Removable(d, s.name, t)
    ensures var st := Exec(Start(d, Some(s), remount), es);
      AtFor(d, st, Install, s, t) && st.proc.undo == STACK[..2] && st.proc.aside.Dropped?
    ensures es != [] && es[0] == Opening(d, s)
  {
    var st0 := Start(d, Some(s), remount);
    es := DriveToInspect(d, s, remount, t);
    InspectGoes(d, s, Exec(st0, es), t);
    DropFileGoes(d, s, Step(Exec(st0, es), Go), t);
    Extend(st0, es, Go);
    Extend(st0, es + [Go], Go);
    es := es + [Go] + [Go];
  }

  /** The stat of the destination, when it does not fail, decides what comes next. */
  lemma InspectGoes(d: Dir, s: Source, st: State, t: Name)
    requires AtFor(d, st, Inspect, s, t)
    ensures Step(st, Go).dir == st.dir
    ensures Seen(d, s.name, t).IsDir? ==> AtFor(d, Step(st, Go), MoveAside, s, t)
    ensures Seen(d, s.name, t).NotDir? ==> AtFor(d, Step(st, Go), DropFile, s, t)
    ensures s.name !in d ==> AtFor(d, Step(st, Go), Install, s, t)
  {
    InspectSees(d, s, st.proc);
    assert Step(st, Go) == State(st.dir, InspectStep(st.dir, st.proc, s.name, Go));
    InspectKeeps(d, st, Go);
  }

  lemma MoveAsideGoes(d: Dir, s: Source, st: State, t: Name)
    requires AtFor(d, st, MoveAside, s, t) && Movable(d, s.name, t)
    ensures var p := Step(st, Go).proc; p.undo == STACK && p.aside.Moved?
    ensures AtFor(d, Step(st, Go), Install, s, t)
  {
    NamesDiffer(s.name);
    assert s.name in st.dir && st.dir[s.name] == d[s.name];
    assert Old(s.name) in st.dir <==> Old(s.name) in d;
    assert Old(s.name) in d ==> st.dir[Old(s.name)] == d[Old(s.name)];
    assert Rename(st.dir, s.name, Old(s.name)).Some?;
    assert STACK[..2] + [MoveBack] == STACK;
    assert Step(st, Go) == MoveAsideStep(st.dir, st.proc, s.name, Go);
    MoveAsideKeeps(d, st, Go);
  }

  lemma DropFileGoes(d: Dir, s: Source, st: State, t: Name)
    requires AtFor(d, st, DropFile, s, t)
    ensures var p := Step(st, Go).proc; p.undo == STACK[..2] && p.aside.Dropped?
    ensures AtFor(d, Step(st, Go), Install, s, t)
  {
    NamesDiffer(s.name);
    assert s.name in st.dir && st.dir[s.name] == d[s.name];
    assert Step(st, Go) == DropFileStep(st.dir, st.proc, s.name, Go);
    DropFileKeeps(d, st, Go);
  }

  // ---------- To the end ----------

  /** What stands at `n`, if anything, can be cleared away. */
  predicate Clears(d: Dir, n: Name, t: Name) {
    n !in d || Movable(d, n, t) || Removable(d, n, t)
  }

  /** Nothing stands in the way of installing `s`. */
  ghost predicate Installable(d: Dir, s: Source) {
    && (CURRENT in d ==> !d[CURRENT].Version?)
    && exists t :: Ready(d, s, t) && Clears(d, s.name, t)
  }

  /** A version that stands at the name already is in the way unless it can be moved aside. */
  lemma MovableVersion(d: Dir, s: Source, t: Name)
    requires Ready(d, s, t) && s.name in d && d[s.name].Version?
    ensures Clears(d, s.name, t) <==> Old(s.name) !in d
    ensures Movable(d, s.name, t) <==> CanMoveAside(d, s)
  {
    TempNameOk(d, s.name, t);
    assert Seen(d, s.name, t).IsDir?;
  }

  /** Some run gets to the point of renaming its copy into place, with nothing in the way. */
  lemma DriveToPlace(d: Dir, s: Source, remount: bool, t: Name) returns (es: seq<Event>)
    requires Ready(d, s, t) && Clears(d, s.name, t)
    ensures var st := Exec(Start(d, Some(s), remount), es);
      AtFor(d, st, Install, s, t) && s.name !in st.dir
    ensures es != [] && es[0] == Opening(d, s)
  {
    var st0 := Start(d, Some(s), remount);
    if s.name !in d {
      es := DriveToInspect(d, s, remount, t);
      InspectGoes(d, s, Exec(st0, es), t);
      InspectSees(d, s, Exec(st0, es).proc);
      Extend(st0, es, Go);
      es := es + [Go];
    } else {
      if Movable(d, s.name, t) {
        es := DriveToInstall(d, s, remount, t);
      } else {
        es := DriveToDropped(d, s, remount, t);
      }
      Cleared(d, s, Exec(st0, es));
    }
  }

  lemma Cleared(d: Dir, s: Source, st: State)
    requires At(d, st, Install) && st.proc.src == Some(s) && (st.proc.aside.Moved? || st.proc.aside.Dropped?)
    ensures s.name !in st.dir
  {
    NamesDiffer(s.name);
  }

  lemma Goes(d: Dir, st: State, e: Event)
    requires Running(d, st) && st.proc.src.Some? && ProperSource(st.proc.src.value)
    ensures Running(d, Step(st, e)) && Step(st, e).proc.src == st.proc.src
  {
    RunningStep(d, st, e);
    StepSource(st, e);
  }

  lemma InstallGoes(d: Dir, st: State)
    requires At(d, st, Install) && st.proc.src.value.name !in st.dir
    ensures At(d, Step(st, Go), Chmod) && Step(st, Go).proc.src == st.proc.src
    ensures Step(st, Go).proc.undo == st.proc.undo && Step(st, Go).proc.aside == st.proc.aside
  {
    Goes(d, st, Go);
    assert st.proc.temp in st.dir && st.dir[st.proc.temp] == st.proc.staging.value;
    assert Rename(st.dir, st.proc.temp, st.proc.src.value.name).Some?;
    assert Step(st, Go) == InstallStep(st.dir, st.proc, st.proc.src.value.name, Go);
  }

  /** What one step after the installation does to the record. */
  predicate Follows(a: State, b: State) {
    b.proc.src == a.proc.src && b.proc.undo == a.proc.undo && b.proc.aside == a.proc.aside
  }

  lemma ChmodGoes(d: Dir, st: State)
    requires At(d, st, Chmod)
    ensures At(d, Step(st, Go), DropPrevious) && Follows(st, Step(st, Go))
  {
    Goes(d, st, Go);
    assert Step(st, Go) == ChmodStep(st.dir, st.proc, st.proc.src.value, Go);
  }

  lemma DropGoes(d: Dir, st: State)
    requires At(d, st, DropPrevious)
    ensures At(d, Step(st, Go), KeepPrevious) && Follows(st, Step(st, Go))
  {
    Goes(d, st, Go);
    assert Step(st, Go) == DropPreviousStep(st.dir, st.proc, Go);
  }

  lemma KeepGoes(d: Dir, st: State)
    requires At(d, st, KeepPrevious)
    ensures At(d, Step(st, Go), Switch) && Follows(st, Step(st, Go))
  {
    Goes(d, st, Go);
    assert Step(st, Go) == KeepPreviousStep(st.dir, st.proc, Go);
  }

  lemma SwitchGoes(d: Dir, st: State)
    requires At(d, st, Switch) && (CURRENT in d ==> !d[CURRENT].Version?)
    ensures At(d, Step(st, Go), Unwind) && Follows(st, Step(st, Go)) && Step(st, Go).proc.outcome.Copied?
  {
    Goes(d, st, Go);
    NamesDiffer(st.proc.src.value.name);
    CurrentBeforeSwitch(d, st.proc.src.value.name, st.proc);
    assert CURRENT_TMP in st.dir && st.dir[CURRENT_TMP].Link?;
    assert Step(st, Go) == SwitchStep(st.dir, st.proc, Go);
  }

  /** The switch has been made, and the deferred calls are next. */
  predicate Ends(d: Dir, st: State, e: State) {
    At(d, e, Unwind) && Follows(st, e) && e.proc.outcome.Copied?
  }

  lemma GoFirst(st: State, more: seq<Event>) returns (es: seq<Event>)
    ensures Exec(st, es) == Exec(Step(st, Go), more)
  {
    es := [Go] + more;
    assert es[1..] == more;
  }

  // From each phase after the copy to the switch.

  lemma FromSwitch(d: Dir, st: State) returns (es: seq<Event>)
    requires At(d, st, Switch) && (CURRENT in d ==> !d[CURRENT].Version?)
    ensures Ends(d, st, Exec(st, es))
  {
    SwitchGoes(d, st);
    es := GoFirst(st, []);
  }

  lemma FromKeep(d: Dir, st: State) returns (es: seq<Event>)
    requires At(d, st, KeepPrevious) && (CURRENT in d ==> !d[CURRENT].Version?)
    ensures Ends(d, st, Exec(st, es))
  {
    KeepGoes(d, st);
    var more := FromSwitch(d, Step(st, Go));
    es := GoFirst(st, more);
  }

  lemma FromDrop(d: Dir, st: State) returns (es: seq<Event>)
    requires At(d, st, DropPrevious) && (CURRENT in d ==> !d[CURRENT].Version?)
    ensures Ends(d, st, Exec(st, es))
  {
    DropGoes(d, st);
    var more := FromKeep(d, Step(st, Go));
    es := GoFirst(st, more);
  }

  lemma FromChmod(d: Dir, st: State) returns (es: seq<Event>)
    requires At(d, st, Chmod) && (CURRENT in d ==> !d[CURRENT].Version?)
    ensures Ends(d, st, Exec(st, es))
  {
    ChmodGoes(d, st);
    var more := FromDrop(d, Step(st, Go));
    es := GoFirst(st, more);
  }

  lemma FromInstall(d: Dir, st: State) returns (es: seq<Event>)
    requires At(d, st, Install) && (CURRENT in d ==> !d[CURRENT].Version?)
    requires st.proc.src.value.name !in st.dir
    ensures Ends(d, st, Exec(st, es))
  {
    InstallGoes(d, st);
    var more := FromChmod(d, Step(st, Go));
    es := GoFirst(st, more);
  }

  /** One deferred call. */
  lemma UnwindGoes(d: Dir, st: State)
    requires At(d, st, Unwind)
    ensures Running(d, Step(st, Go)) && Popped(st, Step(st, Go))
  {
    assert Step(st, Go) == UnwindStep(st.dir, st.proc, st.proc.src.value.name, Go);
    UnwindKeeps(d, st, Go);
    UnwindPops(st);
  }

  /** One deferred call less to make. */
  predicate Popped(st: State, n: State) {
    var k := |st.proc.undo| - 1;
    && k >= 0 && n.proc.src == st.proc.src && n.proc.outcome == st.proc.outcome
    && n.proc.undo == st.proc.undo[..k] && (if k == 0 then n.proc.phase.Done? else n.proc.phase.Unwind?)
  }

  lemma UnwindPops(st: State)
    requires st.proc.phase.Unwind? && st.proc.undo != []
    ensures st.proc.src.Some? ==> Popped(st, UnwindStep(st.dir, st.proc, st.proc.src.value.name, Go))
  {}

  /** All of them. */
  lemma {:induction false} UnwindAll(d: Dir, st: State) returns (es: seq<Event>)
    requires At(d, st, Unwind)
    ensures Exec(st, es).proc.phase.Done? && Exec(st, es).proc.outcome == st.proc.outcome
    decreases |st.proc.undo|
  {
    UnwindGoes(d, st);
    if |st.proc.undo| == 1 {
      es := [Go];
      assert Exec(st, es) == Exec(Step(st, Go), []);
    } else {
      var more := UnwindAll(d, Step(st, Go));
      es := [Go] + more;
      assert es[1..] == more;
    }
  }

  /** Some run succeeds. */
  lemma DriveToEnd(d: Dir, s: Source, remount: bool) returns (es: seq<Event>)
    requires Installable(d, s)
    ensures var p := Exec(Start(d, Some(s), remount), es).proc; p.phase.Done? && p.outcome.Copied?
    ensures es != [] && es[0] == Opening(d, s)
  {
    var st0 := Start(d, Some(s), remount);
    var t :| Ready(d, s, t) && Clears(d, s.name, t);
    var pre := DriveToPlace(d, s, remount, t);
    var st1 := Exec(st0, pre);
    var five := FromInstall(d, st1);
    ExecConcat(st0, pre, five);
    var st2 := Exec(st1, five);
    var post := UnwindAll(d, st2);
    ExecConcat(st0, pre + five, post);
    es := pre + five + post;
  }
}
