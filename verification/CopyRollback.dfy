/** What a run that fails leaves when its deferred calls succeed: when it leaves everything as it was. */
module CopyRollback {
  import opened Basics
  import opened ComponentDir
  import opened CopyMachine
  import opened CopyLayout
  import opened CopySafety
  import opened CopyDrive

  /** Every deferred call that the run makes succeeds. */
  predicate CleanUpsSucceed(st: State, es: seq<Event>)
    decreases |es|
  {
    es != [] ==>
      && (st.proc.phase.Unwind? && st.proc.undo != [] ==>
            es[0].Go? || (es[0].Trim? && st.proc.undo[|st.proc.undo| - 1].RemoveTemp?))
      && CleanUpsSucceed(Step(st, es[0]), es[1..])
  }

  /** Nothing is left behind that no deferred call is still going to remove. */
  predicate Tidy(p: Proc) {
    p.slot.None? ==>
      && (|p.undo| < 3 ==> !p.aside.Moved?)
      && (|p.undo| < 2 ==> p.staging.None?)
      && (|p.undo| < 1 ==> p.pointer.NoPointer?)
  }

  lemma TidyUnwind(d0: Dir, st: State, e: Event)
    requires At(d0, st, Unwind) && Tidy(st.proc) && st.proc.slot.None?
    requires e.Go? || (e.Trim? && st.proc.undo[|st.proc.undo| - 1].RemoveTemp?)
    ensures Tidy(UnwindStep(st.dir, st.proc, st.proc.src.value.name, e).proc)
  {
    var p, n := st.proc, st.proc.src.value.name;
    NamesDiffer(n);
    match p.undo[|p.undo| - 1]
    case RemoveLink =>
      assert CURRENT_TMP in st.dir && st.dir[CURRENT_TMP] == Link(n);
    case RemoveTemp =>
      assert p.temp in st.dir && st.dir[p.temp] == p.staging.value;
    case MoveBack =>
      assert n !in st.dir && Old(n) in st.dir;
  }

  lemma TidyEarly(d0: Dir, st: State, e: Event)
    requires st.proc.src.Some? && RecordOk(d0, st.proc.src.value, st.proc) && PhaseOk(d0, st.proc.src.value, st.proc)
    requires !st.proc.phase.Unwind? && Tidy(st.proc) && st.proc.slot.None? && !st.proc.phase.Install?
    ensures Tidy(Step(st, e).proc)
  {
    match st.proc.phase
    case Copying =>
      if st.proc.temp in st.dir && st.dir[st.proc.temp].Version? {
        assert Tidy(CopyingStep(st.dir, st.proc, st.proc.src.value, e).proc);
      }
    case MoveAside => assert Tidy(MoveAsideStep(st.dir, st.proc, st.proc.src.value.name, e).proc);
    case DropFile => assert Tidy(DropFileStep(st.dir, st.proc, st.proc.src.value.name, e).proc);
    case _ =>
  }

  lemma SlotStays(st: State, e: Event)
    requires st.proc.slot.Some? && !st.proc.phase.Install?
    ensures Step(st, e).proc.slot.Some?
  {
  }

  lemma TidyInstall(d0: Dir, st: State, e: Event)
    requires st.proc.src.Some? && PhaseOk(d0, st.proc.src.value, st.proc) && RecordOk(d0, st.proc.src.value, st.proc)
    requires st.proc.phase.Install? && Tidy(st.proc)
    ensures Tidy(Step(st, e).proc)
  {
    assert Tidy(InstallStep(st.dir, st.proc, st.proc.src.value.name, e).proc);
  }

  lemma TidyStep(d0: Dir, st: State, e: Event)
    requires Running(d0, st) && st.proc.src.Some? && ProperSource(st.proc.src.value)
    requires Tidy(st.proc) && CleanUpsSucceed(st, [e])
    ensures Tidy(Step(st, e).proc)
  {
    if st.proc.slot.Some? {
      assert !st.proc.phase.Install?;
      SlotStays(st, e);
    } else if st.proc.phase.Unwind? {
      TidyUnwind(d0, st, e);
    } else if st.proc.phase.Install? {
      TidyInstall(d0, st, e);
    } else {
      TidyEarly(d0, st, e);
    }
  }

  lemma {:induction false} TidyExec(d0: Dir, st: State, es: seq<Event>)
    requires Running(d0, st) && st.proc.src.Some? && ProperSource(st.proc.src.value)
    requires Tidy(st.proc) && CleanUpsSucceed(st, es)
    ensures Tidy(Exec(st, es).proc)
    decreases |es|
  {
    if es != [] {
      TidyStep(d0, st, es[0]);
      RunningStep(d0, st, es[0]);
      StepSource(st, es[0]);
      TidyExec(d0, Step(st, es[0]), es[1..]);
    }
  }

  /**
   A run that ends before the new version is in place, with its deferred calls succeeding, restores
   the directory if the destination was a version or absent. A destination that was no directory is
   gone, and so is a `<name>.old` that a link to a directory was moved over.
   */
  lemma Rollback(d0: Dir, s: Source, remount: bool, es: seq<Event>)
    requires ProperSource(s)
    requires var st := Start(d0, Some(s), remount);
      CleanUpsSucceed(st, es) && Exec(st, es).proc.phase.Done? && Exec(st, es).proc.slot.None?
    ensures var st := Exec(Start(d0, Some(s), remount), es); var n := s.name;
      && !st.proc.outcome.Copied?
      && (st.proc.aside.Restored? ==> st.dir == d0 - {Old(n)} && (st.dir == d0 <==> Old(n) !in d0))
      && (st.proc.aside.Dropped? ==> st.dir == d0 - {n} && n in d0 && !d0[n].Version?)
      && (st.proc.aside.Untouched? ==> st.dir == d0)
      && !st.proc.aside.Moved?
      && ((n in d0 ==> d0[n].Version?) ==> st.dir == d0)
  {
    var st := Start(d0, Some(s), remount);
    RunningStart(d0, Some(s), remount);
    RunningExec(d0, st, es);
    TidyExec(d0, st, es);
    var e := Exec(st, es);
    if e.proc.aside.Restored? {
      assert Old(s.name) !in d0 ==> d0 - {Old(s.name)} == d0;
    }
  }

  lemma {:induction false} UnwindStays(st: State, es: seq<Event>)
    requires st.proc.phase.Unwind? || st.proc.phase.Done?
    ensures Exec(st, es).proc.phase.Unwind? || Exec(st, es).proc.phase.Done?
    decreases |es|
  {
    if es != [] {
      UnwindStays(Step(st, es[0]), es[1..]);
    }
  }

  lemma {:induction false} CleanUpsBefore(st: State, es: seq<Event>)
    requires !Exec(st, es).proc.phase.Unwind? && !Exec(st, es).proc.phase.Done?
    ensures CleanUpsSucceed(st, es) && !st.proc.phase.Unwind?
    decreases |es|
  {
    if es != [] {
      CleanUpsBefore(Step(st, es[0]), es[1..]);
    }
    if st.proc.phase.Unwind? {
      UnwindStays(st, es);
    }
  }

  lemma {:induction false} CleanUpsConcat(st: State, a: seq<Event>, b: seq<Event>)
    requires CleanUpsSucceed(st, a) && CleanUpsSucceed(Exec(st, a), b)
    ensures CleanUpsSucceed(st, a + b)
    decreases |a|
  {
    if a == [] {
      assert a + b == b;
    } else {
      assert (a + b)[1..] == a[1..] + b;
      CleanUpsConcat(Step(st, a[0]), a[1..], b);
    }
  }

  /** A run rolls back and finishes, with its deferred calls succeeding. */
  predicate RolledBack(st: State, es: seq<Event>) {
    CleanUpsSucceed(st, es) && Exec(st, es).proc.phase.Done? && Exec(st, es).proc.slot.None?
  }

  /** A run that fails to rename its copy into place turns to its deferred calls. */
  lemma FailAtInstall(d0: Dir, st: State)
    requires At(d0, st, Install)
    ensures Step(st, Fail) == State(st.dir, Return(st.proc, Failed)) && At(d0, Step(st, Fail), Unwind)
  {
    assert Step(st, Fail) == InstallStep(st.dir, st.proc, st.proc.src.value.name, Fail);
    InstallKeeps(d0, st, Fail);
  }

  /** From there all deferred calls can succeed. */
  lemma {:induction false} UnwindClean(d0: Dir, st: State) returns (es: seq<Event>)
    requires At(d0, st, Unwind) && st.proc.slot.None?
    ensures RolledBack(st, es)
    ensures !st.proc.aside.Moved? ==> Exec(st, es).proc.aside == st.proc.aside
    ensures |st.proc.undo| == 3 ==> Exec(st, es).proc.aside.Restored?
    decreases |st.proc.undo|
  {
    UnwindGoes(d0, st);
    UnwindSlot(d0, st);
    var next := Step(st, Go);
    if |st.proc.undo| == 1 {
      es := [Go];
      assert CleanUpsSucceed(next, []) && es[1..] == [];
    } else {
      var more := UnwindClean(d0, next);
      es := [Go] + more;
      assert es[1..] == more;
    }
  }

  lemma UnwindSlot(d0: Dir, st: State)
    requires At(d0, st, Unwind) && st.proc.slot.None?
    ensures Step(st, Go).proc.slot.None?
    ensures |st.proc.undo| < 3 ==> Step(st, Go).proc.aside == st.proc.aside
    ensures |st.proc.undo| == 3 ==> Step(st, Go).proc.aside.Restored?
  {
    var p, n := st.proc, st.proc.src.value.name;
    assert Step(st, Go) == UnwindStep(st.dir, p, n, Go);
    assert p.undo[|p.undo| - 1] == STACK[|p.undo| - 1];
    if |p.undo| == 3 { MoveBackRestores(d0, n, p); }
  }

  /** What stands at `n`, or beside it, is lost on the way to the rename into place, and not put back. */
  predicate Loses(d: Dir, n: Name, t: Name) {
    Removable(d, n, t) || (Movable(d, n, t) && Old(n) in d)
  }

  /** Some run loses it although every deferred call succeeds. */
  lemma RollbackLoses(d0: Dir, s: Source, remount: bool, t: Name) returns (es: seq<Event>)
    requires Ready(d0, s, t) && Loses(d0, s.name, t)
    ensures var st := Start(d0, Some(s), remount); RolledBack(st, es) && Exec(st, es).dir != d0
  {
    var st0 := Start(d0, Some(s), remount);
    var pre;
    if Removable(d0, s.name, t) {
      pre := DriveToDropped(d0, s, remount, t);
    } else {
      pre := DriveToInstall(d0, s, remount, t);
    }
    CleanUpsBefore(st0, pre);
    var st1 := Exec(st0, pre);
    FailAtInstall(d0, st1);
    var tail := UnwindClean(d0, Step(st1, Fail));
    assert ([Fail] + tail)[1..] == tail;
    ExecConcat(st0, pre, [Fail] + tail);
    CleanUpsConcat(st0, pre, [Fail] + tail);
    es := pre + ([Fail] + tail);
    Rollback(d0, s, remount, es);
  }

  /** Which directories every rolled-back run restores, whatever stands at the destination. */
  lemma RollbackExactly(d0: Dir, s: Source, remount: bool)
    requires ProperSource(s)
    ensures (forall es :: RolledBack(Start(d0, Some(s), remount), es) ==>
               Exec(Start(d0, Some(s), remount), es).dir == d0)
      <==> !exists t :: Ready(d0, s, t) && Loses(d0, s.name, t)
  {
    var st := Start(d0, Some(s), remount);
    if t :| Ready(d0, s, t) && Loses(d0, s.name, t) {
      var es := RollbackLoses(d0, s, remount, t);
      assert RolledBack(st, es);
    } else {
      forall es | RolledBack(st, es)
        ensures Exec(st, es).dir == d0
      {
        Rollback(d0, s, remount, es);
        RunningStart(d0, Some(s), remount);
        RunningExec(d0, st, es);
        LostMeans(d0, s, Exec(st, es));
      }
    }
  }

  lemma LostMeans(d0: Dir, s: Source, st: State)
    requires ProperSource(s) && st.proc.src == Some(s) && Running(d0, st)
    ensures st.proc.aside.Dropped? ==> Ready(d0, s, st.proc.temp) && Loses(d0, s.name, st.proc.temp)
    ensures st.proc.aside.Restored? && Old(s.name) in d0 ==>
      Ready(d0, s, st.proc.temp) && Loses(d0, s.name, st.proc.temp)
  {}
}
