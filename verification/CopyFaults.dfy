/** What a call that fails, or a run that is cut off in the copy, leaves; and the decided outcome of a run. */
module CopyFaults {
  import opened Basics
  import opened ComponentDir
  import opened CopyMachine
  import opened CopyLayout
  import opened CopySafety
  import opened CopyDrive
  import opened CopyOutcome
  import opened CopyRollback
  import opened CopyComponent

  /** A failure of the call of this phase is the end of the run. */
  predicate Decisive(ph: Phase) {
    || ph.Begin? || ph.Remounting? || ph.MakeLink? || ph.MakeTemp? || ph.Copying?
    || ph.MoveAside? || ph.Install? || ph.Switch?
  }

  /** A failure of the call of this phase is passed over, and the new version is in place. */
  predicate PassedOver(ph: Phase) {
    ph.Chmod? || ph.DropPrevious? || ph.KeepPrevious?
  }

  /** What a failing call does: nothing to the directory, and for the run what the code says at each place. */
  lemma FailedCall(d0: Dir, st: State)
    requires Running(d0, st) && st.proc.src.Some?
    ensures var n, ph := Step(st, Fail), st.proc.phase;
      && n.dir == st.dir
      && (Decisive(ph) ==> n.proc.outcome.Failed? && n.proc.undo == st.proc.undo
                           && if st.proc.undo == [] then n.proc.phase.Done? else n.proc.phase.Unwind?)
      && (ph.Inspect? || ph.DropFile? ==> n.proc.phase.Install?)
      && (ph.Chmod? ==> n.proc.phase.DropPrevious?)
      && (ph.DropPrevious? ==> n.proc.phase.KeepPrevious?)
      && (ph.KeepPrevious? ==> n.proc.phase.Switch?)
      && (ph.Unwind? && st.proc.undo != [] ==> n.proc.undo == st.proc.undo[..|st.proc.undo| - 1])
  {
    if st.proc.phase.KeepPrevious? { KeepPreviousFails(st); }
    if st.proc.phase.Copying? { CopyingFails(d0, st); }
  }

  lemma KeepPreviousFails(st: State)
    requires st.proc.phase.KeepPrevious? && st.proc.src.Some?
    ensures Step(st, Fail) == State(st.dir, st.proc.(phase := Switch))
  {
    assert Step(st, Fail) == KeepPreviousStep(st.dir, st.proc, Fail);
  }

  lemma CopyingFails(d0: Dir, st: State)
    requires Running(d0, st) && st.proc.src.Some? && st.proc.phase.Copying?
    ensures Step(st, Fail) == State(st.dir, Return(st.proc, Failed))
  {
    if st.proc.temp in st.dir && st.dir[st.proc.temp].Version? {
      assert Step(st, Fail) == CopyingStep(st.dir, st.proc, st.proc.src.value, Fail);
    }
  }

  lemma {:induction false} OutcomeStays(st: State, es: seq<Event>)
    requires st.proc.phase.Unwind? || st.proc.phase.Done?
    ensures Exec(st, es).proc.outcome == st.proc.outcome
    decreases |es|
  {
    if es != [] { OutcomeStays(Step(st, es[0]), es[1..]); }
  }

  /** If one of the decisive calls fails, the run reports an error, whatever its clean-ups do, and `current` stays. */
  lemma DecisiveFailure(d0: Dir, s: Source, remount: bool, before: seq<Event>, later: seq<Event>)
    requires ProperSource(s) && Decisive(Exec(Start(d0, Some(s), remount), before).proc.phase)
    ensures var e := Exec(Start(d0, Some(s), remount), before + [Fail] + later);
      && ResultOf(e.proc) == (if e.proc.phase.Done? then Returned(false, true) else Crashed)
      && ("current" in e.dir <==> "current" in d0) && ("current" in d0 ==> e.dir["current"] == d0["current"])
  {
    var st0 := Start(d0, Some(s), remount);
    var st1 := Exec(st0, before);
    RunningStart(d0, Some(s), remount);
    RunningExec(d0, st0, before);
    FailedCall(d0, st1);
    Goes(d0, st1, Fail);
    Extend(st0, before, Fail);
    ExecConcat(st0, before + [Fail], later);
    OutcomeStays(Step(st1, Fail), later);
    UnwindStays(Step(st1, Fail), later);
    RunningExec(d0, Step(st1, Fail), later);
    NotSwitched(d0, s, Exec(Step(st1, Fail), later));
  }

  lemma NotSwitched(d0: Dir, s: Source, st: State)
    requires ProperSource(s) && st.proc.src == Some(s) && Running(d0, st) && st.proc.outcome.Failed?
    requires st.proc.phase.Unwind? || st.proc.phase.Done?
    ensures ("current" in st.dir <==> "current" in d0) && ("current" in d0 ==> st.dir["current"] == d0["current"])
  {
    assert !st.proc.pointer.Switched?;
    CurrentBeforeSwitch(d0, s.name, st.proc);
  }

  /** If one of the others fails after the version is in place, the run can still succeed. */
  lemma PassedOverFailure(d0: Dir, s: Source, remount: bool, before: seq<Event>) returns (later: seq<Event>)
    requires ProperSource(s) && PassedOver(Exec(Start(d0, Some(s), remount), before).proc.phase)
    requires "current" in d0 ==> !d0["current"].Version?
    ensures var e := Exec(Start(d0, Some(s), remount), before + [Fail] + later);
      ResultOf(e.proc) == Returned(true, false)
  {
    var st0 := Start(d0, Some(s), remount);
    var st1 := Exec(st0, before);
    RunningStart(d0, Some(s), remount);
    RunningExec(d0, st0, before);
    FailedCall(d0, st1);
    Goes(d0, st1, Fail);
    Extend(st0, before, Fail);
    var st2 := Step(st1, Fail);
    var on := ToSwitch(d0, st2);
    var off := UnwindAll(d0, Exec(st2, on));
    later := on + off;
    ExecConcat(st2, on, off);
    ExecConcat(st0, before + [Fail], later);
  }

  lemma ToSwitch(d0: Dir, st: State) returns (es: seq<Event>)
    requires Running(d0, st) && st.proc.src.Some? && ProperSource(st.proc.src.value)
    requires st.proc.phase.DropPrevious? || st.proc.phase.KeepPrevious? || st.proc.phase.Switch?
    requires "current" in d0 ==> !d0["current"].Version?
    ensures Ends(d0, st, Exec(st, es))
  {
    match st.proc.phase
    case DropPrevious => es := FromDrop(d0, st);
    case KeepPrevious => es := FromKeep(d0, st);
    case Switch => es := FromSwitch(d0, st);
  }

  /** A run that is cut off in the copy can leave any beginning of any file at its temporary name. */
  lemma CutInCopy(d: Dir, s: Source, remount: bool, t: Name, path: string, upTo: nat) returns (es: seq<Event>)
    requires Ready(d, s, t) && path in s.files && s.files[path].Data? && upTo <= |s.files[path].bytes|
    ensures Exec(Start(d, Some(s), remount), es).dir ==
      d["current.tmp" := Link(s.name)][t := Version(0x1C0, map[path := Data(s.files[path].bytes[..upTo])])]
  {
    var st0 := Start(d, Some(s), remount);
    es := DriveToLink(d, s, remount);
    var st1 := Exec(st0, es);
    TempNameOk(d, s.name, t);
    Extend(st0, es, TempName(t));
    var st2 := Step(st1, TempName(t));
    assert st2 == MakeTempStep(st1.dir, st1.proc, s.name, TempName(t));
    var w := Write(path, upTo);
    Extend(st0, es + [TempName(t)], w);
    assert Step(st2, w) == CopyingStep(st2.dir, st2.proc, s, w);
    es := es + [TempName(t)] + [w];
  }

  /** And one that is cut off while it removes that directory again has removed some of what it holds. */
  lemma CutInRemoval(d0: Dir, st: State, path: string)
    requires At(d0, st, Unwind) && st.proc.undo == [RemoveLink, RemoveTemp] && st.proc.staging.Some?
    ensures var t, d := st.proc.temp, Step(st, Trim(path)).dir;
      && t in st.dir && st.dir[t].Version? && t in d && d[t].Version?
      && d[t].files == st.dir[t].files - {path} && d - {t} == st.dir - {t}
  {
    assert st.proc.temp in st.dir && st.dir[st.proc.temp] == st.proc.staging.value;
    assert Step(st, Trim(path)) == UnwindStep(st.dir, st.proc, st.proc.src.value.name, Trim(path));
  }

  /**
   For a destination that is no link: every rolled-back run restores the directory unless a file stands at the
   name of the version and nothing keeps a run from getting there.
   */
  lemma RollbackPlainly(d0: Dir, s: Source, remount: bool)
    requires ProperSource(s) && (s.name in d0 ==> !d0[s.name].Link?)
    ensures (forall es :: RolledBack(Start(d0, Some(s), remount), es) ==>
               Exec(Start(d0, Some(s), remount), es).dir == d0)
      <==> !(s.direct && "current.tmp" !in d0 && TempFree(d0, s.name) && s.name in d0 && d0[s.name].Plain?)
  {
    RollbackExactly(d0, s, remount);
    forall t | Ready(d0, s, t)
      ensures Loses(d0, s.name, t) <==> s.name in d0 && d0[s.name].Plain?
    {
      TempNameOk(d0, s.name, t);
      if s.name in d0 {
        assert Seen(d0, s.name, t).IsDir? <==> d0[s.name].Version?;
        assert Seen(d0, s.name, t).NotDir? <==> d0[s.name].Plain?;
      }
    }
    if s.direct && CURRENT_TMP !in d0 && TempFree(d0, s.name) {
      var t :| TempShape(s.name, t) && t !in d0;
      assert Ready(d0, s, t);
    }
  }

  /** What a run that has not ended, or has, is seen to return. */
  lemma ResultMeans(p: Proc)
    ensures ResultOf(p).Crashed? <==> !p.phase.Done?
    ensures p.phase.Done? ==> (ResultOf(p).copied <==> p.outcome.Copied?) && (ResultOf(p).failed <==> p.outcome.Failed?)
  {}

  /** The runs of a sequence are made one after the other, each where the one before it left the directory. */
  lemma {:induction false} SessionsInOrder(d: Dir, runs: seq<Session>, r: Session)
    ensures Sessions(d, runs + [r]) == Exec(Start(Sessions(d, runs), SourceOf(r.from), r.remount), r.events).dir
    decreases |runs|
  {
    if runs == [] {
      assert ([] + [r])[1..] == [];
    } else {
      assert (runs + [r])[1..] == runs[1..] + [r];
      SessionsInOrder(After(d, runs[0]), runs[1..], r);
    }
  }
}
