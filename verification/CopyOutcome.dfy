/** What a run can achieve: when it succeeds, what success means, and what stands in its way for good. */
module CopyOutcome {
  import opened Basics
  import opened ComponentDir
  import opened CopyMachine
  import opened CopyLayout
  import opened CopySafety
  import opened CopyDrive

  // ---------- A link left over from a run that died ----------

  /** A crash leaves `current.tmp` behind exactly while the run owns it, or if it was there before. */
  lemma CrashLeavesLink(d0: Dir, s: Source, remount: bool, es: seq<Event>)
    requires ProperSource(s)
    ensures var e := Exec(Start(d0, Some(s), remount), es);
      CURRENT_TMP in e.dir <==> e.proc.pointer.Pending? || CURRENT_TMP in d0
  {
    RunningStart(d0, Some(s), remount);
    RunningExec(d0, Start(d0, Some(s), remount), es);
    NamesDiffer(s.name);
  }

  lemma StaleLinkStep(d: Dir, st: State, e: Event)
    requires CURRENT_TMP in d && st.dir == d && st.proc.undo == []
    requires !st.proc.outcome.Copied?
    requires st.proc.phase.Begin? || st.proc.phase.Done?
      || (st.proc.src.Some? && (st.proc.phase.Remounting? || st.proc.phase.MakeLink?))
    ensures var n := Step(st, e);
      n.dir == d && n.proc.undo == [] && !n.proc.outcome.Copied? && n.proc.src == st.proc.src
    ensures var q := Step(st, e).proc.phase;
      if st.proc.phase.Begin? then q.Done? || (st.proc.src.Some? && (q.Remounting? || q.MakeLink?))
      else if st.proc.phase.Remounting? then q.MakeLink? || q.Done? else q.Done?
  {
  }

  lemma {:induction false} StaleLinkExec(d: Dir, st: State, es: seq<Event>)
    requires CURRENT_TMP in d && st.dir == d && st.proc.undo == []
    requires !st.proc.outcome.Copied?
    requires st.proc.phase.Begin? || st.proc.phase.Done?
      || (st.proc.src.Some? && (st.proc.phase.Remounting? || st.proc.phase.MakeLink?))
    ensures Exec(st, es).dir == d && !Exec(st, es).proc.outcome.Copied?
    ensures |es| >= (if st.proc.phase.Begin? then 3 else if st.proc.phase.Remounting? then 2 else 1) ==>
      Exec(st, es).proc.phase.Done?
    decreases |es|
  {
    if es != [] {
      StaleLinkStep(d, st, es[0]);
      StaleLinkExec(d, Step(st, es[0]), es[1..]);
      if Step(st, es[0]).proc.phase.Done? { ExecDone(Step(st, es[0]), es[1..]); }
    }
  }

  /** A run that finds a stale `current.tmp` changes nothing, installs nothing and is over in three calls. */
  lemma StaleLinkRun(d: Dir, src: Option<Source>, remount: bool, es: seq<Event>)
    requires CURRENT_TMP in d
    ensures Exec(Start(d, src, remount), es).dir == d
    ensures !Exec(Start(d, src, remount), es).proc.outcome.Copied?
    ensures |es| >= 3 ==> Exec(Start(d, src, remount), es).proc.phase.Done?
  {
    StaleLinkExec(d, Start(d, src, remount), es);
  }

  /** So once a run has died holding it, no later run ever changes anything again. */
  lemma {:induction false} StaleLinkBlocks(d: Dir, runs: seq<Session>)
    requires CURRENT_TMP in d
    ensures Sessions(d, runs) == d
    decreases |runs|
  {
    if runs != [] {
      StaleLinkRun(d, SourceOf(runs[0].from), runs[0].remount, runs[0].events);
      StaleLinkBlocks(d, runs[1..]);
    }
  }

  /** Every directory that is not blocked yet can be blocked by one crash, early in a run. */
  lemma CrashBlocks(d: Dir, s: Source, remount: bool, runs: seq<Session>) returns (es: seq<Event>)
    requires ProperSource(s) && CURRENT_TMP !in d
    ensures var d1 := Exec(Start(d, Some(s), remount), es).dir;
      CURRENT_TMP in d1 && Current(d1) == Current(d) && Sessions(d1, runs) == d1
  {
    var st0 := Start(d, Some(s), remount);
    es := DriveToLink(d, s, remount);
    assert CURRENT != CURRENT_TMP;
    if CURRENT in d && d[CURRENT].Link? { assert d[CURRENT].target == CURRENT_TMP ==> Current(d).None?; }
    StaleLinkBlocks(Exec(st0, es).dir, runs);
  }

  // ---------- Successful runs ----------

  /** What a run that reports success has made of the directory, whatever calls failed on the way. */
  lemma SuccessfulSwitch(d0: Dir, s: Source, remount: bool, es: seq<Event>)
    requires ProperSource(s)
    requires var p := Exec(Start(d0, Some(s), remount), es).proc; p.phase.Done? && p.outcome.Copied?
    ensures var st := Exec(Start(d0, Some(s), remount), es); var d, n := st.dir, s.name;
      && CURRENT in d && d[CURRENT] == Link(n) && n in d && d[n].Version? && StatVersion(d) == Some(n)
      && d[n].files == s.files && (d[n].mode == s.mode || d[n].mode == TEMP_MODE) && Current(d) == Some(s.files)
      && CURRENT_TMP !in d && CURRENT_TMP !in d0
      && (forall m :: !Reserved(m) && m != n && m != Old(n) ==> (m in d <==> m in d0) && (m in d0 ==> d[m] == d0[m]))
      && (n in d0 && d0[n].Version? ==> Old(n) !in d0 && Old(n) in d && d[Old(n)] == d0[n])
      && (n !in d0 || d0[n].Plain? ==> (Old(n) in d <==> Old(n) in d0) && (Old(n) in d0 ==> d[Old(n)] == d0[Old(n)]))
      && (st.proc.kept.NewPrevious? && CURRENT in d0 && d0[CURRENT].Link? ==>
           PREVIOUS in d && d[PREVIOUS] == d0[CURRENT])
      && (st.proc.kept.SamePrevious? ==>
           (PREVIOUS in d <==> PREVIOUS in d0) && (PREVIOUS in d0 ==> d[PREVIOUS] == d0[PREVIOUS]))
  {
    var st := Exec(Start(d0, Some(s), remount), es);
    RunningStart(d0, Some(s), remount);
    RunningExec(d0, Start(d0, Some(s), remount), es);
    SwitchedIs(d0, s, st);
    SwitchedStat(st.dir, s.name);
    SwitchedLayout(d0, s, st);
  }

  lemma SwitchedStat(d: Dir, n: Name)
    requires CURRENT in d && d[CURRENT] == Link(n) && n in d && d[n].Version?
    ensures StatVersion(d) == Some(n)
  {
    assert Stat(d, n, MAX_LINKS - 1).IsDir?;
    assert Stat(d, CURRENT) == Stat(d, n, MAX_LINKS - 1);
  }

  lemma SwitchedLayout(d0: Dir, s: Source, st: State)
    requires ProperSource(s) && st.proc.src == Some(s) && Running(d0, st) && st.proc.phase.Done?
      && st.proc.pointer.Switched?
    ensures var d, n := st.dir, s.name;
      && CURRENT_TMP !in d && CURRENT_TMP !in d0
      && (forall m :: !Reserved(m) && m != n && m != Old(n) ==> (m in d <==> m in d0) && (m in d0 ==> d[m] == d0[m]))
      && (n in d0 && d0[n].Version? ==> Old(n) !in d0 && Old(n) in d && d[Old(n)] == d0[n])
      && (n !in d0 || d0[n].Plain? ==> (Old(n) in d <==> Old(n) in d0) && (Old(n) in d0 ==> d[Old(n)] == d0[Old(n)]))
      && (st.proc.kept.NewPrevious? && CURRENT in d0 && d0[CURRENT].Link? ==>
           PREVIOUS in d && d[PREVIOUS] == d0[CURRENT])
      && (st.proc.kept.SamePrevious? ==>
           (PREVIOUS in d <==> PREVIOUS in d0) && (PREVIOUS in d0 ==> d[PREVIOUS] == d0[PREVIOUS]))
  {
    NamesDiffer(s.name);
    assert CURRENT_TMP != CURRENT && PREVIOUS != CURRENT_TMP && PREVIOUS != CURRENT;
  }

  /** The version that was current stays as it was; `previous` names it if the link could be copied. */
  lemma PreviousKeepsOldVersion(d0: Dir, s: Source, remount: bool, es: seq<Event>)
    requires Healthy(d0) && ProperSource(s) && d0[CURRENT].target != s.name
    requires var p := Exec(Start(d0, Some(s), remount), es).proc; p.phase.Done? && p.outcome.Copied?
    ensures var st := Exec(Start(d0, Some(s), remount), es); var o := d0[CURRENT].target;
      && o in st.dir && st.dir[o] == d0[o]
      && (st.proc.kept.NewPrevious? ==> PREVIOUS in st.dir && st.dir[PREVIOUS] == Link(o))
  {
    RunningStart(d0, Some(s), remount);
    RunningExec(d0, Start(d0, Some(s), remount), es);
    OldVersionStays(d0, s, Exec(Start(d0, Some(s), remount), es));
    SuccessfulSwitch(d0, s, remount, es);
  }

  predicate Succeeds(st: State) {
    st.proc.phase.Done? && st.proc.outcome.Copied?
  }

  /**
   Which versions some run installs: exactly those that nothing stands in the way of; and which some run
   installs without a failing stat: those of them that are not current already.
   */
  lemma InstallableExactly(d: Dir, s: Source, remount: bool)
    requires ProperSource(s)
    ensures (exists es :: Succeeds(Exec(Start(d, Some(s), remount), es))) <==> Installable(d, s)
    ensures (exists es :: Sees(es) && Succeeds(Exec(Start(d, Some(s), remount), es)))
      <==> Installable(d, s) && StatVersion(d) != Some(s.name)
  {
    if Installable(d, s) {
      var es := DriveToEnd(d, s, remount);
      assert Succeeds(Exec(Start(d, Some(s), remount), es));
      assert StatVersion(d) != Some(s.name) ==> Sees(es);
    }
    if StatVersion(d) == Some(s.name) {
      forall es | Sees(es)
        ensures !Succeeds(Exec(Start(d, Some(s), remount), es))
      {
        Converged(d, Some(s), remount, es);
      }
    }
    if es :| Succeeds(Exec(Start(d, Some(s), remount), es)) {
      var st := Exec(Start(d, Some(s), remount), es);
      RunningStart(d, Some(s), remount);
      RunningExec(d, Start(d, Some(s), remount), es);
      SwitchedInstallable(d, s, st);
    }
  }

  /** The same for a destination that is no link, by what stands there. */
  lemma InstallablePlainly(d: Dir, s: Source, remount: bool)
    requires ProperSource(s) && (s.name in d ==> !d[s.name].Link?)
    ensures (exists es :: Succeeds(Exec(Start(d, Some(s), remount), es))) <==>
      && s.direct && "current.tmp" !in d && ("current" in d ==> !d["current"].Version?) && TempFree(d, s.name)
      && (s.name in d && d[s.name].Version? ==> s.name + ".old" !in d)
  {
    InstallableExactly(d, s, remount);
    forall t | Ready(d, s, t)
      ensures Clears(d, s.name, t) <==> (s.name in d && d[s.name].Version? ==> Old(s.name) !in d)
    {
      TempNameOk(d, s.name, t);
      ClearsPlainly(d, s.name, t);
    }
    if s.direct && CURRENT_TMP !in d && TempFree(d, s.name) {
      var t :| TempShape(s.name, t) && t !in d;
      assert Ready(d, s, t);
    }
  }

  lemma ClearsPlainly(d: Dir, n: Name, t: Name)
    requires !Reserved(n) && TempOk(d, n, t) && (n in d ==> !d[n].Link?)
    ensures Clears(d, n, t) <==> (n in d && d[n].Version? ==> Old(n) !in d)
  {
    if n in d {
      assert Seen(d, n, t).IsDir? <==> d[n].Version?;
      assert Seen(d, n, t).NotDir? <==> d[n].Plain?;
    }
  }

  /** With a remount asked for, nothing is changed before it, and a run in which it fails ends there. */
  lemma RemountComesFirst(d: Dir, s: Source, e: Event, r: Event, es: seq<Event>)
    requires !e.Fail? && (e.Blind? || StatVersion(d) != Some(s.name))
    ensures Exec(Start(d, Some(s), true), [e, r]).dir == d
    ensures !r.Go? ==>
      var f := Exec(Start(d, Some(s), true), [e, r] + es); f.dir == d && f.proc.phase.Done? && f.proc.outcome.Failed?
  {
    var s1 := Step(Start(d, Some(s), true), e);
    assert [e, r][1..] == [r] && [r][1..] == [];
    assert s1.dir == d && s1.proc.phase.Remounting?;
    var s2 := Step(s1, r);
    assert Exec(s1, [r]) == Exec(s2, []) == s2;
    ExecConcat(Start(d, Some(s), true), [e, r], es);
    if !r.Go? { ExecDone(s2, es); }
  }

  /** Without one the link is made at once. */
  lemma NoRemountAsked(d: Dir, s: Source, e: Event)
    requires !e.Fail? && (e.Blind? || StatVersion(d) != Some(s.name)) && CURRENT_TMP !in d
    ensures Exec(Start(d, Some(s), false), [e, Go]).dir == d["current.tmp" := Link(s.name)]
  {
    var s1 := Step(Start(d, Some(s), false), e);
    assert [e, Go][1..] == [Go] && [Go][1..] == [];
    assert Step(s1, Go) == MakeLinkStep(d, s1.proc, s.name, Go);
    assert Exec(s1, [Go]) == Exec(Step(s1, Go), []);
  }

  lemma SwitchedInstallable(d: Dir, s: Source, st: State)
    requires ProperSource(s) && st.proc.src == Some(s) && Running(d, st)
    ensures st.proc.pointer.Switched? ==> Installable(d, s)
  {
    assert st.proc.pointer.Switched? ==> Ready(d, s, st.proc.temp) && Clears(d, s.name, st.proc.temp);
  }

  /** A version with anything at `<name>.old` beside it, as one reinstallation leaves them. */
  predicate Stuck(d: Dir, n: Name) {
    !Reserved(n) && n in d && d[n].Version? && Old(n) in d
  }

  /** It is never installed again, by any run, and stays so. */
  lemma StuckRun(d: Dir, n: Name, s: Source, remount: bool, es: seq<Event>)
    requires Stuck(d, n) && ProperSource(s) && s.name != Old(n)
    ensures var e := Exec(Start(d, Some(s), remount), es);
      && Stuck(e.dir, n) && e.dir[n] == d[n] && e.dir[Old(n)] == d[Old(n)]
      && (s.name == n ==> !e.proc.outcome.Copied?)
  {
    var e := Exec(Start(d, Some(s), remount), es);
    RunningStart(d, Some(s), remount);
    RunningExec(d, Start(d, Some(s), remount), es);
    NamesDiffer(n);
    if s.name == n {
      NotMovable(d, s, e);
      NamedUntouched(d, s, e);
    } else {
      OldNamesDiffer(s.name, n);
      OtherNameStays(d, s, e, n);
    }
    OtherNameStays(d, s, e, Old(n));
  }

  lemma OldNamesDiffer(m: Name, n: Name)
    requires m != n
    ensures Old(m) != Old(n)
  {
    assert Old(m)[..|m|] == m && Old(n)[..|n|] == n;
  }

  /** However many runs follow, from whatever sources that do not use its two names, the version is never replaced. */
  lemma {:induction false} StuckForGood(d: Dir, n: Name, runs: seq<Session>)
    requires Stuck(d, n)
    requires forall i :: 0 <= i < |runs| && SourceOf(runs[i].from).Some? ==>
      var s := SourceOf(runs[i].from).value; ProperSource(s) && s.name != Old(n)
    ensures var e := Sessions(d, runs); Stuck(e, n) && e[n] == d[n] && e[Old(n)] == d[Old(n)]
    decreases |runs|
  {
    if runs != [] {
      var r := runs[0];
      var src := SourceOf(r.from);
      if src.Some? {
        StuckRun(d, n, src.value, r.remount, r.events);
      } else {
        RunningStart(d, src, r.remount);
        RunningExec(d, Start(d, src, r.remount), r.events);
      }
      StuckForGood(After(d, r), n, runs[1..]);
    }
  }

  /** One successful reinstallation of a version leaves it stuck. */
  lemma ReinstallationSticks(d0: Dir, s: Source, remount: bool, es: seq<Event>)
    requires ProperSource(s) && s.name in d0 && d0[s.name].Version?
    requires Succeeds(Exec(Start(d0, Some(s), remount), es))
    ensures Stuck(Exec(Start(d0, Some(s), remount), es).dir, s.name)
  {
    SuccessfulSwitch(d0, s, remount, es);
  }

  // ---------- The stat whose error is dropped ----------

  /** An exposed run that is cut off after the version has been moved aside leaves `current` dangling. */
  lemma ExposedDangles(d: Dir, s: Source, remount: bool) returns (es: seq<Event>)
    requires Healthy(d) && ProperSource(s) && Exposed(d, s)
    ensures Current(Exec(Start(d, Some(s), remount), es).dir).None?
  {
    var t :| TempShape(s.name, t) && t !in d;
    MovableVersion(d, s, t);
    es := DriveToInstall(d, s, remount, t);
    var st := Exec(Start(d, Some(s), remount), es);
    Cleared(d, s, st);
    CurrentBeforeSwitch(d, s.name, st.proc);
  }

  /** With a stat of the destination that may fail, which runs are crash safe. */
  lemma BlindCrashSafetyExactly(d: Dir, s: Source, remount: bool)
    requires Healthy(d) && ProperSource(s)
    ensures (forall es :: Intact(d, s, Exec(Start(d, Some(s), remount), es).dir)) <==> !Exposed(d, s)
  {
    if Exposed(d, s) {
      var es := ExposedDangles(d, s, remount);
      assert !Intact(d, s, Exec(Start(d, Some(s), remount), es).dir);
    } else {
      forall es
        ensures Intact(d, s, Exec(Start(d, Some(s), remount), es).dir)
      {
        CrashSafeRun(d, Some(s), remount, es);
      }
    }
  }

  // ---------- Runs that have nothing to do ----------

  /** Once the destination's current version is the source's, later runs leave everything alone. */
  lemma Converged(d: Dir, src: Option<Source>, remount: bool, es: seq<Event>)
    requires src.Some? ==> StatVersion(d) == Some(src.value.name)
    requires Sees(es)
    ensures Exec(Start(d, src, remount), es).dir == d
    ensures !Exec(Start(d, src, remount), es).proc.outcome.Copied?
    ensures es != [] ==> Exec(Start(d, src, remount), es).proc.phase.Done?
    ensures es != [] ==>
      Exec(Start(d, src, remount), es).proc.outcome == if src.None? || es[0].Fail? then Failed else Skipped
  {
    if es != [] {
      var s1 := Step(Start(d, src, remount), es[0]);
      assert s1.proc.phase.Done?;
      ExecDone(s1, es[1..]);
    }
  }

  /** Even if that stat may fail, exactly when the version cannot be moved aside and installed again. */
  lemma ConvergedExactly(d: Dir, s: Source, remount: bool)
    requires Healthy(d) && ProperSource(s) && d[CURRENT] == Link(s.name)
    ensures (forall es :: var e := Exec(Start(d, Some(s), remount), es); Current(e.dir) == Current(d) && !Succeeds(e))
      <==> !Exposed(d, s)
  {
    InstallableExactly(d, s, remount);
    Reinstallable(d, s);
    if !Exposed(d, s) {
      forall es
        ensures Current(Exec(Start(d, Some(s), remount), es).dir) == Current(d)
      {
        RunningStart(d, Some(s), remount);
        RunningExec(d, Start(d, Some(s), remount), es);
        UninstallableStays(d, s, Exec(Start(d, Some(s), remount), es));
      }
    }
  }

  /** The version `current` names can be installed again exactly if it can be moved aside. */
  lemma Reinstallable(d: Dir, s: Source)
    requires Healthy(d) && ProperSource(s) && d[CURRENT] == Link(s.name)
    ensures Installable(d, s) <==> CanMoveAside(d, s)
  {
    forall t | Ready(d, s, t)
      ensures Clears(d, s.name, t) <==> CanMoveAside(d, s)
    {
      MovableVersion(d, s, t);
    }
    if CanMoveAside(d, s) {
      var t :| TempShape(s.name, t) && t !in d;
      assert Ready(d, s, t);
    }
  }

  lemma UninstallableStays(d: Dir, s: Source, st: State)
    requires Healthy(d) && ProperSource(s) && d[CURRENT] == Link(s.name) && !Exposed(d, s)
    requires st.proc.src == Some(s) && Running(d, st)
    ensures Current(st.dir) == Current(d)
  {
    NotMovable(d, s, st);
    NamedUntouched(d, s, st);
    CurrentBeforeSwitch(d, s.name, st.proc);
  }
}
