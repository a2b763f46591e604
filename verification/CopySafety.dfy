/** What single runs and sequences of runs of `CopyComponent` guarantee, crashes and failed calls included. */
module CopySafety {
  import opened Basics
  import opened ComponentDir
  import opened CopyMachine
  import opened CopyLayout

  /** `current` is a link to a version directory that the run cannot mistake for one of its own names. */
  predicate Healthy(d: Dir) {
    && CURRENT in d && d[CURRENT].Link?
    && var x := d[CURRENT].target;
       !Reserved(x) && x in d && d[x].Version?
  }

  /** Some name that ioutil.TempDir builds is free. */
  ghost predicate TempFree(d: Dir, n: Name) {
    exists t :: TempShape(n, t) && t !in d
  }

  /** Installing `s` gets as far as moving the version that stands at its name aside. */
  ghost predicate CanMoveAside(d: Dir, s: Source) {
    && s.direct && CURRENT_TMP !in d && TempFree(d, s.name)
    && s.name in d && d[s.name].Version? && Old(s.name) !in d
  }

  /** Installing `s` can move the very version aside that `current` names. */
  ghost predicate Exposed(d: Dir, s: Source) {
    CURRENT in d && d[CURRENT] == Link(s.name) && CanMoveAside(d, s)
  }

  /** The stat of the destination, with which a run begins, does not fail. */
  predicate Sees(es: seq<Event>) {
    es != [] ==> !es[0].Blind?
  }

  /** The contents behind `current` are the old ones, or all of the source's. */
  predicate Intact(d0: Dir, s: Source, d: Dir) {
    Current(d) == Current(d0) || Current(d) == Some(s.files)
  }

  lemma HealthyStat(d: Dir)
    requires Healthy(d)
    ensures StatVersion(d) == Some(d[CURRENT].target)
  {
    var x := d[CURRENT].target;
    assert Stat(d, x, MAX_LINKS - 1).IsDir?;
    assert Stat(d, CURRENT) == Stat(d, x, MAX_LINKS - 1);
  }

  /** A healthy directory, as the source of an upgrade, offers the contents behind its `current`. */
  lemma HealthySource(d: Dir)
    requires Healthy(d)
    ensures SourceOf(d).Some? && SourceOf(d).value.direct && ProperSource(SourceOf(d).value)
    ensures SourceOf(d).value.name == d[CURRENT].target && Current(d) == Some(SourceOf(d).value.files)
    ensures var n := d["current"].target; SourceOf(d) == Some(Source(n, d[n].mode, d[n].files, true))
  {
    HealthyStat(d);
  }

  /** In general a source offers what the two stats find; the copy takes what is itself a directory. */
  lemma SourceMeans(d: Dir, s: Source)
    ensures SourceOf(d) == Some(s) <==>
      && Stat(d, "current").IsDir? && d["current"] == Link(s.name) && Stat(d, s.name) == IsDir(s.mode, s.files)
      && (s.direct <==> s.name in d && d[s.name].Version?)
  {
    assert Stat(d, CURRENT).IsDir? ==> CURRENT in d;
  }

  /** What cannot be moved aside stays where it is. */
  lemma NotMovable(d0: Dir, s: Source, st: State)
    requires st.proc.src == Some(s) && Running(d0, st)
    requires s.name in d0 && d0[s.name].Version? && !CanMoveAside(d0, s)
    ensures st.proc.aside.Untouched?
  {
    assert !st.proc.aside.Untouched? ==> TempFree(d0, s.name);
  }

  /** A run that is not exposed keeps the directory healthy, and what `current` gives at every step. */
  lemma RunningIntact(d0: Dir, s: Source, st: State)
    requires Healthy(d0) && ProperSource(s) && st.proc.src == Some(s) && Running(d0, st)
    requires !Exposed(d0, s)
    ensures Healthy(st.dir)
    ensures Current(st.dir) == if st.proc.pointer.Switched? then Some(s.files) else Current(d0)
  {
    var p, n, x := st.proc, s.name, d0[CURRENT].target;
    NamesDiffer(n);
    if p.pointer.Switched? {
      SwitchedIs(d0, s, st);
    } else {
      CurrentBeforeSwitch(d0, n, p);
      if x == n {
        NotMovable(d0, s, st);
        NamedUntouched(d0, s, st);
      } else {
        OldVersionStays(d0, s, st);
      }
    }
  }

  lemma SwitchedIs(d0: Dir, s: Source, st: State)
    requires ProperSource(s) && st.proc.src == Some(s) && Running(d0, st) && st.proc.pointer.Switched?
    ensures CURRENT in st.dir && st.dir[CURRENT] == Link(s.name)
    ensures s.name in st.dir && st.dir[s.name].Version? && st.dir[s.name].files == s.files
  {
    NamesDiffer(s.name);
  }

  /** What stands at the name of a run that has moved nothing aside stays there, and nothing is installed. */
  lemma NamedUntouched(d0: Dir, s: Source, st: State)
    requires ProperSource(s) && st.proc.src == Some(s) && Running(d0, st) && s.name in d0 && st.proc.aside.Untouched?
    ensures s.name in st.dir && st.dir[s.name] == d0[s.name] && st.proc.slot.None?
  {
    NamesDiffer(s.name);
  }

  /** The version `current` named before the run is not touched by a run that installs another one. */
  lemma OldVersionStays(d0: Dir, s: Source, st: State)
    requires Healthy(d0) && ProperSource(s) && st.proc.src == Some(s) && Running(d0, st)
    requires d0[CURRENT].target != s.name
    ensures d0[CURRENT].target in st.dir && st.dir[d0[CURRENT].target] == d0[d0[CURRENT].target]
  {
    OtherNameStays(d0, s, st, d0[CURRENT].target);
  }

  /** An entry whose name the run does not use stays, and so does a `<name>.old` that is in the way. */
  lemma OtherNameStays(d0: Dir, s: Source, st: State, x: Name)
    requires ProperSource(s) && st.proc.src == Some(s) && Running(d0, st)
    requires x in d0 && !Reserved(x) && x != s.name
    requires x == Old(s.name) ==> d0[x].Version? || st.proc.aside.Untouched?
    ensures x in st.dir && st.dir[x] == d0[x]
  {
    var p, n := st.proc, s.name;
    NamesDiffer(n);
    var d1 := PutAside(d0, n, p.aside);
    assert x in d1 && d1[x] == d0[x];
    var d2 := Versions(d0, n, p);
    assert x in d2 && d2[x] == d0[x];
    var d3 := PutPointer(PutPrevious(d2, p.kept), n, p.pointer);
    assert x in d3 && d3[x] == d0[x];
  }

  /** The stat of the destination fails only where that does no harm. */
  ghost predicate ProperRun(d: Dir, src: Option<Source>, es: seq<Event>) {
    src.Some? ==>
      ProperSource(src.value) && (Sees(es) || !Exposed(d, src.value))
  }

  /**
   Crash safety of one run: after any list of events, cut off anywhere, `current` gives access to
   the complete old version or to the complete new one.
   */
  lemma CrashSafeRun(d0: Dir, src: Option<Source>, remount: bool, es: seq<Event>)
    requires Healthy(d0) && ProperRun(d0, src, es)
    ensures Healthy(Exec(Start(d0, src, remount), es).dir)
    ensures src.None? ==> Exec(Start(d0, src, remount), es).dir == d0
    ensures src.Some? ==>
      var c := Current(Exec(Start(d0, src, remount), es).dir); c == Current(d0) || c == Some(src.value.files)
  {
    var st := Start(d0, src, remount);
    RunningStart(d0, src, remount);
    RunningExec(d0, st, es);
    if src.Some? {
      if !Exposed(d0, src.value) {
        RunningIntact(d0, src.value, Exec(st, es));
      } else if es != [] {
        SkipsExposed(d0, src.value, remount, es);
      }
    }
  }

  /** A run that sees that the destination is up to date changes nothing. */
  lemma SkipsExposed(d0: Dir, s: Source, remount: bool, es: seq<Event>)
    requires Healthy(d0) && d0[CURRENT] == Link(s.name) && Sees(es) && es != []
    ensures Exec(Start(d0, Some(s), remount), es).dir == d0
  {
    HealthyStat(d0);
    assert !es[0].Blind?;
    ExecDone(Step(Start(d0, Some(s), remount), es[0]), es[1..]);
  }

  /** One attempt to upgrade: the directory it copies from, and how its calls turn out until it ends or dies. */
  datatype Session = Session(from: Dir, remount: bool, events: seq<Event>)

  function After(d: Dir, r: Session): Dir {
    Exec(Start(d, SourceOf(r.from), r.remount), r.events).dir
  }

  function Sessions(d: Dir, runs: seq<Session>): Dir
    decreases |runs|
  {
    if runs == [] then d else Sessions(After(d, runs[0]), runs[1..])
  }

  ghost predicate ProperSessions(d: Dir, runs: seq<Session>)
    decreases |runs|
  {
    runs != [] ==> ProperRun(d, SourceOf(runs[0].from), runs[0].events) && ProperSessions(After(d, runs[0]), runs[1..])
  }

  /** `c` is what `current` gave at first, or what some session found at its source. */
  predicate Complete(c: Option<Files>, d: Dir, runs: seq<Session>) {
    c == Current(d)
    || exists i :: 0 <= i < |runs| && SourceOf(runs[i].from).Some? && c == Some(SourceOf(runs[i].from).value.files)
  }

  /** Crash safety over any number of upgrades, each cut off or failing anywhere. */
  lemma {:induction false} CrashSafety(d: Dir, runs: seq<Session>)
    requires Healthy(d) && ProperSessions(d, runs)
    ensures Healthy(Sessions(d, runs)) && Complete(Current(Sessions(d, runs)), d, runs)
    ensures Current(Sessions(d, runs)) != Current(d) ==>
      exists i :: 0 <= i < |runs| && SourceOf(runs[i].from).Some?
        && Current(Sessions(d, runs)) == Some(SourceOf(runs[i].from).value.files)
    decreases |runs|
  {
    if runs != [] {
      var r, rest := runs[0], runs[1..];
      CrashSafeRun(d, SourceOf(r.from), r.remount, r.events);
      var d1 := After(d, r);
      CrashSafety(d1, rest);
      var c := Current(Sessions(d1, rest));
      if c != Current(d1) {
        var i :| 0 <= i < |rest| && SourceOf(rest[i].from).Some? && c == Some(SourceOf(rest[i].from).value.files);
        assert runs[i + 1] == rest[i];
      }
    }
  }

  /** If the stat of the destination never fails, nothing is asked of the runs but sources with proper names. */
  lemma {:induction false} SeeingIsProper(d: Dir, runs: seq<Session>)
    requires forall i :: 0 <= i < |runs| ==>
      Sees(runs[i].events) && (SourceOf(runs[i].from).Some? ==> ProperSource(SourceOf(runs[i].from).value))
    ensures ProperSessions(d, runs)
    decreases |runs|
  {
    if runs != [] {
      SeeingIsProper(After(d, runs[0]), runs[1..]);
    }
  }

  /**
   The same when every source is healthy: what `current` gives is what it gave at first or what some
   source's gave.
   */
  lemma CrashSafetyFromHealthy(d: Dir, runs: seq<Session>)
    requires Healthy(d) && ProperSessions(d, runs) && forall i :: 0 <= i < |runs| ==> Healthy(runs[i].from)
    ensures var c := Current(Sessions(d, runs));
      c.Some? && (c == Current(d) || exists i :: 0 <= i < |runs| && c == Current(runs[i].from))
  {
    CrashSafety(d, runs);
    forall i | 0 <= i < |runs|
      ensures SourceOf(runs[i].from).Some? && Current(runs[i].from) == Some(SourceOf(runs[i].from).value.files)
    {
      HealthySource(runs[i].from);
    }
  }

  /** With healthy sources and a stat that never fails there is no condition left. */
  lemma CrashSafetySeeing(d: Dir, runs: seq<Session>)
    requires Healthy(d) && forall i :: 0 <= i < |runs| ==> Healthy(runs[i].from) && Sees(runs[i].events)
    ensures var c := Current(Sessions(d, runs));
      c.Some? && (c == Current(d) || exists i :: 0 <= i < |runs| && c == Current(runs[i].from))
  {
    forall i | 0 <= i < |runs|
      ensures SourceOf(runs[i].from).Some? && ProperSource(SourceOf(runs[i].from).value)
    {
      HealthySource(runs[i].from);
    }
    SeeingIsProper(d, runs);
    CrashSafetyFromHealthy(d, runs);
  }
}
