/** What a run of `CopyComponent` leaves when nothing goes wrong, entry by entry, and what mode the new version has. */
module CopyClean {
  import opened Basics
  import opened ComponentDir
  import opened CopyMachine
  import opened CopyLayout
  import opened CopySafety
  import opened CopyDrive
  import opened CopyOutcome

  // ---------- The mode of the new version ----------

  predicate Placed(ph: Phase) {
    ph.DropPrevious? || ph.KeepPrevious? || ph.Switch? || ph.Unwind? || ph.Done?
  }

  lemma PlacedStep(st: State, e: Event)
    requires Placed(st.proc.phase)
    ensures Placed(Step(st, e).proc.phase) && Step(st, e).proc.slot == st.proc.slot
  {}

  lemma {:induction false} SlotStaysExec(st: State, es: seq<Event>)
    requires Placed(st.proc.phase)
    ensures Exec(st, es).proc.slot == st.proc.slot
    decreases |es|
  {
    if es != [] {
      PlacedStep(st, es[0]);
      SlotStaysExec(Step(st, es[0]), es[1..]);
    }
  }

  lemma ChmodGoes(d: Dir, st: State)
    requires At(d, st, Chmod)
    ensures Step(st, Go).proc.slot == Some(Version(st.proc.src.value.mode, st.proc.src.value.files))
    ensures Placed(Step(st, Go).proc.phase)
  {
    NamesDiffer(st.proc.src.value.name);
    assert Step(st, Go) == ChmodStep(st.dir, st.proc, st.proc.src.value, Go);
  }

  lemma SlotInDir(d0: Dir, s: Source, st: State)
    requires ProperSource(s) && st.proc.src == Some(s) && Running(d0, st) && st.proc.slot.Some?
    ensures s.name in st.dir && st.dir[s.name] == st.proc.slot.value
  {
    NamesDiffer(s.name);
  }

  /** If the chmod of the new version works, it has the mode of the source's from then on. */
  lemma ChmodSets(d0: Dir, s: Source, remount: bool, before: seq<Event>, later: seq<Event>)
    requires ProperSource(s) && Exec(Start(d0, Some(s), remount), before).proc.phase.Chmod?
    ensures var d := Exec(Start(d0, Some(s), remount), before + [Go] + later).dir;
      s.name in d && d[s.name] == Version(s.mode, s.files)
  {
    var st0 := Start(d0, Some(s), remount);
    var st1 := Exec(st0, before);
    RunningStart(d0, Some(s), remount);
    RunningExec(d0, st0, before);
    ChmodGoes(d0, st1);
    Goes(d0, st1, Go);
    SlotStaysExec(Step(st1, Go), later);
    RunningExec(d0, Step(st1, Go), later);
    Extend(st0, before, Go);
    ExecConcat(st0, before + [Go], later);
    SlotInDir(d0, s, Exec(Step(st1, Go), later));
  }

  predicate Moded(s: Source, p: Proc) {
    && (p.phase.Inspect? || p.phase.MoveAside? || p.phase.DropFile? || p.phase.Install? ==>
          p.staging == Some(Version(s.mode, s.files)))
    && (p.slot.Some? ==> p.slot == Some(Version(s.mode, s.files)))
  }

  lemma ModedStep(d0: Dir, st: State, e: Event)
    requires Running(d0, st) && st.proc.src.Some? && ProperSource(st.proc.src.value)
    requires Moded(st.proc.src.value, st.proc) && !e.Unmoded?
    ensures Moded(st.proc.src.value, Step(st, e).proc)
  {
    if Placed(st.proc.phase) {
      PlacedStep(st, e);
    } else {
      match st.proc.phase
      case Copying => ModedCopying(d0, st, e);
      case Chmod => ModedChmod(d0, st, e);
      case Inspect => ModedInspect(st, e);
      case MoveAside => ModedMoveAside(st, e);
      case DropFile => ModedDropFile(st, e);
      case Install => ModedInstall(st, e);
      case _ => ModedEarly(d0, st, e);
    }
  }

  lemma ModedEarly(d0: Dir, st: State, e: Event)
    requires Running(d0, st) && st.proc.src.Some?
    requires st.proc.phase.Begin? || st.proc.phase.Remounting? || st.proc.phase.MakeLink? || st.proc.phase.MakeTemp?
    ensures Moded(st.proc.src.value, Step(st, e).proc)
  {}

  lemma ModedInspect(st: State, e: Event)
    requires st.proc.phase.Inspect? && st.proc.src.Some? && Moded(st.proc.src.value, st.proc)
    ensures Moded(st.proc.src.value, Step(st, e).proc)
  {
    assert Step(st, e) == State(st.dir, InspectStep(st.dir, st.proc, st.proc.src.value.name, e));
  }

  lemma ModedMoveAside(st: State, e: Event)
    requires st.proc.phase.MoveAside? && st.proc.src.Some? && Moded(st.proc.src.value, st.proc)
    ensures Moded(st.proc.src.value, Step(st, e).proc)
  {
    assert Step(st, e) == MoveAsideStep(st.dir, st.proc, st.proc.src.value.name, e);
  }

  lemma ModedDropFile(st: State, e: Event)
    requires st.proc.phase.DropFile? && st.proc.src.Some? && Moded(st.proc.src.value, st.proc)
    ensures Moded(st.proc.src.value, Step(st, e).proc)
  {
    assert Step(st, e) == DropFileStep(st.dir, st.proc, st.proc.src.value.name, e);
  }

  lemma ModedInstall(st: State, e: Event)
    requires st.proc.phase.Install? && st.proc.src.Some? && Moded(st.proc.src.value, st.proc)
    ensures Moded(st.proc.src.value, Step(st, e).proc)
  {
    assert Step(st, e) == InstallStep(st.dir, st.proc, st.proc.src.value.name, e);
  }

  lemma ModedCopying(d0: Dir, st: State, e: Event)
    requires At(d0, st, Copying) && Moded(st.proc.src.value, st.proc) && !e.Unmoded?
    ensures Moded(st.proc.src.value, Step(st, e).proc)
  {
    CopyingKeeps(d0, st, e);
    assert Moded(st.proc.src.value, CopyingStep(st.dir, st.proc, st.proc.src.value, e).proc);
  }

  lemma ModedChmod(d0: Dir, st: State, e: Event)
    requires At(d0, st, Chmod) && Moded(st.proc.src.value, st.proc)
    ensures Moded(st.proc.src.value, Step(st, e).proc)
  {
    SlotInDir(d0, st.proc.src.value, st);
    assert Moded(st.proc.src.value, ChmodStep(st.dir, st.proc, st.proc.src.value, e).proc);
  }

  lemma {:induction false} ModedExec(d0: Dir, st: State, es: seq<Event>)
    requires Running(d0, st) && st.proc.src.Some? && ProperSource(st.proc.src.value)
    requires Moded(st.proc.src.value, st.proc) && Unmoded !in es
    ensures Moded(st.proc.src.value, Exec(st, es).proc)
    decreases |es|
  {
    if es != [] {
      ModedStep(d0, st, es[0]);
      Goes(d0, st, es[0]);
      assert forall e :: e in es[1..] ==> e in es;
      ModedExec(d0, Step(st, es[0]), es[1..]);
    }
  }

  /**
   A successful run leaves the new version with the contents and the mode of the source's; only if the copy
   could not set the mode may it still have that of the temporary directory, and not if the chmod works.
   */
  lemma ModeOfCurrent(d0: Dir, s: Source, remount: bool, es: seq<Event>)
    requires ProperSource(s) && Succeeds(Exec(Start(d0, Some(s), remount), es))
    ensures var d := Exec(Start(d0, Some(s), remount), es).dir;
      && "current" in d && d["current"] == Link(s.name) && s.name in d
      && (d[s.name] == Version(s.mode, s.files) || d[s.name] == Version(0x1C0, s.files))
      && (Unmoded !in es ==> d[s.name] == Version(s.mode, s.files))
  {
    var st0 := Start(d0, Some(s), remount);
    var st := Exec(st0, es);
    RunningStart(d0, Some(s), remount);
    RunningExec(d0, st0, es);
    SwitchedIs(d0, s, st);
    SlotInDir(d0, s, st);
    if Unmoded !in es { ModedExec(d0, st0, es); }
  }

  // ---------- Runs in which every call works ----------

  /** The call of this step works: it is made where the directory allows it. */
  predicate Works(st: State, e: Event) {
    match st.proc.phase
    case MakeTemp => st.proc.src.Some? && e.TempName? && TempShape(st.proc.src.value.name, e.name) && e.name !in st.dir
    case Copying => e.Go? || (e.Write? && st.proc.src.Some? && e.path in st.proc.src.value.files)
    case Unwind => e.Go? || e.Trim?
    case _ => e.Go?
  }

  predicate NoneFails(st: State, es: seq<Event>)
    decreases |es|
  {
    es != [] ==> Works(st, es[0]) && NoneFails(Step(st, es[0]), es[1..])
  }

  /** Nothing stands in the way, seen by looking at the directory. */
  predicate Open(d: Dir, s: Source) {
    && s.direct && "current.tmp" !in d && ("current" in d ==> d["current"].Link?)
    && (s.name in d ==> !d[s.name].Link? && (d[s.name].Version? ==> s.name + ".old" !in d))
  }

  function AsideFor(d: Dir, n: Name): Aside {
    if n !in d then Untouched else if d[n].Version? then Moved else Dropped
  }

  predicate Droppable(d: Dir) {
    "previous" in d && (d["previous"].Version? ==> d["previous"].files == map[])
  }

  function DroppedFor(d: Dir): Kept {
    if Droppable(d) then NoPrevious else SamePrevious
  }

  function KeptFor(d: Dir): Kept {
    if CURRENT in d && d[CURRENT].Link? && (PREVIOUS !in d || Droppable(d)) then NewPrevious(d[CURRENT])
    else DroppedFor(d)
  }

  /** How far such a run has got. */
  predicate CleanSo(d0: Dir, s: Source, p: Proc) {
    && Moded(s, p)
    && (p.phase.Install? || p.slot.Some? ==> p.aside == AsideFor(d0, s.name))
    && (p.phase.KeepPrevious? ==> p.kept == DroppedFor(d0))
    && (p.slot.Some? && (p.phase.Switch? || p.phase.Unwind? || p.phase.Done?) ==> p.kept == KeptFor(d0))
    && (p.phase.Unwind? || p.phase.Done? ==> p.outcome.Copied? || (p.outcome.Skipped? && FreshRecord(p)))
  }

  /** Before `previous` is touched it is as it was. */
  lemma PreviousBefore(d0: Dir, n: Name, p: Proc)
    requires !Reserved(n) && p.kept.SamePrevious? && (p.staging.Some? ==> TempOk(d0, n, p.temp))
    ensures PREVIOUS in Layout(d0, n, p) <==> PREVIOUS in d0
    ensures PREVIOUS in d0 ==> Layout(d0, n, p)[PREVIOUS] == d0[PREVIOUS]
  {
    NamesDiffer(n);
    assert PREVIOUS != CURRENT && PREVIOUS != CURRENT_TMP;
  }

  lemma CleanDrop(d0: Dir, st: State)
    requires At(d0, st, DropPrevious) && CleanSo(d0, st.proc.src.value, st.proc)
    ensures CleanSo(d0, st.proc.src.value, Step(st, Go).proc)
  {
    PreviousBefore(d0, st.proc.src.value.name, st.proc);
    assert Step(st, Go) == DropPreviousStep(st.dir, st.proc, Go);
  }

  lemma PreviousDropped(d0: Dir, n: Name, p: Proc)
    requires !Reserved(n) && p.kept == DroppedFor(d0) && p.staging.None?
    ensures PREVIOUS in Layout(d0, n, p) <==> PREVIOUS in d0 && !Droppable(d0)
  {
    NamesDiffer(n);
    assert PREVIOUS != CURRENT && PREVIOUS != CURRENT_TMP;
  }

  lemma CleanKeep(d0: Dir, st: State)
    requires At(d0, st, KeepPrevious) && CleanSo(d0, st.proc.src.value, st.proc) && Open(d0, st.proc.src.value)
    ensures CleanSo(d0, st.proc.src.value, Step(st, Go).proc)
  {
    PreviousDropped(d0, st.proc.src.value.name, st.proc);
    CurrentBeforeSwitch(d0, st.proc.src.value.name, st.proc);
    assert Step(st, Go) == KeepPreviousStep(st.dir, st.proc, Go);
  }

  /** The stat of what is no link. */
  lemma SeenPlainly(d: Dir, n: Name, t: Name)
    requires !Reserved(n) && t != n && n in d && !d[n].Link?
    ensures Seen(d, n, t).IsDir? <==> d[n].Version?
    ensures Seen(d, n, t).NotDir? <==> d[n].Plain?
  {}

  lemma CleanInspect(d0: Dir, st: State)
    requires At(d0, st, Inspect) && CleanSo(d0, st.proc.src.value, st.proc) && Open(d0, st.proc.src.value)
    ensures CleanSo(d0, st.proc.src.value, Step(st, Go).proc)
    ensures var q := Step(st, Go).proc.phase;
      var n := st.proc.src.value.name;
      if n !in d0 then q.Install? else if d0[n].Version? then q.MoveAside? else q.DropFile?
  {
    var s := st.proc.src.value;
    InspectGoes(d0, s, st, st.proc.temp);
    if s.name in d0 { SeenPlainly(d0, s.name, st.proc.temp); }
    InspectSees(d0, s, st.proc);
    assert Step(st, Go) == State(st.dir, InspectStep(st.dir, st.proc, s.name, Go));
  }

  lemma CleanMoveAside(d0: Dir, st: State)
    requires At(d0, st, MoveAside) && CleanSo(d0, st.proc.src.value, st.proc) && Open(d0, st.proc.src.value)
    ensures CleanSo(d0, st.proc.src.value, Step(st, Go).proc)
  {
    var s := st.proc.src.value;
    MovesVersion(d0, s, st.proc.temp);
    MoveAsideGoes(d0, s, st, st.proc.temp);
    ModedMoveAside(st, Go);
  }

  lemma MovesVersion(d0: Dir, s: Source, t: Name)
    requires !Reserved(s.name) && TempOk(d0, s.name, t) && Open(d0, s)
    requires s.name in d0 && Seen(d0, s.name, t).IsDir?
    ensures Movable(d0, s.name, t) && AsideFor(d0, s.name).Moved?
  {
    SeenPlainly(d0, s.name, t);
  }

  lemma CleanDropFile(d0: Dir, st: State)
    requires At(d0, st, DropFile) && CleanSo(d0, st.proc.src.value, st.proc) && Open(d0, st.proc.src.value)
    ensures CleanSo(d0, st.proc.src.value, Step(st, Go).proc)
  {
    DropFileGoes(d0, st.proc.src.value, st, st.proc.temp);
    ModedDropFile(st, Go);
  }

  lemma CleanInstall(d0: Dir, st: State)
    requires At(d0, st, Install) && CleanSo(d0, st.proc.src.value, st.proc)
    ensures CleanSo(d0, st.proc.src.value, Step(st, Go).proc)
  {
    var n := st.proc.src.value.name;
    NamesDiffer(n);
    assert n !in st.dir;
    InstallGoes(d0, st);
    ModedInstall(st, Go);
  }

  lemma CleanSwitch(d0: Dir, st: State)
    requires At(d0, st, Switch) && CleanSo(d0, st.proc.src.value, st.proc) && Open(d0, st.proc.src.value)
    ensures CleanSo(d0, st.proc.src.value, Step(st, Go).proc)
  {
    SwitchGoes(d0, st);
    assert Step(st, Go) == SwitchStep(st.dir, st.proc, Go);
  }

  lemma CleanUnwind(d0: Dir, st: State, e: Event)
    requires At(d0, st, Unwind) && CleanSo(d0, st.proc.src.value, st.proc) && st.proc.slot.Some?
    ensures CleanSo(d0, st.proc.src.value, Step(st, e).proc)
  {
    var p := st.proc;
    assert p.undo[|p.undo| - 1] == STACK[|p.undo| - 1];
    if |p.undo| == 3 { MoveBackIsBarred(d0, st); }
    assert Step(st, e) == UnwindStep(st.dir, p, p.src.value.name, e);
  }

  lemma CleanEarly(d0: Dir, st: State, e: Event)
    requires Running(d0, st) && st.proc.src.Some? && ProperSource(st.proc.src.value) && Open(d0, st.proc.src.value)
    requires CleanSo(d0, st.proc.src.value, st.proc) && Works(st, e)
    requires st.proc.phase.Begin? || st.proc.phase.Remounting? || st.proc.phase.MakeLink? || st.proc.phase.MakeTemp?
    ensures CleanSo(d0, st.proc.src.value, Step(st, e).proc)
  {}

  lemma CleanCopying(d0: Dir, st: State, e: Event)
    requires At(d0, st, Copying) && Open(d0, st.proc.src.value)
    requires CleanSo(d0, st.proc.src.value, st.proc) && Works(st, e)
    ensures CleanSo(d0, st.proc.src.value, Step(st, e).proc)
  {
    CopyingKeeps(d0, st, e);
    ModedCopying(d0, st, e);
    assert Step(st, e) == CopyingStep(st.dir, st.proc, st.proc.src.value, e);
  }

  lemma CleanChmod(d0: Dir, st: State)
    requires At(d0, st, Chmod) && CleanSo(d0, st.proc.src.value, st.proc)
    ensures CleanSo(d0, st.proc.src.value, Step(st, Go).proc)
  {
    ModedChmod(d0, st, Go);
    ChmodGoes(d0, st);
    assert Step(st, Go) == ChmodStep(st.dir, st.proc, st.proc.src.value, Go);
  }

  lemma CleanStep(d0: Dir, st: State, e: Event)
    requires Running(d0, st) && st.proc.src.Some? && ProperSource(st.proc.src.value) && Open(d0, st.proc.src.value)
    requires CleanSo(d0, st.proc.src.value, st.proc) && Works(st, e)
    ensures CleanSo(d0, st.proc.src.value, Step(st, e).proc)
  {
    match st.proc.phase
    case Copying => CleanCopying(d0, st, e);
    case Inspect => CleanInspect(d0, st);
    case MoveAside => CleanMoveAside(d0, st);
    case DropFile => CleanDropFile(d0, st);
    case Install => CleanInstall(d0, st);
    case Chmod => CleanChmod(d0, st);
    case DropPrevious => CleanDrop(d0, st);
    case KeepPrevious => CleanKeep(d0, st);
    case Switch => CleanSwitch(d0, st);
    case Unwind => CleanUnwind(d0, st, e);
    case Done =>
    case _ => CleanEarly(d0, st, e);
  }

  lemma {:induction false} CleanExec(d0: Dir, st: State, es: seq<Event>)
    requires Running(d0, st) && st.proc.src.Some? && ProperSource(st.proc.src.value) && Open(d0, st.proc.src.value)
    requires CleanSo(d0, st.proc.src.value, st.proc) && NoneFails(st, es)
    ensures CleanSo(d0, st.proc.src.value, Exec(st, es).proc)
    decreases |es|
  {
    if es != [] {
      CleanStep(d0, st, es[0]);
      Goes(d0, st, es[0]);
      CleanExec(d0, Step(st, es[0]), es[1..]);
    }
  }

  /**
   The directory after an upgrade to `s`: the version that stood at its name is at `<name>.old`, `previous` is the
   link that was `current` if there was one and `previous` was absent or could be removed, and `current` names `s`.
   */
  function Upgraded(d: Dir, s: Source): Dir {
    var aside := if s.name in d && d[s.name].Version? then d[s.name + ".old" := d[s.name]] else d;
    var placed := aside[s.name := Version(s.mode, s.files)];
    var dropped := if Droppable(d) then placed - {"previous"} else placed;
    var kept :=
      if "current" in d && (Droppable(d) || "previous" !in d) then dropped["previous" := d["current"]] else dropped;
    kept["current" := Link(s.name)]
  }

  /** An upgrade in which every call works, of a directory in which nothing stands in its way, makes just that of it. */
  lemma CleanRun(d0: Dir, s: Source, remount: bool, es: seq<Event>)
    requires ProperSource(s) && Open(d0, s)
    requires NoneFails(Start(d0, Some(s), remount), es) && Exec(Start(d0, Some(s), remount), es).proc.phase.Done?
    ensures var e := Exec(Start(d0, Some(s), remount), es);
      if StatVersion(d0) == Some(s.name) then e.dir == d0 && e.proc.outcome.Skipped?
      else e.dir == Upgraded(d0, s) && e.proc.outcome.Copied?
  {
    var st0 := Start(d0, Some(s), remount);
    var st := Exec(st0, es);
    RunningStart(d0, Some(s), remount);
    RunningExec(d0, st0, es);
    CleanExec(d0, st0, es);
    if StatVersion(d0) == Some(s.name) {
      Converged(d0, Some(s), remount, es);
    }
    if st.proc.outcome.Copied? { CleanLayout(d0, s, st); }
  }

  lemma CleanLayout(d0: Dir, s: Source, st: State)
    requires ProperSource(s) && Open(d0, s) && st.proc.src == Some(s) && Running(d0, st) && CleanSo(d0, s, st.proc)
    requires st.proc.phase.Done? && st.proc.outcome.Copied?
    ensures st.dir == Upgraded(d0, s)
  {
    NamesDiffer(s.name);
    assert st.proc.staging.None?;
  }
}
