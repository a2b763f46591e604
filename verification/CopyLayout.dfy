/**
 The directory is at every step of a run a function of the directory the run started from
 and of what the run has achieved so far. Everything proved about single runs follows from this.
 */
module CopyLayout {
  import opened Basics
  import opened ComponentDir
  import opened CopyMachine

  /** A source version does not have one of the names that the code uses itself. */
  predicate ProperSource(s: Source) {
    !Reserved(s.name)
  }

  function PutAside(d: Dir, n: Name, a: Aside): Dir {
    match a
    case Untouched => d
    case Moved => if n in d then (d - {n})[Old(n) := d[n]] else d
    case Dropped => d - {n}
    case Restored => d - {Old(n)}
  }

  function PutSlot(d: Dir, n: Name, slot: Option<Entry>): Dir {
    if slot.Some? then d[n := slot.value] else d
  }

  function PutPrevious(d: Dir, k: Kept): Dir {
    match k
    case SamePrevious => d
    case NoPrevious => d - {PREVIOUS}
    case NewPrevious(e) => d[PREVIOUS := e]
  }

  function PutPointer(d: Dir, n: Name, p: Pointer): Dir {
    match p
    case NoPointer => d
    case Pending => d[CURRENT_TMP := Link(n)]
    case Switched => d[CURRENT := Link(n)]
  }

  /** The version directories that starting from `d0` and doing what `p` records leaves. */
  function Versions(d0: Dir, n: Name, p: Proc): Dir {
    PutSlot(PutAside(d0, n, p.aside), n, p.slot)
  }

  /** The directory that it leaves. */
  function Layout(d0: Dir, n: Name, p: Proc): Dir {
    PutSlot(PutPointer(PutPrevious(Versions(d0, n, p), p.kept), n, p.pointer), p.temp, p.staging)
  }

  predicate FreshRecord(p: Proc) {
    p.aside.Untouched? && p.slot.None? && p.kept.SamePrevious? && p.pointer.NoPointer? && p.staging.None?
  }

  predicate IsSlot(e: Option<Entry>, s: Source) {
    e.Some? && e.value.Version? && e.value.files == s.files && (e.value.mode == s.mode || e.value.mode == TEMP_MODE)
  }

  /** The temporary name is none of the names the run uses otherwise, and was free. */
  predicate TempOk(d0: Dir, n: Name, t: Name) {
    t !in d0 && TempShape(n, t) && !Reserved(t) && t != n && t != Old(n)
  }

  /** What a stat of `n` finds while the link and the copy of a run are in the directory. */
  function Seen(d0: Dir, n: Name, t: Name): StatResult {
    Stat(d0[CURRENT_TMP := Link(n)][t := Version(TEMP_MODE, map[])], n)
  }

  predicate MovedOk(d0: Dir, n: Name) {
    n in d0 && !d0[n].Plain? && (Old(n) in d0 ==> CanReplace(d0[n], d0[Old(n)]))
  }

  const STACK: seq<Undo> := [RemoveLink, RemoveTemp, MoveBack]

  /** What holds of the record in every phase. */
  predicate RecordOk(d0: Dir, s: Source, p: Proc) {
    && (!p.pointer.NoPointer? ==> CURRENT_TMP !in d0)
    && (p.staging.Some? ==> p.staging.value.Version? && p.slot.None? && TempOk(d0, s.name, p.temp))
    && (p.slot.Some? ==> IsSlot(p.slot, s) && !p.aside.Restored?)
    && (p.slot.None? ==> p.kept.SamePrevious? && !p.pointer.Switched?)
    && (p.aside.Moved? || p.aside.Restored? ==> MovedOk(d0, s.name) && Seen(d0, s.name, p.temp).IsDir?)
    && (p.kept.NewPrevious? && CURRENT in d0 && d0[CURRENT].Link? ==> p.kept.entry == d0[CURRENT])
    && (p.pointer.Switched? <==> p.outcome.Copied?)
    && (p.pointer.Switched? && CURRENT in d0 ==> !d0[CURRENT].Version?)
    && |p.undo| <= 3 && p.undo == STACK[..|p.undo|]
    && (|p.undo| == 3 ==> p.aside.Moved?)
    && (|p.undo| >= 2 ==> TempOk(d0, s.name, p.temp) && (p.staging.Some? || p.slot.Some?))
    && (|p.undo| >= 1 ==> !p.pointer.NoPointer?)
    && (p.outcome.Skipped? || CURRENT_TMP in d0 ==> FreshRecord(p) && p.undo == [])
    && (p.outcome.Skipped? ==> StatVersion(d0) == Some(s.name))
    && (p.aside.Dropped? ==> s.name in d0 && !d0[s.name].Version? && Seen(d0, s.name, p.temp).NotDir?)
    && (p.slot.Some? && p.aside.Untouched? ==> s.name !in d0)
    && (!s.direct ==> p.aside.Untouched? && p.slot.None?)
    && (!p.aside.Untouched? || p.slot.Some? ==> TempOk(d0, s.name, p.temp))
  }

  predicate PhaseOk(d0: Dir, s: Source, p: Proc) {
    match p.phase
    case Begin => FreshRecord(p) && p.undo == [] && p.outcome.Failed?
    case Remounting => FreshRecord(p) && p.undo == [] && p.outcome.Failed?
    case MakeLink => FreshRecord(p) && p.undo == [] && p.outcome.Failed?
    case MakeTemp => |p.undo| == 1 && p.aside.Untouched? && p.slot.None? && p.staging.None? && p.pointer.Pending?
    case Copying =>
      && |p.undo| == 2 && p.aside.Untouched? && p.slot.None? && p.pointer.Pending?
      && p.staging.Some? && p.staging.value.Version? && p.staging.value.mode == TEMP_MODE
    case Inspect => s.direct && |p.undo| == 2 && p.aside.Untouched? && IsSlot(p.staging, s) && p.pointer.Pending?
    case MoveAside =>
      && s.name in d0 && !d0[s.name].Plain? && Seen(d0, s.name, p.temp).IsDir?
      && s.direct && |p.undo| == 2 && p.aside.Untouched? && IsSlot(p.staging, s) && p.pointer.Pending?
    case DropFile =>
      && s.name in d0 && !d0[s.name].Version? && Seen(d0, s.name, p.temp).NotDir?
      && s.direct && |p.undo| == 2 && p.aside.Untouched? && IsSlot(p.staging, s) && p.pointer.Pending?
    case Install =>
      && s.direct && |p.undo| >= 2 && IsSlot(p.staging, s) && p.pointer.Pending? && !p.aside.Restored?
      && (|p.undo| == 2 ==> !p.aside.Moved?)
    case Chmod => |p.undo| >= 2 && p.slot.Some? && p.pointer.Pending? && p.kept.SamePrevious?
    case DropPrevious => |p.undo| >= 2 && p.slot.Some? && p.pointer.Pending? && p.kept.SamePrevious?
    case KeepPrevious => |p.undo| >= 2 && p.slot.Some? && p.pointer.Pending? && !p.kept.NewPrevious?
    case Switch => |p.undo| >= 2 && p.slot.Some? && p.pointer.Pending?
    case Unwind => p.undo != []
    case Done => p.undo == []
  }

  /** A run from `d0` in progress. */
  predicate Running(d0: Dir, st: State) {
    var p := st.proc;
    if p.src.None? then
      st.dir == d0 && FreshRecord(p) && p.undo == [] && p.outcome.Failed? && (p.phase.Begin? || p.phase.Done?)
    else
      && st.dir == Layout(d0, p.src.value.name, p)
      && RecordOk(d0, p.src.value, p)
      && PhaseOk(d0, p.src.value, p)
  }

  lemma NamesDiffer(n: Name)
    requires !Reserved(n)
    ensures Old(n) != n && !Reserved(Old(n))
  {
    var o := Old(n);
    assert o[|o| - 1] == 'd' && o[|o| - 4] == '.';
    assert CURRENT[6] == 't' && PREVIOUS[7] == 's' && CURRENT_TMP[10] == 'p';
  }

  lemma TempNameOk(d: Dir, n: Name, t: Name)
    requires TempShape(n, t) && t !in d && !Reserved(n)
    ensures TempOk(d, n, t)
  {
    var i := LastStar(n);
    assert '0' <= t[i] <= '9';
    assert forall j :: 0 <= j < |CURRENT| ==> !('0' <= CURRENT[j] <= '9');
    assert forall j :: 0 <= j < |PREVIOUS| ==> !('0' <= PREVIOUS[j] <= '9');
    assert forall j :: 0 <= j < |CURRENT_TMP| ==> !('0' <= CURRENT_TMP[j] <= '9');
  }

  lemma RunningStart(d: Dir, src: Option<Source>, remount: bool)
    ensures Running(d, Start(d, src, remount))
  {
  }

  predicate At(d0: Dir, st: State, ph: Phase) {
    Running(d0, st) && st.proc.phase == ph && st.proc.src.Some? && ProperSource(st.proc.src.value)
  }

  lemma QuietKeeps(d0: Dir, st: State, e: Event)
    requires Running(d0, st) && st.proc.src.Some? && ProperSource(st.proc.src.value)
    requires st.proc.phase.Begin? || st.proc.phase.Remounting?
    ensures Running(d0, Step(st, e))
  {
    assert Step(st, e).dir == d0;
  }

  lemma MakeLinkKeeps(d0: Dir, st: State, e: Event)
    requires At(d0, st, MakeLink)
    ensures Running(d0, MakeLinkStep(st.dir, st.proc, st.proc.src.value.name, e))
  {
  }

  /** What the stat of the destination sees was there at the start. */
  lemma InspectSees(d0: Dir, s: Source, p: Proc)
    requires ProperSource(s) && RecordOk(d0, s, p) && PhaseOk(d0, s, p) && p.phase.Inspect?
    ensures s.name in Layout(d0, s.name, p) <==> s.name in d0
    ensures s.name in d0 ==> Layout(d0, s.name, p)[s.name] == d0[s.name]
    ensures Stat(Layout(d0, s.name, p), s.name).IsDir? <==> Seen(d0, s.name, p.temp).IsDir?
    ensures Stat(Layout(d0, s.name, p), s.name).NotDir? <==> Seen(d0, s.name, p.temp).NotDir?
  {
    NamesDiffer(s.name);
    var d1 := PutPrevious(Versions(d0, s.name, p), p.kept);
    assert d1 == d0;
    var seen := d0[CURRENT_TMP := Link(s.name)][p.temp := Version(TEMP_MODE, map[])];
    StatAlike(Layout(d0, s.name, p), seen, s.name, MAX_LINKS);
  }

  lemma InspectRecord(d0: Dir, s: Source, p: Proc, d: Dir, e: Event)
    requires RecordOk(d0, s, p) && PhaseOk(d0, s, p) && p.phase.Inspect?
    requires (s.name in d <==> s.name in d0) && (s.name in d0 ==> d[s.name] == d0[s.name])
    requires Stat(d, s.name).IsDir? <==> Seen(d0, s.name, p.temp).IsDir?
    requires Stat(d, s.name).NotDir? <==> Seen(d0, s.name, p.temp).NotDir?
    ensures var q := InspectStep(d, p, s.name, e); RecordOk(d0, s, q) && PhaseOk(d0, s, q) && q == p.(phase := q.phase)
  {}

  lemma InspectKeeps(d0: Dir, st: State, e: Event)
    requires At(d0, st, Inspect)
    ensures Running(d0, State(st.dir, InspectStep(st.dir, st.proc, st.proc.src.value.name, e)))
  {
    InspectSees(d0, st.proc.src.value, st.proc);
    InspectRecord(d0, st.proc.src.value, st.proc, st.dir, e);
  }

  lemma MakeTempKeeps(d0: Dir, st: State, e: Event)
    requires At(d0, st, MakeTemp)
    ensures Running(d0, MakeTempStep(st.dir, st.proc, st.proc.src.value.name, e))
  {
    if e.TempName? && TempShape(st.proc.src.value.name, e.name) && e.name !in st.dir {
      TempNameOk(st.dir, st.proc.src.value.name, e.name);
    }
  }

  lemma CopyingKeeps(d0: Dir, st: State, e: Event)
    requires At(d0, st, Copying)
    ensures st.proc.temp in st.dir && st.dir[st.proc.temp].Version?
    ensures Running(d0, CopyingStep(st.dir, st.proc, st.proc.src.value, e))
  {
    var p, s := st.proc, st.proc.src.value;
    var next := CopyingStep(st.dir, p, s, e);
    var w := if next.proc.staging.Some? then next.proc.staging.value else Plain;
    TrimTempLayout(d0, s.name, p, w);
    CopyingRecord(d0, s, p, w);
  }

  lemma CopyingRecord(d0: Dir, s: Source, p: Proc, w: Entry)
    requires RecordOk(d0, s, p) && PhaseOk(d0, s, p) && p.phase.Copying?
    ensures p.staging.Some? && p.staging.value.Version?
    ensures RecordOk(d0, s, Return(p, Failed)) && PhaseOk(d0, s, Return(p, Failed))
    ensures w.Version? && w.mode == TEMP_MODE ==>
      var q := p.(staging := Some(w)); RecordOk(d0, s, q) && PhaseOk(d0, s, q)
    ensures s.direct && IsSlot(Some(w), s) ==>
      var q := p.(phase := Inspect, staging := Some(w)); RecordOk(d0, s, q) && PhaseOk(d0, s, q)
  {}

  lemma MoveAsideKeeps(d0: Dir, st: State, e: Event)
    requires At(d0, st, MoveAside)
    ensures Running(d0, MoveAsideStep(st.dir, st.proc, st.proc.src.value.name, e))
  {
    var n := st.proc.src.value.name;
    NamesDiffer(n);
    var next := MoveAsideStep(st.dir, st.proc, n, e);
    if next.proc.phase.Install? {
      assert n in d0 && d0[n] == st.dir[n];
      assert next.dir == Layout(d0, n, next.proc);
    }
  }

  lemma DropFileKeeps(d0: Dir, st: State, e: Event)
    requires At(d0, st, DropFile)
    ensures Running(d0, DropFileStep(st.dir, st.proc, st.proc.src.value.name, e))
  {
    var n := st.proc.src.value.name;
    var next := DropFileStep(st.dir, st.proc, n, e);
    assert next.dir == Layout(d0, n, next.proc);
  }

  /** The temporary directory renamed into place. */
  lemma InstallLayout(d0: Dir, n: Name, p: Proc)
    requires !Reserved(n) && p.staging.Some? && TempOk(d0, n, p.temp) && p.slot.None? && p.kept.SamePrevious?
      && p.pointer.Pending?
    requires !p.aside.Restored?
    ensures var l := Layout(d0, n, p);
      p.temp in l && l[p.temp] == p.staging.value
      && (l - {p.temp})[n := p.staging.value] == Layout(d0, n, p.(slot := p.staging, staging := None))
  {
    NamesDiffer(n);
    var base := PutPointer(Versions(d0, n, p), n, p.pointer);
    assert p.temp !in base;
    assert (base[p.temp := p.staging.value]) - {p.temp} == base;
    assert base[n := p.staging.value] == Layout(d0, n, p.(slot := p.staging, staging := None));
  }

  lemma InstallRecord(d0: Dir, s: Source, p: Proc)
    requires RecordOk(d0, s, p) && PhaseOk(d0, s, p) && p.phase.Install?
    ensures RecordOk(d0, s, Return(p, Failed)) && PhaseOk(d0, s, Return(p, Failed))
    ensures s.name !in d0 || p.aside.Moved? || p.aside.Dropped? ==>
      var q := p.(phase := Chmod, slot := p.staging, staging := None); RecordOk(d0, s, q) && PhaseOk(d0, s, q)
  {}

  /** What stands where the version is to be installed. */
  lemma InstallTarget(d0: Dir, n: Name, p: Proc)
    requires !Reserved(n) && TempOk(d0, n, p.temp) && p.slot.None? && p.kept.SamePrevious? && p.pointer.Pending?
      && p.aside.Untouched?
    ensures n in Layout(d0, n, p) <==> n in d0
    ensures n in d0 ==> Layout(d0, n, p)[n] == d0[n]
  {
    NamesDiffer(n);
  }

  lemma InstallKeeps(d0: Dir, st: State, e: Event)
    requires At(d0, st, Install)
    ensures Running(d0, InstallStep(st.dir, st.proc, st.proc.src.value.name, e))
  {
    var p, n := st.proc, st.proc.src.value.name;
    InstallLayout(d0, n, p);
    InstallRecord(d0, p.src.value, p);
    if p.aside.Untouched? { InstallTarget(d0, n, p); }
  }

  lemma ChmodLayout(d0: Dir, n: Name, p: Proc, w: Entry)
    requires !Reserved(n) && p.slot.Some? && p.staging.None? && p.kept.SamePrevious? && p.pointer.Pending?
    ensures n in Layout(d0, n, p) && Layout(d0, n, p)[n] == p.slot.value
    ensures Layout(d0, n, p)[n := w] == Layout(d0, n, p.(slot := Some(w)))
  {
    var base := PutAside(d0, n, p.aside);
    assert base[n := p.slot.value][n := w] == base[n := w];
  }

  lemma ChmodRecord(d0: Dir, s: Source, p: Proc, w: Entry)
    requires RecordOk(d0, s, p) && PhaseOk(d0, s, p) && p.phase.Chmod? && IsSlot(Some(w), s)
    ensures var q := p.(phase := DropPrevious, slot := Some(w)); RecordOk(d0, s, q) && PhaseOk(d0, s, q)
    ensures var q := p.(phase := DropPrevious); RecordOk(d0, s, q) && PhaseOk(d0, s, q)
  {}

  lemma ChmodKeeps(d0: Dir, st: State, e: Event)
    requires At(d0, st, Chmod)
    ensures Running(d0, ChmodStep(st.dir, st.proc, st.proc.src.value, e))
  {
    var p, s := st.proc, st.proc.src.value;
    var w := Version(s.mode, s.files);
    ChmodLayout(d0, s.name, p, w);
    ChmodRecord(d0, s, p, w);
  }

  lemma DropPreviousLayout(d0: Dir, n: Name, p: Proc)
    requires !Reserved(n) && p.slot.Some? && p.staging.None? && p.pointer.Pending?
    ensures Layout(d0, n, p) - {PREVIOUS} == Layout(d0, n, p.(kept := NoPrevious))
  {
    assert PREVIOUS != CURRENT_TMP;
    assert PutPrevious(Versions(d0, n, p), p.kept) - {PREVIOUS} == Versions(d0, n, p) - {PREVIOUS};
  }

  lemma DropPreviousRecord(d0: Dir, s: Source, p: Proc)
    requires RecordOk(d0, s, p) && PhaseOk(d0, s, p) && p.phase.DropPrevious?
    ensures var q := p.(phase := KeepPrevious); RecordOk(d0, s, q) && PhaseOk(d0, s, q)
    ensures var q := p.(phase := KeepPrevious, kept := NoPrevious); RecordOk(d0, s, q) && PhaseOk(d0, s, q)
  {}

  lemma DropPreviousKeeps(d0: Dir, st: State, e: Event)
    requires At(d0, st, DropPrevious)
    ensures Running(d0, DropPreviousStep(st.dir, st.proc, e))
  {
    DropPreviousLayout(d0, st.proc.src.value.name, st.proc);
    DropPreviousRecord(d0, st.proc.src.value, st.proc);
  }

  lemma KeepPreviousLayout(d0: Dir, n: Name, p: Proc, e: Entry)
    requires !Reserved(n) && p.slot.Some? && p.staging.None? && p.pointer.Pending?
    ensures Layout(d0, n, p)[PREVIOUS := e] == Layout(d0, n, p.(kept := NewPrevious(e)))
  {
    var base := Versions(d0, n, p);
    assert PutPrevious(base, p.kept)[PREVIOUS := e] == base[PREVIOUS := e];
    assert PREVIOUS != CURRENT_TMP;
  }

  lemma KeepPreviousRecord(d0: Dir, s: Source, p: Proc, k: Kept)
    requires RecordOk(d0, s, p) && PhaseOk(d0, s, p) && p.phase.KeepPrevious?
    requires k == p.kept || (k.NewPrevious? && (CURRENT in d0 && d0[CURRENT].Link? ==> k.entry == d0[CURRENT]))
    ensures var q := p.(phase := Switch, kept := k); RecordOk(d0, s, q) && PhaseOk(d0, s, q)
  {}

  lemma KeepPreviousKeeps(d0: Dir, st: State, e: Event)
    requires At(d0, st, KeepPrevious)
    ensures Running(d0, KeepPreviousStep(st.dir, st.proc, e))
  {
    var p, n := st.proc, st.proc.src.value.name;
    var next := KeepPreviousStep(st.dir, p, e);
    CurrentBeforeSwitch(d0, n, p);
    if next.proc.kept != p.kept { KeepPreviousLayout(d0, n, p, next.proc.kept.entry); }
    KeepPreviousRecord(d0, p.src.value, p, next.proc.kept);
  }

  /** Before the switch nothing has touched `current`. */
  lemma CurrentBeforeSwitch(d0: Dir, n: Name, p: Proc)
    requires !Reserved(n) && !p.pointer.Switched?
    requires p.staging.Some? ==> !Reserved(p.temp)
    ensures CURRENT in Layout(d0, n, p) <==> CURRENT in d0
    ensures CURRENT in d0 ==> Layout(d0, n, p)[CURRENT] == d0[CURRENT]
  {
    NamesDiffer(n);
  }

  lemma SwitchLayout(d0: Dir, n: Name, p: Proc)
    requires !Reserved(n) && p.slot.Some? && p.staging.None? && p.pointer.Pending? && CURRENT_TMP !in d0
    ensures var l := Layout(d0, n, p);
      && CURRENT_TMP in l && l[CURRENT_TMP] == Link(n)
      && (l - {CURRENT_TMP})[CURRENT := Link(n)] == Layout(d0, n, p.(pointer := Switched))
  {
    NamesDiffer(n);
    var base := PutPrevious(Versions(d0, n, p), p.kept);
    assert CURRENT_TMP !in base;
    assert base[CURRENT_TMP := Link(n)] - {CURRENT_TMP} == base;
  }

  lemma SwitchRecord(d0: Dir, s: Source, p: Proc)
    requires RecordOk(d0, s, p) && PhaseOk(d0, s, p) && p.phase.Switch?
    ensures RecordOk(d0, s, Return(p, Failed)) && PhaseOk(d0, s, Return(p, Failed))
    ensures (CURRENT in d0 ==> !d0[CURRENT].Version?) ==>
      var q := Return(p.(pointer := Switched), Copied); RecordOk(d0, s, q) && PhaseOk(d0, s, q)
  {}

  lemma SwitchKeeps(d0: Dir, st: State, e: Event)
    requires At(d0, st, Switch)
    ensures Running(d0, SwitchStep(st.dir, st.proc, e))
  {
    var p, n := st.proc, st.proc.src.value.name;
    CurrentBeforeSwitch(d0, n, p);
    SwitchLayout(d0, n, p);
    SwitchRecord(d0, p.src.value, p);
  }

  lemma UnwindKeeps(d0: Dir, st: State, e: Event)
    requires At(d0, st, Unwind)
    ensures Running(d0, UnwindStep(st.dir, st.proc, st.proc.src.value.name, e))
  {
    var p := st.proc;
    NamesDiffer(p.src.value.name);
    assert p.undo[..|p.undo| - 1] == STACK[..|p.undo| - 1];
    match p.undo[|p.undo| - 1]
    case RemoveLink => RemoveLinkKeeps(d0, st, e);
    case RemoveTemp => RemoveTempKeeps(d0, st, e);
    case MoveBack => MoveBackKeeps(d0, st, e);
  }

  /** Everything but the pointer and the temporary directory. */
  function Base(d0: Dir, n: Name, p: Proc): Dir {
    PutPrevious(Versions(d0, n, p), p.kept)
  }

  lemma RemoveLinkLayout(d0: Dir, n: Name, p: Proc)
    requires !Reserved(n) && CURRENT_TMP !in d0 && (p.staging.Some? ==> TempOk(d0, n, p.temp))
    ensures p.pointer.Switched? ==> CURRENT_TMP !in Layout(d0, n, p)
    ensures p.pointer.Pending? ==> CURRENT_TMP in Layout(d0, n, p) && Layout(d0, n, p)[CURRENT_TMP] == Link(n)
    ensures p.pointer.Pending? ==> Layout(d0, n, p) - {CURRENT_TMP} == Layout(d0, n, p.(pointer := NoPointer))
  {
    NamesDiffer(n);
    var base := Base(d0, n, p);
    assert PREVIOUS != CURRENT_TMP && CURRENT != CURRENT_TMP;
    assert CURRENT_TMP !in base;
    assert p.pointer.Pending? ==> base[CURRENT_TMP := Link(n)] - {CURRENT_TMP} == base;
  }

  lemma RemoveLinkRecord(d0: Dir, s: Source, p: Proc)
    requires RecordOk(d0, s, p) && PhaseOk(d0, s, p) && p.phase.Unwind? && |p.undo| == 1
    ensures var q := p.(undo := p.undo[..0], phase := Done); RecordOk(d0, s, q) && PhaseOk(d0, s, q)
    ensures !p.pointer.Switched? ==> var q := p.(undo := p.undo[..0], phase := Done, pointer := NoPointer);
      RecordOk(d0, s, q) && PhaseOk(d0, s, q)
  {
    assert p.undo[..0] == STACK[..0] && p.undo[..0] == [];
  }

  lemma RemoveLinkKeeps(d0: Dir, st: State, e: Event)
    requires At(d0, st, Unwind) && |st.proc.undo| == 1
    ensures Running(d0, UnwindStep(st.dir, st.proc, st.proc.src.value.name, e))
  {
    var p, s := st.proc, st.proc.src.value;
    RemoveLinkLayout(d0, s.name, p);
    RemoveLinkRecord(d0, s, p);
    assert p.undo[0] == STACK[..1][0];
  }

  lemma RemoveTempLayout(d0: Dir, n: Name, p: Proc)
    requires !Reserved(n) && TempOk(d0, n, p.temp)
    ensures p.staging.None? ==> p.temp !in Layout(d0, n, p)
    ensures p.staging.Some? ==> p.temp in Layout(d0, n, p) && Layout(d0, n, p)[p.temp] == p.staging.value
    ensures p.staging.Some? ==> Layout(d0, n, p) - {p.temp} == Layout(d0, n, p.(staging := None))
  {
    NamesDiffer(n);
    var base := PutPointer(Base(d0, n, p), n, p.pointer);
    assert p.temp !in base;
    assert p.staging.Some? ==> (base[p.temp := p.staging.value]) - {p.temp} == base;
  }

  lemma TrimTempLayout(d0: Dir, n: Name, p: Proc, w: Entry)
    requires p.staging.Some?
    ensures p.temp in Layout(d0, n, p) && Layout(d0, n, p)[p.temp] == p.staging.value
    ensures Layout(d0, n, p)[p.temp := w] == Layout(d0, n, p.(staging := Some(w)))
  {}

  lemma RemoveTempRecord(d0: Dir, s: Source, p: Proc, w: Entry)
    requires RecordOk(d0, s, p) && PhaseOk(d0, s, p) && p.phase.Unwind? && |p.undo| == 2
    ensures var q := p.(undo := p.undo[..1], phase := Unwind); RecordOk(d0, s, q) && PhaseOk(d0, s, q)
    ensures var q := p.(undo := p.undo[..1], phase := Unwind, staging := None); RecordOk(d0, s, q) && PhaseOk(d0, s, q)
    ensures p.staging.Some? && w.Version? ==> var q := p.(staging := Some(w)); RecordOk(d0, s, q) && PhaseOk(d0, s, q)
  {
    assert p.undo[..1] == STACK[..1];
  }

  lemma RemoveTempKeeps(d0: Dir, st: State, e: Event)
    requires At(d0, st, Unwind) && |st.proc.undo| == 2
    ensures Running(d0, UnwindStep(st.dir, st.proc, st.proc.src.value.name, e))
  {
    var p, s := st.proc, st.proc.src.value;
    var w := if e.Trim? && p.staging.Some? then Version(p.staging.value.mode, p.staging.value.files - {e.path})
      else Plain;
    RemoveTempLayout(d0, s.name, p);
    if p.staging.Some? { TrimTempLayout(d0, s.name, p, w); }
    RemoveTempRecord(d0, s, p, w);
    assert p.undo[1] == STACK[..2][1];
  }

  /** Over a new version in place the deferred rename cannot succeed. */
  lemma MoveBackIsBarred(d0: Dir, st: State)
    requires At(d0, st, Unwind) && |st.proc.undo| == 3 && st.proc.slot.Some?
    ensures Rename(st.dir, Old(st.proc.src.value.name), st.proc.src.value.name).None?
  {
    var p, n := st.proc, st.proc.src.value.name;
    NamesDiffer(n);
    assert n in st.dir && st.dir[n] == p.slot.value;
  }

  lemma MoveBackRestores(d0: Dir, n: Name, p: Proc)
    requires !Reserved(n) && p.aside.Moved? && p.slot.None? && p.kept.SamePrevious? && !p.pointer.Switched?
      && MovedOk(d0, n)
    requires p.staging.Some? ==> TempOk(d0, n, p.temp)
    ensures Rename(Layout(d0, n, p), Old(n), n) == Some(Layout(d0, n, p.(aside := Restored)))
  {
    NamesDiffer(n);
    var l := Layout(d0, n, p);
    assert n !in l && Old(n) in l && l[Old(n)] == d0[n];
    assert (l - {Old(n)})[n := d0[n]] == Layout(d0, n, p.(aside := Restored));
  }

  lemma MoveBackKeeps(d0: Dir, st: State, e: Event)
    requires At(d0, st, Unwind) && |st.proc.undo| == 3
    ensures Running(d0, UnwindStep(st.dir, st.proc, st.proc.src.value.name, e))
  {
    var p, n := st.proc, st.proc.src.value.name;
    assert p.undo[..2] == STACK[..2];
    if p.slot.Some? {
      MoveBackIsBarred(d0, st);
    } else {
      MoveBackRestores(d0, n, p);
    }
  }

  lemma RunningEarly(d0: Dir, st: State, e: Event)
    requires Running(d0, st) && st.proc.src.Some? && ProperSource(st.proc.src.value)
    requires !Late(st.proc.phase)
    ensures Running(d0, Step(st, e))
  {
    match st.proc.phase
    case MakeLink => MakeLinkKeeps(d0, st, e);
    case Inspect => InspectKeeps(d0, st, e);
    case MakeTemp => MakeTempKeeps(d0, st, e);
    case Copying => CopyingKeeps(d0, st, e);
    case MoveAside => MoveAsideKeeps(d0, st, e);
    case DropFile => DropFileKeeps(d0, st, e);
    case _ => QuietKeeps(d0, st, e);
  }

  predicate Late(ph: Phase) {
    ph.Install? || ph.Chmod? || ph.DropPrevious? || ph.KeepPrevious? || ph.Switch? || ph.Unwind? || ph.Done?
  }

  lemma RunningLate(d0: Dir, st: State, e: Event)
    requires Running(d0, st) && st.proc.src.Some? && ProperSource(st.proc.src.value)
    requires Late(st.proc.phase)
    ensures Running(d0, Step(st, e))
  {
    match st.proc.phase
    case Install => InstallKeeps(d0, st, e);
    case Chmod => ChmodKeeps(d0, st, e);
    case DropPrevious => DropPreviousKeeps(d0, st, e);
    case KeepPrevious => KeepPreviousKeeps(d0, st, e);
    case Switch => SwitchKeeps(d0, st, e);
    case Unwind => UnwindKeeps(d0, st, e);
    case Done =>
  }

  /** Every step of every run keeps the directory in the shape its record describes. */
  lemma RunningStep(d0: Dir, st: State, e: Event)
    requires Running(d0, st)
    requires st.proc.src.Some? ==> ProperSource(st.proc.src.value)
    ensures Running(d0, Step(st, e))
  {
    if st.proc.src.Some? {
      if Late(st.proc.phase) { RunningLate(d0, st, e); } else { RunningEarly(d0, st, e); }
    }
  }

  lemma StepSource(st: State, e: Event)
    ensures Step(st, e).proc.src == st.proc.src
  {
  }

  /** What a run that starts from `d0` has made of it, after any list of events. */
  lemma {:induction false} RunningExec(d0: Dir, st: State, es: seq<Event>)
    requires Running(d0, st)
    requires st.proc.src.Some? ==> ProperSource(st.proc.src.value)
    ensures Running(d0, Exec(st, es)) && Exec(st, es).proc.src == st.proc.src
    decreases |es|
  {
    if es != [] {
      RunningStep(d0, st, es[0]);
      StepSource(st, es[0]);
      RunningExec(d0, Step(st, es[0]), es[1..]);
    }
  }
}
