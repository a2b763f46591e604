/**
 `CopyComponent` as a machine that makes one system call per step. What the environment
 decides about a step is its event; a run is a list of events, and a crash is a list that
 stops before the machine is done, so that no deferred call is made.
 */
module CopyMachine {
  import opened Basics
  import opened ComponentDir

  /** The version the source component's `current` stands for; `direct` unless it is itself a link. */
  datatype Source = Source(name: Name, mode: nat, files: Files, direct: bool)

  /** What `StatComponentVersion` on the source and the later `Lstat` of the copy find. */
  function SourceOf(d: Dir): Option<Source> {
    match StatVersion(d)
    case None => None
    case Some(n) =>
      match Stat(d, n)
      case IsDir(m, f) => Some(Source(n, m, f, n in d && d[n].Version?))
      case _ => None
  }

  datatype Phase =
    | Begin          // both StatComponentVersion calls
    | Remounting
    | MakeLink       // symlink current.tmp
    | MakeTemp       // ioutil.TempDir
    | Copying        // copy.Copy into the temporary directory
    | Inspect        // stat of the destination version
    | MoveAside      // rename to <name>.old
    | DropFile       // remove a non-directory destination
    | Install        // rename the temporary directory into place
    | Chmod
    | DropPrevious
    | KeepPrevious   // copy.Copy of current to previous
    | Switch         // rename current.tmp to current
    | Unwind         // deferred calls, last registered first
    | Done

  datatype Undo = RemoveLink | RemoveTemp | MoveBack

  datatype Outcome = Copied | Skipped | Failed

  /** How one call turns out. Every other event than the ones a call can use makes that call fail. */
  datatype Event =
    | Go                                 // the call does what the directory allows
    | Fail                               // the call fails and changes nothing
    | Blind                              // the stat of the destination's current version fails
    | TempName(name: Name)               // ioutil.TempDir settles on this name
    | Write(path: string, upTo: nat)     // one more piece of one file is copied
    | Unmoded                            // the copy is complete, but its mode could not be set
    | Trim(path: string)                 // RemoveAll deletes one more item
    | Deep(entry: Entry)                 // copying a `current` that is no link leaves this behind

  // The record of what the run did to the directory: history, read by no step.
  datatype Aside = Untouched | Moved | Dropped | Restored
  datatype Kept = SamePrevious | NoPrevious | NewPrevious(entry: Entry)
  datatype Pointer = NoPointer | Pending | Switched

  datatype Proc = Proc(
    phase: Phase, src: Option<Source>, remount: bool, temp: Name, undo: seq<Undo>, outcome: Outcome,
    aside: Aside, slot: Option<Entry>, kept: Kept, pointer: Pointer, staging: Option<Entry>)

  datatype State = State(dir: Dir, proc: Proc)

  function Start(d: Dir, src: Option<Source>, remount: bool): State {
    State(d, Proc(Begin, src, remount, "", [], Failed, Untouched, None, SamePrevious, NoPointer, None))
  }

  /** `return`: the deferred calls run if there are any. */
  function Return(p: Proc, o: Outcome): Proc {
    p.(outcome := o, phase := if p.undo == [] then Done else Unwind)
  }

  /** The position of the last star, or the length. */
  function LastStar(s: string): (i: nat)
    ensures i <= |s|
  {
    if s == [] then 0
    else
      var i := LastStar(s[1..]);
      if i < |s| - 1 || s[0] != '*' then i + 1 else 0
  }

  predicate Digits(s: string, from: nat, to: nat)
    requires to <= |s|
  {
    forall i :: from <= i < to ==> '0' <= s[i] <= '9'
  }

  /** A name `ioutil.TempDir` builds: nine digits after the version name, or in place of its last star. */
  predicate TempShape(base: Name, n: Name) {
    var i := LastStar(base);
    var tail := if i < |base| then base[i + 1..] else [];
    |n| == i + 9 + |tail| && n[..i] == base[..i] && n[i + 9..] == tail && Digits(n, i, i + 9)
  }

  lemma {:induction false} NoStar(s: string)
    requires '*' !in s
    ensures LastStar(s) == |s|
  {
    if s != [] { NoStar(s[1..]); }
  }

  /** For a name without stars: the name and nine digits. */
  lemma TempShapePlainly(base: Name, n: Name)
    requires '*' !in base
    ensures TempShape(base, n) <==>
      |n| == |base| + 9 && base <= n && forall i :: |base| <= i < |n| ==> '0' <= n[i] <= '9'
  {
    NoStar(base);
    if TempShape(base, n) { assert n[..|base|] == base[..|base|] == base; }
  }

  /** With a star: nine digits in place of the last one. */
  lemma TempShapeStarred(a: string, b: string, n: Name)
    requires '*' !in b
    ensures TempShape(a + ['*'] + b, n) <==>
      |n| == |a| + 9 + |b| && a <= n && n[|a| + 9..] == b && forall i :: |a| <= i < |a| + 9 ==> '0' <= n[i] <= '9'
  {
    StarAt(a, b);
    var base := a + ['*'] + b;
    assert base[..|a|] == a && base[|a| + 1..] == b;
    if TempShape(base, n) { assert n[..|a|] == a; }
  }

  lemma {:induction false} StarAt(a: string, b: string)
    requires '*' !in b
    ensures LastStar(a + ['*'] + b) == |a|
    decreases |a|
  {
    var s := a + ['*'] + b;
    if a == [] {
      assert s[1..] == b;
      NoStar(b);
    } else {
      assert s[1..] == a[1..] + ['*'] + b;
      StarAt(a[1..], b);
    }
  }

  function Piece(i: Item, upTo: nat): Item {
    match i
    case Data(b) => Data(if upTo <= |b| then b[..upTo] else b)
    case _ => i
  }

  function BeginStep(d: Dir, p: Proc, e: Event): Proc {
    if p.src.None? || e.Fail? then Return(p, Failed)
    else if !e.Blind? && StatVersion(d) == Some(p.src.value.name) then Return(p, Skipped)
    else p.(phase := if p.remount then Remounting else MakeLink)
  }

  function MakeLinkStep(d: Dir, p: Proc, n: Name, e: Event): State {
    if e.Go? && CURRENT_TMP !in d
    then State(d[CURRENT_TMP := Link(n)], p.(phase := MakeTemp, undo := p.undo + [RemoveLink], pointer := Pending))
    else State(d, Return(p, Failed))
  }

  /** The mode that ioutil.TempDir gives a directory: 0700. */
  const TEMP_MODE: nat := 0x1C0

  function MakeTempStep(d: Dir, p: Proc, n: Name, e: Event): State {
    if e.TempName? && TempShape(n, e.name) && e.name !in d
    then
      var v := Version(TEMP_MODE, map[]);
      State(d[e.name := v], p.(phase := Copying, temp := e.name, undo := p.undo + [RemoveTemp], staging := Some(v)))
    else State(d, Return(p, Failed))
  }

  /**
   A piece of a file, the end of a complete copy, or an error that leaves a partial copy. The copy sets the mode as it
   returns and drops the error of that, so a complete copy may be left with the mode of the temporary directory.
   */
  function CopyingStep(d: Dir, p: Proc, s: Source, e: Event): State
    requires p.temp in d && d[p.temp].Version?
  {
    var v := d[p.temp];
    if e.Write? && s.direct && e.path in s.files then
      var w := Version(v.mode, v.files[e.path := Piece(s.files[e.path], e.upTo)]);
      State(d[p.temp := w], p.(staging := Some(w)))
    else if (e.Go? || e.Unmoded?) && s.direct then
      if v.files == s.files then
        var w := Version(if e.Go? then s.mode else v.mode, v.files);
        State(d[p.temp := w], p.(phase := Inspect, staging := Some(w)))
      else State(d, p)
    else State(d, Return(p, Failed))
  }

  function InspectStep(d: Dir, p: Proc, n: Name, e: Event): Proc {
    if !e.Go? then p.(phase := Install)
    else
      match Stat(d, n)
      case IsDir(_, _) => p.(phase := MoveAside)
      case NotDir => p.(phase := DropFile)
      case Missing => p.(phase := Install)
  }

  function MoveAsideStep(d: Dir, p: Proc, n: Name, e: Event): State {
    var moved := Rename(d, n, Old(n));
    if e.Go? && moved.Some?
    then State(moved.value, p.(phase := Install, undo := p.undo + [MoveBack], aside := Moved))
    else State(d, Return(p, Failed))
  }

  function DropFileStep(d: Dir, p: Proc, n: Name, e: Event): State {
    var removed := Remove(d, n);
    if e.Go? && removed.Some?
    then State(removed.value, p.(phase := Install, aside := Dropped))
    else State(d, p.(phase := Install))
  }

  function InstallStep(d: Dir, p: Proc, n: Name, e: Event): State {
    var placed := Rename(d, p.temp, n);
    if e.Go? && placed.Some?
    then State(placed.value, p.(phase := Chmod, slot := p.staging, staging := None))
    else State(d, Return(p, Failed))
  }

  function ChmodStep(d: Dir, p: Proc, s: Source, e: Event): State {
    if e.Go? && s.name in d && d[s.name].Version? then
      var w := Version(s.mode, d[s.name].files);
      State(d[s.name := w], p.(phase := DropPrevious, slot := Some(w)))
    else State(d, p.(phase := DropPrevious))
  }

  function DropPreviousStep(d: Dir, p: Proc, e: Event): State {
    var removed := Remove(d, PREVIOUS);
    if e.Go? && removed.Some?
    then State(removed.value, p.(phase := KeepPrevious, kept := NoPrevious))
    else State(d, p.(phase := KeepPrevious))
  }

  /** A link is copied as a link, and only where nothing stands; anything else is copied in depth. */
  function KeepPreviousStep(d: Dir, p: Proc, e: Event): State {
    if CURRENT !in d then State(d, p.(phase := Switch))
    else if d[CURRENT].Link? then
      if e.Go? && PREVIOUS !in d
      then State(d[PREVIOUS := d[CURRENT]], p.(phase := Switch, kept := NewPrevious(d[CURRENT])))
      else State(d, p.(phase := Switch))
    else if e.Deep? then State(d[PREVIOUS := e.entry], p.(phase := Switch, kept := NewPrevious(e.entry)))
    else State(d, p.(phase := Switch))
  }

  function SwitchStep(d: Dir, p: Proc, e: Event): State {
    var switched := Rename(d, CURRENT_TMP, CURRENT);
    if e.Go? && switched.Some?
    then State(switched.value, Return(p.(pointer := Switched), Copied))
    else State(d, Return(p, Failed))
  }

  /** One deferred call; a failure is ignored, and RemoveAll may take many steps. */
  function UnwindStep(d: Dir, p: Proc, n: Name, e: Event): State
    requires p.undo != []
  {
    var rest := p.undo[..|p.undo| - 1];
    var popped := p.(undo := rest, phase := if rest == [] then Done else Unwind);
    match p.undo[|p.undo| - 1]
    case RemoveLink =>
      var removed := Remove(d, CURRENT_TMP);
      if e.Go? && removed.Some? then State(removed.value, popped.(pointer := NoPointer)) else State(d, popped)
    case RemoveTemp =>
      if p.temp !in d then State(d, popped)
      else if e.Trim? && d[p.temp].Version? then
        var w := Version(d[p.temp].mode, d[p.temp].files - {e.path});
        State(d[p.temp := w], p.(staging := Some(w)))
      else if e.Go? then State(d - {p.temp}, popped.(staging := None))
      else State(d, popped)
    case MoveBack =>
      var back := Rename(d, Old(n), n);
      if e.Go? && back.Some? then State(back.value, popped.(aside := Restored)) else State(d, popped)
  }

  function Step(s: State, e: Event): State {
    var d, p := s.dir, s.proc;
    if p.phase.Begin? then State(d, BeginStep(d, p, e))
    else if p.phase.Done? || p.src.None? then s
    else
      var src := p.src.value;
      match p.phase
      case Remounting => State(d, if e.Go? then p.(phase := MakeLink) else Return(p, Failed))
      case MakeLink => MakeLinkStep(d, p, src.name, e)
      case MakeTemp => MakeTempStep(d, p, src.name, e)
      case Copying => if p.temp in d && d[p.temp].Version? then CopyingStep(d, p, src, e)
        else State(d, Return(p, Failed))
      case Inspect => State(d, InspectStep(d, p, src.name, e))
      case MoveAside => MoveAsideStep(d, p, src.name, e)
      case DropFile => DropFileStep(d, p, src.name, e)
      case Install => InstallStep(d, p, src.name, e)
      case Chmod => ChmodStep(d, p, src, e)
      case DropPrevious => DropPreviousStep(d, p, e)
      case KeepPrevious => KeepPreviousStep(d, p, e)
      case Switch => SwitchStep(d, p, e)
      case Unwind => if p.undo == [] then State(d, p.(phase := Done)) else UnwindStep(d, p, src.name, e)
  }

  /** The state after a list of events. */
  function Exec(s: State, es: seq<Event>): State
    decreases |es|
  {
    if es == [] then s else Exec(Step(s, es[0]), es[1..])
  }

  lemma {:induction false} ExecAppend(s: State, es: seq<Event>, e: Event)
    ensures Exec(s, es + [e]) == Step(Exec(s, es), e)
    decreases |es|
  {
    if es == [] {
      assert ([e])[1..] == [];
    } else {
      assert (es + [e])[1..] == es[1..] + [e];
      ExecAppend(Step(s, es[0]), es[1..], e);
    }
  }

  lemma {:induction false} ExecDone(s: State, es: seq<Event>)
    requires s.proc.phase.Done?
    ensures Exec(s, es) == s
    decreases |es|
  {
    if es != [] {
      ExecDone(Step(s, es[0]), es[1..]);
    }
  }
}
