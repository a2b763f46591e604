/** `CopyComponent` and `Run` in the form the program has, proved to make the steps of the machine. */
module CopyComponent {
  import opened Basics
  import opened ComponentDir
  import opened CopyMachine

  /** How a call ends for the caller; a process that has died makes no further call. */
  datatype Call = Ok | Err | Dead

  datatype Verdict = Broken | Same | Proceed | Died

  datatype Result = Returned(copied: bool, failed: bool) | Crashed

  /** What the machine says a run of `CopyComponent` returns. */
  function ResultOf(p: Proc): Result {
    if p.phase.Done? then Returned(p.outcome.Copied?, p.outcome.Failed?) else Crashed
  }

  /** A component directory on disk, and how the calls still to come will turn out. */
  class Destination {
    var dir: Dir
    var ahead: seq<Event>

    constructor (d: Dir, es: seq<Event>)
      ensures dir == d && ahead == es
    {
      dir, ahead := d, es;
    }

    /** One event is used up, or the process is dead. */
    twostate predicate Used(e: Event, dead: bool)
      reads this
    {
      if dead then old(ahead) == [] && ahead == [] && dir == old(dir)
      else old(ahead) != [] && e == old(ahead)[0] && ahead == old(ahead)[1..]
    }

    method Symlink(target: Name, name: Name) returns (r: Call, ghost e: Event)
      modifies this
      ensures Used(e, r.Dead?)
      ensures r.Ok? <==> !r.Dead? && e.Go? && name !in old(dir)
      ensures dir == if r.Ok? then old(dir)[name := Link(target)] else old(dir)
    {
      e := Fail;
      if ahead == [] { return Dead, e; }
      var ev := ahead[0];
      e, ahead := ev, ahead[1..];
      if !ev.Go? || name in dir { return Err, e; }
      dir := dir[name := Link(target)];
      return Ok, e;
    }

    method TempDir(base: Name) returns (r: Call, name: Name, ghost e: Event)
      modifies this
      ensures Used(e, r.Dead?)
      ensures r.Ok? <==> !r.Dead? && e.TempName? && TempShape(base, e.name) && e.name !in old(dir)
      ensures r.Ok? ==> name == e.name && dir == old(dir)[name := Version(TEMP_MODE, map[])]
      ensures !r.Ok? ==> dir == old(dir)
    {
      e, name := Fail, "";
      if ahead == [] { return Dead, name, e; }
      var ev := ahead[0];
      e, ahead := ev, ahead[1..];
      if ev.TempName? && TempShape(base, ev.name) && ev.name !in dir {
        name := ev.name;
        dir := dir[name := Version(TEMP_MODE, map[])];
        return Ok, name, e;
      }
      return Err, name, e;
    }

    method RenameCall(a: Name, b: Name) returns (r: Call, ghost e: Event)
      modifies this
      ensures Used(e, r.Dead?)
      ensures r.Ok? <==> !r.Dead? && e.Go? && Rename(old(dir), a, b).Some?
      ensures dir == if r.Ok? then Rename(old(dir), a, b).value else old(dir)
    {
      e := Fail;
      if ahead == [] { return Dead, e; }
      var ev := ahead[0];
      e, ahead := ev, ahead[1..];
      var d := Rename(dir, a, b);
      if !ev.Go? || d.None? { return Err, e; }
      dir := d.value;
      return Ok, e;
    }

    method RemoveCall(n: Name) returns (r: Call, ghost e: Event)
      modifies this
      ensures Used(e, r.Dead?)
      ensures r.Ok? <==> !r.Dead? && e.Go? && Remove(old(dir), n).Some?
      ensures dir == if r.Ok? then Remove(old(dir), n).value else old(dir)
    {
      e := Fail;
      if ahead == [] { return Dead, e; }
      var ev := ahead[0];
      e, ahead := ev, ahead[1..];
      var d := Remove(dir, n);
      if !ev.Go? || d.None? { return Err, e; }
      dir := d.value;
      return Ok, e;
    }

    method StatCall(n: Name) returns (r: Call, info: StatResult, ghost e: Event)
      modifies this
      ensures Used(e, r.Dead?) && dir == old(dir)
      ensures r.Ok? <==> !r.Dead? && e.Go?
      ensures r.Ok? ==> info == Stat(dir, n)
    {
      e, info := Fail, Missing;
      if ahead == [] { return Dead, info, e; }
      var ev := ahead[0];
      e, ahead := ev, ahead[1..];
      if !ev.Go? { return Err, info, e; }
      return Ok, Stat(dir, n), e;
    }

    method ChmodCall(n: Name, mode: nat) returns (r: Call, ghost e: Event)
      modifies this
      ensures Used(e, r.Dead?)
      ensures dir == if !r.Dead? && e.Go? && n in old(dir) && old(dir)[n].Version?
                     then old(dir)[n := Version(mode, old(dir)[n].files)] else old(dir)
    {
      e := Fail;
      if ahead == [] { return Dead, e; }
      var ev := ahead[0];
      e, ahead := ev, ahead[1..];
      if ev.Go? && n in dir && dir[n].Version? {
        dir := dir[n := Version(mode, dir[n].files)];
        return Ok, e;
      }
      return Err, e;
    }

    /** copy.Copy of `current` to `previous`. */
    method CopyPointer() returns (r: Call, ghost e: Event)
      modifies this
      ensures Used(e, r.Dead?)
      ensures r.Ok? ==> CURRENT in old(dir)
      ensures r.Ok? && old(dir)[CURRENT].Link? ==>
        e.Go? && PREVIOUS !in old(dir) && dir == old(dir)[PREVIOUS := old(dir)[CURRENT]]
      ensures r.Ok? && !old(dir)[CURRENT].Link? ==> e.Deep? && dir == old(dir)[PREVIOUS := e.entry]
      ensures r.Err? ==> dir == old(dir)
      ensures r.Err? && CURRENT in dir ==> if dir[CURRENT].Link? then !e.Go? || PREVIOUS in dir else !e.Deep?
    {
      e := Fail;
      if ahead == [] { return Dead, e; }
      var ev := ahead[0];
      e, ahead := ev, ahead[1..];
      if CURRENT !in dir { return Err, e; }
      if dir[CURRENT].Link? {
        if !ev.Go? || PREVIOUS in dir { return Err, e; }
        dir := dir[PREVIOUS := dir[CURRENT]];
      } else {
        if !ev.Deep? { return Err, e; }
        dir := dir[PREVIOUS := ev.entry];
      }
      return Ok, e;
    }

    /** Both calls of StatComponentVersion, and the comparison of the two names. */
    method Compare(src: Option<Source>) returns (v: Verdict, ghost e: Event)
      modifies this
      ensures Used(e, v.Died?) && dir == old(dir)
      ensures !v.Died? ==> (v.Broken? <==> src.None? || e.Fail?)
      ensures !v.Died? && !v.Broken? ==> (v.Same? <==> !e.Blind? && StatVersion(dir) == Some(src.value.name))
    {
      e := Fail;
      if ahead == [] { return Died, e; }
      var ev := ahead[0];
      e, ahead := ev, ahead[1..];
      if src.None? || ev.Fail? { return Broken, e; }
      var here := if ev.Blind? then None else StatVersion(dir);
      return if here == Some(src.value.name) then Same else Proceed, e;
    }

    method RemountCall() returns (r: Call, ghost e: Event)
      modifies this
      ensures Used(e, r.Dead?) && dir == old(dir)
      ensures r.Ok? <==> !r.Dead? && e.Go?
    {
      e := Fail;
      if ahead == [] { return Dead, e; }
      var ev := ahead[0];
      e, ahead := ev, ahead[1..];
      return if ev.Go? then Ok else Err, e;
    }

    /** The machine has got as far as the program: what is ahead of both is the same. */
    ghost predicate InStep(m: State, goal: State)
      reads this
    {
      m.dir == dir && Exec(m, ahead) == goal
    }

    /** copy.Copy of the source version into the temporary directory, piece by piece. */
    method CopyFiles(s: Source, temp: Name, ghost m0: State, ghost goal: State) returns (r: Call, ghost m: State)
      requires InStep(m0, goal) && m0.proc.phase.Copying? && m0.proc.src == Some(s) && m0.proc.temp == temp
      requires temp in dir && dir[temp].Version?
      modifies this
      ensures InStep(m, goal) && m.proc.src == Some(s) && m.proc.temp == temp && m.proc.undo == m0.proc.undo
      ensures r.Dead? ==> goal == m && m.proc.phase.Copying?
      ensures r.Ok? ==> m.proc.phase.Inspect?
      ensures r.Err? ==> m.proc == Return(m.proc, Failed)
    {
      m := m0;
      while ahead != []
        invariant InStep(m, goal) && m.proc.phase.Copying?
        invariant m.proc.src == Some(s) && m.proc.temp == temp && m.proc.undo == m0.proc.undo
        invariant temp in dir && dir[temp].Version?
        decreases |ahead|
      {
        var e := ahead[0];
        ahead := ahead[1..];
        ghost var before := m;
        m := Step(m, e);
        if e.Write? && s.direct && e.path in s.files {
          dir := dir[temp := Version(dir[temp].mode, dir[temp].files[e.path := Piece(s.files[e.path], e.upTo)])];
        } else if (e.Go? || e.Unmoded?) && s.direct {
          if dir[temp].files == s.files {
            // the error of the last chmod of the copy is dropped
            dir := dir[temp := Version(if e.Go? then s.mode else dir[temp].mode, dir[temp].files)];
            return Ok, m;
          }
        } else {
          assert m.proc == Return(before.proc, Failed);
          return Err, m;
        }
      }
      return Dead, m;
    }

    /** The deferred calls, last registered first; their failures are ignored. */
    method RunDeferred(undo: seq<Undo>, n: Name, temp: Name, ghost m0: State, ghost goal: State)
      returns (r: Call, ghost m: State)
      requires InStep(m0, goal) && m0.proc.undo == undo && m0.proc.temp == temp
      requires m0.proc.src.Some? && m0.proc.src.value.name == n
      requires m0.proc.phase == if undo == [] then Done else Unwind
      modifies this
      ensures InStep(m, goal) && m.proc.outcome == m0.proc.outcome
      ensures r.Dead? ==> goal == m && !m.proc.phase.Done?
      ensures !r.Dead? ==> m.proc.phase.Done?
    {
      m := m0;
      var stack := undo;
      while stack != []
        invariant InStep(m, goal) && m.proc.outcome == m0.proc.outcome
        invariant m.proc.undo == stack && m.proc.temp == temp
        invariant m.proc.src == m0.proc.src
        invariant m.proc.phase == if stack == [] then Done else Unwind
        decreases |stack|, |ahead|
      {
        if ahead == [] { return Dead, m; }
        var e := ahead[0];
        var top := stack[|stack| - 1];
        ghost var next := Step(m, e);
        if top.RemoveTemp? && e.Trim? && temp in dir && dir[temp].Version? {
          // RemoveAll has deleted one item and goes on
          ahead := ahead[1..];
          dir := dir[temp := Version(dir[temp].mode, dir[temp].files - {e.path})];
        } else {
          stack := stack[..|stack| - 1];
          match top {
            case RemoveLink => var _, _ := RemoveCall(CURRENT_TMP);
            case MoveBack => var _, _ := RenameCall(Old(n), n);
            case RemoveTemp =>
              ahead := ahead[1..];
              if e.Go? && temp in dir { dir := dir - {temp}; }
          }
        }
        m := next;
      }
      return Ok, m;
    }

    /** A return statement of `CopyComponent` after the first deferred call was registered. */
    method Leave(copied: bool, undo: seq<Undo>, n: Name, temp: Name, ghost m: State, ghost goal: State)
      returns (r: Result)
      requires InStep(m, goal) && m.proc.undo == undo && m.proc.temp == temp
      requires m.proc.src.Some? && m.proc.src.value.name == n
      requires m.proc.phase == if undo == [] then Done else Unwind
      requires m.proc.outcome == if copied then Copied else Failed
      modifies this
      ensures dir == goal.dir && r == ResultOf(goal.proc)
    {
      var d, m1 := RunDeferred(undo, n, temp, m, goal);
      if d.Dead? { return Crashed; }
      ExecDone(m1, ahead);
      return Returned(copied, !copied);
    }

    // One method for each phase: the call it makes, and the step of the machine that goes with it.

    method Begin(src: Option<Source>, ghost m: State, ghost goal: State) returns (v: Verdict, ghost next: State)
      requires InStep(m, goal) && m.proc.phase.Begin? && m.proc.src == src && m.proc.undo == []
      modifies this
      ensures InStep(next, goal)
      ensures v.Died? ==> goal == next && next.proc.phase.Begin?
      ensures v.Broken? ==> next.proc == Return(m.proc, Failed)
      ensures v.Same? ==> next.proc == Return(m.proc, Skipped)
      ensures v.Proceed? ==> src.Some? && next.proc == m.proc.(phase := if m.proc.remount then Remounting else MakeLink)
    {
      ghost var e: Event;
      v, e := Compare(src);
      next := if v.Died? then m else Step(m, e);
    }

    method Remount(ghost m: State, ghost goal: State) returns (c: Call, ghost next: State)
      requires InStep(m, goal) && m.proc.phase.Remounting? && m.proc.src.Some?
      modifies this
      ensures InStep(next, goal)
      ensures c.Dead? ==> goal == next && next.proc == m.proc
      ensures c.Err? ==> next.proc == Return(m.proc, Failed)
      ensures c.Ok? ==> next.proc == m.proc.(phase := MakeLink)
    {
      ghost var e: Event;
      c, e := RemountCall();
      next := if c.Dead? then m else Step(m, e);
    }

    method LinkTemp(s: Source, ghost m: State, ghost goal: State) returns (c: Call, ghost next: State)
      requires InStep(m, goal) && m.proc.phase.MakeLink? && m.proc.src == Some(s)
      modifies this
      ensures InStep(next, goal)
      ensures c.Dead? ==> goal == next && next.proc == m.proc
      ensures c.Err? ==> next.proc == Return(m.proc, Failed)
      ensures c.Ok? ==> next.proc == m.proc.(phase := MakeTemp, undo := m.proc.undo + [RemoveLink], pointer := Pending)
    {
      ghost var e: Event;
      c, e := Symlink(s.name, CURRENT_TMP);
      next := if c.Dead? then m else Step(m, e);
    }

    method MakeTempDir(s: Source, ghost m: State, ghost goal: State) returns (c: Call, temp: Name, ghost next: State)
      requires InStep(m, goal) && m.proc.phase.MakeTemp? && m.proc.src == Some(s)
      modifies this
      ensures InStep(next, goal)
      ensures c.Dead? ==> goal == next && next.proc == m.proc
      ensures c.Err? ==> next.proc == Return(m.proc, Failed)
      ensures c.Ok? ==>
        && next.proc.phase.Copying? && next.proc.src == m.proc.src && next.proc.temp == temp
        && next.proc.undo == m.proc.undo + [RemoveTemp] && temp in dir && dir[temp].Version?
    {
      ghost var e: Event;
      c, temp, e := TempDir(s.name);
      next := if c.Dead? then m else Step(m, e);
    }

    /** What stands at the destination, if anything, is moved aside or removed. */
    method ClearDestination(s: Source, ghost m: State, ghost goal: State)
      returns (c: Call, moved: bool, ghost next: State)
      requires InStep(m, goal) && m.proc.phase.Inspect? && m.proc.src == Some(s)
      modifies this
      ensures InStep(next, goal)
      ensures c.Dead? ==>
        goal == next && (next.proc.phase.Inspect? || next.proc.phase.MoveAside? || next.proc.phase.DropFile?)
      ensures next.proc.src == m.proc.src && next.proc.temp == m.proc.temp
      ensures c.Err? ==> next.proc.undo == m.proc.undo && next.proc == Return(next.proc, Failed)
      ensures c.Ok? ==> next.proc.phase.Install? && next.proc.undo == m.proc.undo + (if moved then [MoveBack] else [])
    {
      var info;
      ghost var e: Event;
      c, info, e := StatCall(s.name);
      next, moved := m, false;
      if c.Dead? { return; }
      next := Step(m, e);
      assert InStep(next, goal);
      if c.Ok? && info.IsDir? {
        c, e := RenameCall(s.name, Old(s.name));
        if !c.Dead? { moved, next := c.Ok?, Step(next, e); }
      } else if c.Ok? && info.NotDir? {
        c, e := RemoveCall(s.name);
        if !c.Dead? { c, next := Ok, Step(next, e); }
      } else {
        c := Ok;
      }
    }

    method PlaceVersion(s: Source, temp: Name, ghost m: State, ghost goal: State) returns (c: Call, ghost next: State)
      requires InStep(m, goal) && m.proc.phase.Install? && m.proc.src == Some(s) && m.proc.temp == temp
      modifies this
      ensures InStep(next, goal)
      ensures c.Dead? ==> goal == next && next.proc == m.proc
      ensures c.Err? ==> next.proc == Return(m.proc, Failed)
      ensures c.Ok? ==> next.proc == m.proc.(phase := Chmod, slot := m.proc.staging, staging := None)
    {
      ghost var e: Event;
      c, e := RenameCall(temp, s.name);
      next := if c.Dead? then m else Step(m, e);
    }

    // The three calls whose failure is only logged.

    method SetMode(s: Source, ghost m: State, ghost goal: State) returns (c: Call, ghost next: State)
      requires InStep(m, goal) && m.proc.phase.Chmod? && m.proc.src == Some(s)
      modifies this
      ensures InStep(next, goal)
      ensures next.proc.src == m.proc.src && next.proc.temp == m.proc.temp && next.proc.undo == m.proc.undo
      ensures c.Dead? ==> goal == next && next.proc == m.proc
      ensures !c.Dead? ==> next.proc.phase.DropPrevious?
    {
      ghost var e: Event;
      c, e := ChmodCall(s.name, s.mode);
      next := if c.Dead? then m else Step(m, e);
    }

    method RemovePrevious(s: Source, ghost m: State, ghost goal: State) returns (c: Call, ghost next: State)
      requires InStep(m, goal) && m.proc.phase.DropPrevious? && m.proc.src == Some(s)
      modifies this
      ensures InStep(next, goal)
      ensures next.proc.src == m.proc.src && next.proc.temp == m.proc.temp && next.proc.undo == m.proc.undo
      ensures c.Dead? ==> goal == next && next.proc == m.proc
      ensures !c.Dead? ==> next.proc.phase.KeepPrevious?
    {
      ghost var e: Event;
      c, e := RemoveCall(PREVIOUS);
      next := if c.Dead? then m else Step(m, e);
    }

    method RecordPrevious(s: Source, ghost m: State, ghost goal: State) returns (c: Call, ghost next: State)
      requires InStep(m, goal) && m.proc.phase.KeepPrevious? && m.proc.src == Some(s)
      modifies this
      ensures InStep(next, goal)
      ensures next.proc.src == m.proc.src && next.proc.temp == m.proc.temp && next.proc.undo == m.proc.undo
      ensures c.Dead? ==> goal == next && next.proc == m.proc
      ensures !c.Dead? ==> next.proc.phase.Switch?
    {
      ghost var e: Event;
      c, e := CopyPointer();
      next := if c.Dead? then m else Step(m, e);
    }

    method SwitchPointer(ghost m: State, ghost goal: State) returns (c: Call, ghost next: State)
      requires InStep(m, goal) && m.proc.phase.Switch? && m.proc.src.Some?
      modifies this
      ensures InStep(next, goal)
      ensures c.Dead? ==> goal == next && next.proc == m.proc
      ensures c.Err? ==> next.proc == Return(m.proc, Failed)
      ensures c.Ok? ==> next.proc == Return(m.proc.(pointer := Switched), Copied)
    {
      ghost var e: Event;
      c, e := RenameCall(CURRENT_TMP, CURRENT);
      next := if c.Dead? then m else Step(m, e);
    }

    /**
     `CopyComponent` from the directory `from`: the directory it leaves and what it returns are those of the
     machine for the same events; a list of events that ends early is a process that died there.
     */
    method CopyComponent(from: Dir, remount: bool) returns (r: Result)
      modifies this
      ensures dir == Exec(Start(old(dir), SourceOf(from), remount), old(ahead)).dir
      ensures r == ResultOf(Exec(Start(old(dir), SourceOf(from), remount), old(ahead)).proc)
    {
      var src := SourceOf(from);
      ghost var m := Start(dir, src, remount);
      ghost var goal := Exec(m, ahead);
      r := Upgrade(src, remount, m, goal);
    }

    method Upgrade(src: Option<Source>, remount: bool, ghost m0: State, ghost goal: State) returns (r: Result)
      requires InStep(m0, goal) && m0.proc == Start(dir, src, remount).proc
      modifies this
      ensures dir == goal.dir && r == ResultOf(goal.proc)
    {
      var v, m := Begin(src, m0, goal);
      if v.Died? { return Crashed; }
      if v.Broken? { ExecDone(m, ahead); return Returned(false, true); }
      if v.Same? { ExecDone(m, ahead); return Returned(false, false); }
      var s := src.value;
      var c: Call;
      if remount {
        c, m := Remount(m, goal);
        if c.Dead? { return Crashed; }
        if c.Err? { r := Leave(false, [], s.name, "", m, goal); return; }
      }
      c, m := LinkTemp(s, m, goal);
      if c.Dead? { return Crashed; }
      if c.Err? { r := Leave(false, [], s.name, "", m, goal); return; }
      var undo := [RemoveLink];
      var temp: Name;
      c, temp, m := MakeTempDir(s, m, goal);
      if c.Dead? { return Crashed; }
      if c.Err? { r := Leave(false, undo, s.name, "", m, goal); return; }
      undo := undo + [RemoveTemp];
      r := Replace(s, temp, undo, m, goal);
    }

    /** `CopyComponent` from copy.Copy on. */
    method Replace(s: Source, temp: Name, undo0: seq<Undo>, ghost m0: State, ghost goal: State) returns (r: Result)
      requires InStep(m0, goal) && m0.proc.phase.Copying? && m0.proc.src == Some(s) && m0.proc.temp == temp
      requires m0.proc.undo == undo0 && undo0 != [] && temp in dir && dir[temp].Version?
      modifies this
      ensures dir == goal.dir && r == ResultOf(goal.proc)
    {
      var undo := undo0;
      var c, m := CopyFiles(s, temp, m0, goal);
      if c.Dead? { return Crashed; }
      if c.Err? { r := Leave(false, undo, s.name, temp, m, goal); return; }
      var moved;
      c, moved, m := ClearDestination(s, m, goal);
      if c.Dead? { return Crashed; }
      if c.Err? { r := Leave(false, undo, s.name, temp, m, goal); return; }
      if moved { undo := undo + [MoveBack]; }
      c, m := PlaceVersion(s, temp, m, goal);
      if c.Dead? { return Crashed; }
      if c.Err? { r := Leave(false, undo, s.name, temp, m, goal); return; }
      r := Finish(s, temp, undo, m, goal);
    }

    /** `CopyComponent` once the new version is in place. */
    method Finish(s: Source, temp: Name, undo: seq<Undo>, ghost m0: State, ghost goal: State) returns (r: Result)
      requires InStep(m0, goal) && m0.proc.phase.Chmod? && m0.proc.src == Some(s) && m0.proc.temp == temp
      requires m0.proc.undo == undo && undo != []
      modifies this
      ensures dir == goal.dir && r == ResultOf(goal.proc)
    {
      var c, m := SetMode(s, m0, goal);
      if c.Dead? { return Crashed; }
      c, m := RemovePrevious(s, m, goal);
      if c.Dead? { return Crashed; }
      c, m := RecordPrevious(s, m, goal);
      if c.Dead? { return Crashed; }
      c, m := SwitchPointer(m, goal);
      if c.Dead? { return Crashed; }
      r := Leave(c.Ok?, undo, s.name, temp, m, goal);
    }
  }
}
