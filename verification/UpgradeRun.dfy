/** `Run` of the `upgrade` sub-command: the lock, the components in their order, the remount flag, sync and reboot. */
module UpgradeRun {
  import opened Basics
  import opened ComponentDir
  import opened CopyMachine
  import opened CopyLayout
  import opened CopySafety
  import opened CopyOutcome
  import opened CopyComponent

  /** One selected component: its directory, the one it is copied from, and how its calls will turn out. */
  datatype Task = Task(dir: Dir, from: Dir, events: seq<Event>)

  /** One call of `CopyComponent` that was made. */
  datatype Made = Made(dir: Dir, remount: bool, result: Result)

  function Call(t: Task, remount: bool): Made {
    var st := Exec(Start(t.dir, SourceOf(t.from), remount), t.events);
    Made(st.dir, remount, ResultOf(st.proc))
  }

  /** The calls for a list of components: the flag falls with the first copy, and death ends them. */
  function RunSpec(todo: seq<Task>, remount: bool): (r: seq<Made>)
    ensures |r| <= |todo|
    decreases |todo|
  {
    if todo == [] then []
    else
      var d := Call(todo[0], remount);
      if d.result.Crashed? then [d]
      else [d] + RunSpec(todo[1..], remount && !d.result.copied)
  }

  lemma FirstCall(t: Task, rest: seq<Task>, remount: bool)
    ensures var d := Call(t, remount);
      RunSpec([t] + rest, remount) == if d.result.Crashed? then [d]
        else [d] + RunSpec(rest, remount && !d.result.copied)
  {
    assert ([t] + rest)[1..] == rest;
  }

  lemma FirstCallAfter(r: seq<Made>, t: Task, rest: seq<Task>, remount: bool)
    ensures var d := Call(t, remount);
      r + RunSpec([t] + rest, remount)
      == if d.result.Crashed? then r + [d] else r + [d] + RunSpec(rest, remount && !d.result.copied)
  {
    FirstCall(t, rest, remount);
    var d := Call(t, remount);
    if !d.result.Crashed? {
      var more := RunSpec(rest, remount && !d.result.copied);
      assert r + ([d] + more) == r + [d] + more;
    }
  }

  predicate Alive(r: seq<Made>) {
    forall i :: 0 <= i < |r| ==> !r[i].result.Crashed?
  }

  predicate SomeCopied(r: seq<Made>) {
    exists i :: 0 <= i < |r| && r[i].result.Returned? && r[i].result.copied
  }

  lemma OneMore(r: seq<Made>, d: Made)
    requires Alive(r)
    ensures Alive(r + [d]) <==> !d.result.Crashed?
    ensures SomeCopied(r + [d]) <==> SomeCopied(r) || (d.result.Returned? && d.result.copied)
    ensures r <= r + [d] && (r + [d])[|r|] == d
  {
    assert (r + [d])[|r|] == d && forall i :: 0 <= i < |r| ==> (r + [d])[i] == r[i];
  }

  /** No remount is asked for once a component has been copied. */
  lemma {:induction false} NoRemountAfterCopy(todo: seq<Task>, remount: bool, i: nat, j: nat)
    requires i < j < |RunSpec(todo, remount)|
    ensures RunSpec(todo, remount)[i].result.Returned?
    ensures RunSpec(todo, remount)[i].result.copied ==> !RunSpec(todo, remount)[j].remount
    ensures RunSpec(todo, remount)[j].remount ==> remount
    decreases |todo|
  {
    var r := RunSpec(todo, remount);
    var d := Call(todo[0], remount);
    var rest := RunSpec(todo[1..], remount && !d.result.copied);
    assert r == [d] + rest;
    FlagFalls(todo[1..], remount && !d.result.copied, j - 1);
    if i > 0 { NoRemountAfterCopy(todo[1..], remount && !d.result.copied, i - 1, j - 1); }
  }

  /** None of the first calls has copied anything. */
  predicate NoneCopied(r: seq<Made>, i: nat) {
    forall k :: 0 <= k < i && k < |r| ==> !(r[k].result.Returned? && r[k].result.copied)
  }

  lemma NoneCopiedMore(d: Made, q: seq<Made>, i: nat)
    requires i < |q| && d.result.Returned?
    ensures NoneCopied([d] + q, i + 1) <==> !d.result.copied && NoneCopied(q, i)
  {
    var r := [d] + q;
    assert r[0] == d && forall k :: 0 <= k < |q| ==> r[k + 1] == q[k];
    if NoneCopied(r, i + 1) {
      forall k | 0 <= k < i
        ensures !(q[k].result.Returned? && q[k].result.copied)
      {
        assert r[k + 1] == q[k];
      }
    }
  }

  /**
   The list of calls in its own terms: each is the call for its task, and a remount is asked for as long as
   nothing has been copied.
   */
  lemma {:induction false} RunSpecMeans(todo: seq<Task>, remount: bool, i: nat)
    requires i < |RunSpec(todo, remount)|
    ensures var r := RunSpec(todo, remount);
      r[i] == Call(todo[i], r[i].remount) && (r[i].remount <==> remount && NoneCopied(r, i))
    decreases |todo|
  {
    if i > 0 {
      var d := Call(todo[0], remount);
      var flag := remount && !d.result.copied;
      RunSpecMeans(todo[1..], flag, i - 1);
      NoneCopiedMore(d, RunSpec(todo[1..], flag), i - 1);
    }
  }

  /** It is cut short only by the call in which the process dies. */
  lemma {:induction false} RunSpecEnds(todo: seq<Task>, remount: bool)
    ensures var r := RunSpec(todo, remount);
      && (forall i :: 0 <= i < |r| - 1 ==> r[i].result.Returned?)
      && (|r| == |todo| || (r != [] && r[|r| - 1].result.Crashed?))
    decreases |todo|
  {
    if todo != [] {
      var d := Call(todo[0], remount);
      if !d.result.Crashed? { RunSpecEnds(todo[1..], remount && !d.result.copied); }
    }
  }

  /** What the two results of a call mean. */
  lemma ReturnsMean(t: Task, remount: bool)
    requires SourceOf(t.from).Some? ==> ProperSource(SourceOf(t.from).value)
    ensures var c := Call(t, remount); var src := SourceOf(t.from);
      && (c.result == Returned(true, false) ==>
            src.Some? && StatVersion(c.dir) == Some(src.value.name) && Current(c.dir) == Some(src.value.files))
      && (c.result == Returned(false, false) ==>
            src.Some? && c.dir == t.dir && StatVersion(t.dir) == Some(src.value.name))
      && c.result != Returned(true, true)
      && (src.Some? && StatVersion(t.dir) == Some(src.value.name) && t.events != []
          && !t.events[0].Blind? && !t.events[0].Fail? ==>
            c.result == Returned(false, false))
      && (src.None? && t.events != [] ==> c.result == Returned(false, true) && c.dir == t.dir)
      && (t.events == [] ==> c.result == Crashed && c.dir == t.dir)
  {
    var src := SourceOf(t.from);
    RunningStart(t.dir, src, remount);
    RunningExec(t.dir, Start(t.dir, src, remount), t.events);
    if Call(t, remount).result == Returned(true, false) {
      SuccessfulSwitch(t.dir, src.value, remount, t.events);
    }
    if src.Some? && StatVersion(t.dir) == Some(src.value.name) && Sees(t.events) {
      Converged(t.dir, src, remount, t.events);
    }
    if src.None? && t.events != [] {
      ExecDone(Step(Start(t.dir, src, remount), t.events[0]), t.events[1..]);
    }
  }

  lemma {:induction false} FlagFalls(todo: seq<Task>, remount: bool, j: nat)
    requires j < |RunSpec(todo, remount)|
    ensures RunSpec(todo, remount)[j].remount ==> remount
    decreases |todo|
  {
    if j > 0 {
      var d := Call(todo[0], remount);
      FlagFalls(todo[1..], remount && !d.result.copied, j - 1);
    }
  }

  /** The directory of a task after a run, which may have ended before it. */
  function Left(todo: seq<Task>, r: seq<Made>, i: nat): Dir
    requires i < |todo|
  {
    if i < |r| then r[i].dir else todo[i].dir
  }

  /** A later run over the same components: its tasks and its flag. */
  datatype Later = Later(todo: seq<Task>, remount: bool)

  /** Each run of `later` works on the directories the one before it left, from the same sources. */
  predicate Follows(todo: seq<Task>, remount: bool, later: seq<Later>)
    decreases |later|
  {
    later != [] ==>
      && |later[0].todo| == |todo|
      && (forall i :: 0 <= i < |todo| ==>
            && later[0].todo[i].dir == Left(todo, RunSpec(todo, remount), i)
            && later[0].todo[i].from == todo[i].from && Sees(later[0].todo[i].events))
      && Follows(later[0].todo, later[0].remount, later[1..])
  }

  /** The first of them, and then the others after it. */
  lemma FollowsMeans(todo: seq<Task>, remount: bool, l: Later, rest: seq<Later>)
    ensures Follows(todo, remount, [l] + rest) <==>
      && |l.todo| == |todo|
      && (forall i :: 0 <= i < |todo| ==>
            && l.todo[i].dir == (if i < |RunSpec(todo, remount)| then RunSpec(todo, remount)[i].dir else todo[i].dir)
            && l.todo[i].from == todo[i].from
            && (l.todo[i].events != [] ==> !l.todo[i].events[0].Blind?))
      && Follows(l.todo, l.remount, rest)
    ensures Follows(todo, remount, [])
  {
    assert ([l] + rest)[1..] == rest;
  }

  /** Every task's directory stands at the version of its source. */
  predicate Settled(todo: seq<Task>) {
    forall i :: 0 <= i < |todo| ==>
      SourceOf(todo[i].from).Some? && StatVersion(todo[i].dir) == Some(SourceOf(todo[i].from).value.name)
  }

  predicate Unblinded(todo: seq<Task>) {
    forall i :: 0 <= i < |todo| ==> Sees(todo[i].events)
  }

  lemma SucceededIsCurrent(t: Task, remount: bool)
    requires Call(t, remount).result.Returned? && !Call(t, remount).result.failed
    requires SourceOf(t.from).Some? ==> ProperSource(SourceOf(t.from).value)
    ensures SourceOf(t.from).Some? && StatVersion(Call(t, remount).dir) == Some(SourceOf(t.from).value.name)
  {
    RunningStart(t.dir, SourceOf(t.from), remount);
    RunningExec(t.dir, Start(t.dir, SourceOf(t.from), remount), t.events);
    if Call(t, remount).result.copied {
      SuccessfulSwitch(t.dir, SourceOf(t.from).value, remount, t.events);
    }
  }

  lemma {:induction false} QuietRun(todo: seq<Task>, remount: bool)
    requires Settled(todo) && Unblinded(todo)
    ensures !SomeCopied(RunSpec(todo, remount))
    ensures forall i :: 0 <= i < |RunSpec(todo, remount)| ==> RunSpec(todo, remount)[i].dir == todo[i].dir
    decreases |todo|
  {
    if todo != [] {
      var t := todo[0];
      Converged(t.dir, SourceOf(t.from), remount, t.events);
      var d := Call(t, remount);
      if d.result.Returned? { QuietRun(todo[1..], remount); }
    }
  }

  /** The k-th later run copied nothing, and left every directory it came to as `dirs` has it. */
  predicate Quiet(l: Later, dirs: seq<Dir>) {
    && !SomeCopied(RunSpec(l.todo, l.remount)) && |l.todo| == |dirs|
    && (forall i :: 0 <= i < |dirs| ==> l.todo[i].dir == dirs[i])
    && (forall i :: 0 <= i < |RunSpec(l.todo, l.remount)| ==> RunSpec(l.todo, l.remount)[i].dir == dirs[i])
  }

  lemma QuietNext(todo: seq<Task>, remount: bool, l: Later, dirs: seq<Dir>)
    requires |dirs| == |todo| && Follows(todo, remount, [l])
    requires forall i :: 0 <= i < |todo| ==> Left(todo, RunSpec(todo, remount), i) == dirs[i]
    requires forall i :: 0 <= i < |todo| ==>
      SourceOf(todo[i].from).Some? && StatVersion(dirs[i]) == Some(SourceOf(todo[i].from).value.name)
    ensures Quiet(l, dirs) && forall i :: 0 <= i < |dirs| ==> Left(l.todo, RunSpec(l.todo, l.remount), i) == dirs[i]
  {
    assert [l][0] == l;
    QuietRun(l.todo, l.remount);
  }

  lemma {:induction false} QuietRuns(todo: seq<Task>, remount: bool, later: seq<Later>, dirs: seq<Dir>)
    requires |dirs| == |todo| && Follows(todo, remount, later)
    requires forall i :: 0 <= i < |todo| ==> Left(todo, RunSpec(todo, remount), i) == dirs[i]
    requires forall i :: 0 <= i < |todo| ==>
      SourceOf(todo[i].from).Some? && StatVersion(dirs[i]) == Some(SourceOf(todo[i].from).value.name)
    ensures forall k :: 0 <= k < |later| ==> Quiet(later[k], dirs)
    decreases |later|
  {
    if later != [] {
      var l := later[0];
      QuietNext(todo, remount, l, dirs);
      QuietRuns(l.todo, l.remount, later[1..], dirs);
      forall k | 0 <= k < |later|
        ensures Quiet(later[k], dirs)
      {
        if k > 0 { assert later[k] == later[1..][k - 1]; }
      }
    }
  }

  function DirsOf(r: seq<Made>): (dirs: seq<Dir>)
    ensures |dirs| == |r| && forall i :: 0 <= i < |r| ==> dirs[i] == r[i].dir
  {
    seq(|r|, i requires 0 <= i < |r| => r[i].dir)
  }

  /** Call by call: nothing was copied, and every directory is as it was. */
  lemma QuietMeans(l: Later, dirs: seq<Dir>, i: nat)
    requires Quiet(l, dirs) && i < |RunSpec(l.todo, l.remount)|
    ensures var m := RunSpec(l.todo, l.remount)[i];
      && i < |dirs| && m.dir == dirs[i]
      && (m.result == Crashed || m.result == Returned(false, false) || m.result == Returned(false, true))
  {}

  /**
   After a run in which every selected component succeeded, no later run from the same sources copies
   anything or changes an entry, however many there are and wherever they are cut off.
   */
  lemma UpgradesConverge(todo: seq<Task>, remount: bool, later: seq<Later>)
    requires forall i :: 0 <= i < |todo| && SourceOf(todo[i].from).Some? ==> ProperSource(SourceOf(todo[i].from).value)
    requires |RunSpec(todo, remount)| == |todo| && Follows(todo, remount, later)
    requires forall i :: 0 <= i < |todo| ==>
      RunSpec(todo, remount)[i].result == Returned(true, false)
      || RunSpec(todo, remount)[i].result == Returned(false, false)
    ensures forall k :: 0 <= k < |later| ==> Quiet(later[k], DirsOf(RunSpec(todo, remount)))
    ensures forall k, i :: 0 <= k < |later| && 0 <= i < |RunSpec(later[k].todo, later[k].remount)| ==>
      var m := RunSpec(later[k].todo, later[k].remount)[i];
      && i < |RunSpec(todo, remount)| && m.dir == RunSpec(todo, remount)[i].dir
      && (m.result == Crashed || m.result == Returned(false, false) || m.result == Returned(false, true))
  {
    var dirs := DirsOf(RunSpec(todo, remount));
    forall i | 0 <= i < |todo|
      ensures SourceOf(todo[i].from).Some? && StatVersion(dirs[i]) == Some(SourceOf(todo[i].from).value.name)
    {
      var flag := EachIsACopyComponent(todo, remount, i);
      SucceededIsCurrent(todo[i], flag);
    }
    QuietRuns(todo, remount, later, dirs);
    forall k, i | 0 <= k < |later| && 0 <= i < |RunSpec(later[k].todo, later[k].remount)|
      ensures var m := RunSpec(later[k].todo, later[k].remount)[i];
        && i < |RunSpec(todo, remount)| && m.dir == RunSpec(todo, remount)[i].dir
        && (m.result == Crashed || m.result == Returned(false, false) || m.result == Returned(false, true))
    {
      QuietMeans(later[k], dirs, i);
    }
  }

  lemma {:induction false} EachIsACopyComponent(todo: seq<Task>, remount: bool, i: nat) returns (flag: bool)
    requires i < |RunSpec(todo, remount)|
    ensures RunSpec(todo, remount)[i] == Call(todo[i], flag)
    decreases |todo|
  {
    if i == 0 {
      flag := remount;
    } else {
      var d := Call(todo[0], remount);
      flag := EachIsACopyComponent(todo[1..], remount && !d.result.copied, i - 1);
    }
  }

  function Count(b: bool): nat {
    if b then 1 else 0
  }

  function Selected(b: bool, t: Task): seq<Task> {
    if b then [t] else []
  }

  datatype Flags = Flags(k3os: bool, k3s: bool, kernel: bool, sync: bool, reboot: bool)

  datatype Ending = Fatal | Killed | Ended(synced: bool, rebootAsked: bool)

  class Upgrade {
    var doRemount: bool
    var made: seq<Made>   // the calls of CopyComponent so far

    constructor (remount: bool)
      ensures doRemount == remount && made == []
    {
      doRemount, made := remount, [];
    }

    /** The block that `Run` has for each component; `todo` and `rest` are the tasks from this one on and after it. */
    method Component(selected: bool, dst: Destination, from: Dir, copiedBefore: bool,
                     ghost todo: seq<Task>, ghost rest: seq<Task>, ghost goal: seq<Made>)
      returns (copied: bool, dead: bool)
      requires todo == Selected(selected, Task(dst.dir, from, dst.ahead)) + rest
      requires goal == made + RunSpec(todo, doRemount)
      requires copiedBefore == SomeCopied(made) && Alive(made)
      modifies this, dst
      ensures |made| == |old(made)| + Count(selected) && old(made) <= made
      ensures dst.dir == if selected then made[|old(made)|].dir else old(dst.dir)
      ensures dead ==> made == goal && !Alive(made)
      ensures !dead ==> goal == made + RunSpec(rest, doRemount) && copied == SomeCopied(made) && Alive(made)
    {
      copied, dead := copiedBefore, false;
      if selected {
        var flag := doRemount;
        ghost var was := made;
        FirstCallAfter(was, Task(dst.dir, from, dst.ahead), rest, flag);
        var r := dst.CopyComponent(from, flag);
        var d := Made(dst.dir, flag, r);
        made := made + [d];
        OneMore(was, d);
        if r.Crashed? {
          dead := true;
        } else if r.copied {
          copied, doRemount := true, false;
        }
      } else {
        assert todo == rest;
      }
    }

    /**
     `Run`. The roots are found to be directories or not, and flock says whether the lock is free;
     the calls made are those of the specification, in the order k3os, k3s, kernel, and a reboot
     is asked for only after a copy.
     */
    method Run(rootsOk: bool, lockFree: bool, f: Flags,
               k3os: Destination, k3s: Destination, kernel: Destination,
               fromK3os: Dir, fromK3s: Dir, fromKernel: Dir) returns (e: Ending)
      requires k3os != k3s && k3s != kernel && kernel != k3os && made == []
      modifies this, k3os, k3s, kernel
      ensures !rootsOk || !lockFree ==>
        e.Fatal? && made == [] && k3os.dir == old(k3os.dir) && k3s.dir == old(k3s.dir) && kernel.dir == old(kernel.dir)
      ensures rootsOk && lockFree ==>
        made == RunSpec(Selected(f.k3os, Task(old(k3os.dir), fromK3os, old(k3os.ahead)))
                      + (Selected(f.k3s, Task(old(k3s.dir), fromK3s, old(k3s.ahead)))
                      + Selected(f.kernel, Task(old(kernel.dir), fromKernel, old(kernel.ahead)))), old(doRemount))
      ensures k3os.dir == if f.k3os && 0 < |made| then made[0].dir else old(k3os.dir)
      ensures var i := Count(f.k3os); k3s.dir == if f.k3s && i < |made| then made[i].dir else old(k3s.dir)
      ensures var i := Count(f.k3os) + Count(f.k3s);
        kernel.dir == if f.kernel && i < |made| then made[i].dir else old(kernel.dir)
      ensures e.Fatal? <==> !rootsOk || !lockFree
      ensures e.Killed? <==> rootsOk && lockFree && !Alive(made)
      ensures e.Ended? <==> rootsOk && lockFree && Alive(made)
      ensures e.Ended? ==> e.synced == (SomeCopied(made) && f.sync) && e.rebootAsked == (SomeCopied(made) && f.reboot)
    {
      if !rootsOk || !lockFree { return Fatal; }
      ghost var todo3 := Selected(f.kernel, Task(kernel.dir, fromKernel, kernel.ahead));
      ghost var todo2 := Selected(f.k3s, Task(k3s.dir, fromK3s, k3s.ahead)) + todo3;
      ghost var todo1 := Selected(f.k3os, Task(k3os.dir, fromK3os, k3os.ahead)) + todo2;
      var copied, dead := Components(f, k3os, k3s, kernel, fromK3os, fromK3s, fromKernel, todo1, todo2, todo3,
        RunSpec(todo1, doRemount));
      if dead { return Killed; }
      return Ended(copied && f.sync, copied && f.reboot);
    }

    /** The three components in their order. */
    method Components(f: Flags, k3os: Destination, k3s: Destination, kernel: Destination,
                      fromK3os: Dir, fromK3s: Dir, fromKernel: Dir,
                      ghost todo1: seq<Task>, ghost todo2: seq<Task>, ghost todo3: seq<Task>, ghost goal: seq<Made>)
      returns (copied: bool, dead: bool)
      requires k3os != k3s && k3s != kernel && kernel != k3os && made == []
      requires todo3 == Selected(f.kernel, Task(kernel.dir, fromKernel, kernel.ahead))
      requires todo2 == Selected(f.k3s, Task(k3s.dir, fromK3s, k3s.ahead)) + todo3
      requires todo1 == Selected(f.k3os, Task(k3os.dir, fromK3os, k3os.ahead)) + todo2
      requires goal == RunSpec(todo1, doRemount)
      modifies this, k3os, k3s, kernel
      ensures made == goal && (dead <==> !Alive(made))
      ensures k3os.dir == if f.k3os && 0 < |made| then made[0].dir else old(k3os.dir)
      ensures var i := Count(f.k3os); k3s.dir == if f.k3s && i < |made| then made[i].dir else old(k3s.dir)
      ensures var i := Count(f.k3os) + Count(f.k3s);
        kernel.dir == if f.kernel && i < |made| then made[i].dir else old(kernel.dir)
      ensures !dead ==> copied == SomeCopied(made)
    {
      copied, dead := Component(f.k3os, k3os, fromK3os, false, todo1, todo2, goal);
      if dead { return; }
      copied, dead := Component(f.k3s, k3s, fromK3s, copied, todo2, todo3, goal);
      if dead { return; }
      copied, dead := Component(f.kernel, kernel, fromKernel, copied, todo3, [], goal);
    }
  }
}
