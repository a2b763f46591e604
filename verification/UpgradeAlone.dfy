/** A process that nobody disturbs does in the world of all processes what `Run` does on its own. */
module UpgradeAlone {
  import opened Basics
  import opened ComponentDir
  import opened CopyMachine
  import opened UpgradeWorld
  import Sole = UpgradeRun

  /** These events make the run end, and it does not end before. */
  predicate EndsWith(st: State, es: seq<Event>)
    decreases |es|
  {
    if es == [] then st.proc.phase.Done? else !st.proc.phase.Done? && EndsWith(Step(st, es[0]), es[1..])
  }

  function Ticks(pid: Pid, es: seq<Event>): seq<WorldEvent> {
    if es == [] then [] else [Tick(pid, es[0])] + Ticks(pid, es[1..])
  }

  /** For each component its calls, and one step to turn to the next. */
  function AllTicks(pid: Pid, per: seq<seq<Event>>): seq<WorldEvent> {
    if per == [] then [] else Ticks(pid, per[0]) + [Tick(pid, Go)] + AllTicks(pid, per[1..])
  }

  lemma {:induction false} WorldConcat(w: World, a: seq<WorldEvent>, b: seq<WorldEvent>)
    ensures WorldExec(w, a + b) == WorldExec(WorldExec(w, a), b)
    decreases |a|
  {
    if a == [] {
      assert a + b == b;
    } else {
      assert (a + b)[1..] == a[1..] + b;
      WorldConcat(WorldStep(w, a[0]), a[1..], b);
    }
  }

  predicate AtWork(w: World, pid: Pid, todo: seq<Component>, remount: bool, st: State) {
    && pid in w.procs && pid in w.jobs && todo != [] && todo[0] in w.dirs
    && w.procs[pid] == Working(todo, remount, st.proc) && w.dirs[todo[0]] == st.dir
  }

  /** The calls for one component. */
  lemma {:induction false} TicksRun(w: World, pid: Pid, todo: seq<Component>, remount: bool, st: State, es: seq<Event>)
    requires AtWork(w, pid, todo, remount, st) && EndsWith(st, es)
    ensures var e := Exec(st, es);
      && e.proc.phase.Done?
      && WorldExec(w, Ticks(pid, es))
         == w.(dirs := w.dirs[todo[0] := e.dir], procs := w.procs[pid := Working(todo, remount, e.proc)])
    decreases |es|
  {
    if es == [] {
      assert w.dirs[todo[0] := st.dir] == w.dirs && w.procs[pid := w.procs[pid]] == w.procs;
    } else {
      var next := Step(st, es[0]);
      var w1 := Advance(w, pid, next);
      TickAdvances(w, pid, es[0]);
      TicksRun(w1, pid, todo, remount, next, es[1..]);
      assert Ticks(pid, es)[1..] == Ticks(pid, es[1..]);
      var e := Exec(next, es[1..]);
      assert w1.dirs[todo[0] := e.dir] == w.dirs[todo[0] := e.dir];
      assert w1.procs[pid := Working(todo, remount, e.proc)] == w.procs[pid := Working(todo, remount, e.proc)];
    }
  }

  /** The tasks of `Run` for the same components. */
  function Tasks(dirs: map<Component, Dir>, j: Job, todo: seq<Component>, per: seq<seq<Event>>): seq<Sole.Task>
    requires |todo| == |per| && forall c :: c in todo ==> c in dirs && c in j.sources
  {
    if todo == [] then []
    else [Sole.Task(dirs[todo[0]], j.sources[todo[0]], per[0])] + Tasks(dirs, j, todo[1..], per[1..])
  }

  /** Every component's calls are given to their end. */
  predicate Given(dirs: map<Component, Dir>, j: Job, todo: seq<Component>, per: seq<seq<Event>>, remount: bool)
    decreases |todo|
  {
    && |todo| == |per|
    && (todo != [] ==>
          var c := todo[0];
          && c in dirs && c in j.sources && c !in todo[1..]
          && EndsWith(Start(dirs[c], SourceOf(j.sources[c]), remount), per[0])
          && var copied := Exec(Start(dirs[c], SourceOf(j.sources[c]), remount), per[0]).proc.outcome.Copied?;
             Given(dirs, j, todo[1..], per[1..], remount && !copied))
  }

  lemma {:induction false} GivenThere(dirs: map<Component, Dir>, j: Job, todo: seq<Component>, per: seq<seq<Event>>,
          remount: bool)
    requires Given(dirs, j, todo, per, remount)
    ensures forall c :: c in todo ==> c in dirs && c in j.sources
    decreases |todo|
  {
    if todo != [] {
      var st := Exec(Start(dirs[todo[0]], SourceOf(j.sources[todo[0]]), remount), per[0]);
      GivenThere(dirs, j, todo[1..], per[1..], remount && !st.proc.outcome.Copied?);
      assert forall c :: c in todo <==> c == todo[0] || c in todo[1..];
    }
  }

  /** A change of a component that is not among them makes no difference. */
  lemma {:induction false} GivenElsewhere(dirs: map<Component, Dir>, j: Job, todo: seq<Component>, per: seq<seq<Event>>,
          remount: bool, c: Component, d: Dir)
    requires Given(dirs, j, todo, per, remount) && c !in todo && c in dirs
    ensures Given(dirs[c := d], j, todo, per, remount)
    ensures forall k :: k in todo ==> k in dirs && k in j.sources
    ensures Tasks(dirs[c := d], j, todo, per) == Tasks(dirs, j, todo, per)
    decreases |todo|
  {
    GivenThere(dirs, j, todo, per, remount);
    if todo != [] {
      var st := Exec(Start(dirs[todo[0]], SourceOf(j.sources[todo[0]]), remount), per[0]);
      GivenElsewhere(dirs, j, todo[1..], per[1..], remount && !st.proc.outcome.Copied?, c, d);
    }
  }

  /** The directories after the calls that were made. */
  function After(dirs: map<Component, Dir>, todo: seq<Component>, made: seq<Sole.Made>): map<Component, Dir>
    requires |made| == |todo|
    decreases |todo|
  {
    if todo == [] then dirs else After(dirs[todo[0] := made[0].dir], todo[1..], made[1..])
  }

  lemma {:induction false} AllMade(dirs: map<Component, Dir>, j: Job, todo: seq<Component>, per: seq<seq<Event>>,
          remount: bool)
    requires Given(dirs, j, todo, per, remount)
    ensures forall c :: c in todo ==> c in dirs && c in j.sources
    ensures |Sole.RunSpec(Tasks(dirs, j, todo, per), remount)| == |todo|
    decreases |todo|
  {
    GivenThere(dirs, j, todo, per, remount);
    if todo != [] {
      var st0 := Start(dirs[todo[0]], SourceOf(j.sources[todo[0]]), remount);
      EndsDone(st0, per[0]);
      AllMade(dirs, j, todo[1..], per[1..], remount && !Exec(st0, per[0]).proc.outcome.Copied?);
      var task := Sole.Task(dirs[todo[0]], j.sources[todo[0]], per[0]);
      Sole.FirstCall(task, Tasks(dirs, j, todo[1..], per[1..]), remount);
    }
  }

  lemma {:induction false} EndsDone(st: State, es: seq<Event>)
    requires EndsWith(st, es)
    ensures Exec(st, es).proc.phase.Done?
    decreases |es|
  {
    if es != [] { EndsDone(Step(st, es[0]), es[1..]); }
  }

  /** The first call, and those that follow it in the directories it leaves. */
  lemma FirstMade(dirs: map<Component, Dir>, j: Job, todo: seq<Component>, per: seq<seq<Event>>, remount: bool,
          st: State, flag: bool)
    requires Given(dirs, j, todo, per, remount) && todo != []
    requires st == Exec(Start(dirs[todo[0]], SourceOf(j.sources[todo[0]]), remount), per[0])
    requires flag == (remount && !st.proc.outcome.Copied?)
    ensures Given(dirs[todo[0] := st.dir], j, todo[1..], per[1..], flag)
    ensures forall c :: c in todo ==> c in dirs && c in j.sources
    ensures var rest := Sole.RunSpec(Tasks(dirs[todo[0] := st.dir], j, todo[1..], per[1..]), flag);
      var all := Sole.RunSpec(Tasks(dirs, j, todo, per), remount);
      |rest| == |todo| - 1 && |all| == |todo| && all[0].dir == st.dir && all[1..] == rest
  {
    GivenThere(dirs, j, todo, per, remount);
    AllMade(dirs, j, todo, per, remount);
    EndsDone(Start(dirs[todo[0]], SourceOf(j.sources[todo[0]]), remount), per[0]);
    GivenElsewhere(dirs, j, todo[1..], per[1..], flag, todo[0], st.dir);
    AllMade(dirs[todo[0] := st.dir], j, todo[1..], per[1..], flag);
    Sole.FirstCall(Sole.Task(dirs[todo[0]], j.sources[todo[0]], per[0]), Tasks(dirs, j, todo[1..], per[1..]), remount);
  }

  /** From the moment a process has the lock and has turned to a component. */
  lemma {:induction false} WorksThrough(w: World, pid: Pid, todo: seq<Component>, per: seq<seq<Event>>, remount: bool)
    requires pid in w.procs && pid in w.jobs && Given(w.dirs, w.jobs[pid], todo, per, remount)
    ensures |Sole.RunSpec(Work(w, pid, todo, per, remount), remount)| == |todo|
    ensures WorldExec(Turn(w, pid, w.jobs[pid], todo, remount), AllTicks(pid, per))
      == w.(dirs := After(w.dirs, todo, Sole.RunSpec(Work(w, pid, todo, per, remount), remount)), lock := None,
            procs := w.procs[pid := Exited])
    decreases |todo|
  {
    var j := w.jobs[pid];
    if todo != [] {
      var st := Exec(Start(w.dirs[todo[0]], SourceOf(j.sources[todo[0]]), remount), per[0]);
      var flag := remount && !st.proc.outcome.Copied?;
      var w2 := OneDone(w, pid, todo, remount, st);
      FirstMade(w.dirs, j, todo, per, remount, st, flag);
      OneThenRest(w, pid, todo, per, remount);
      WorksThrough(w2, pid, todo[1..], per[1..], flag);
      assert w2.procs[pid := Exited] == w.procs[pid := Exited];
    }
  }

  /** The world when the run for the first component is over. */
  function OneDone(w: World, pid: Pid, todo: seq<Component>, remount: bool, st: State): World
    requires todo != []
  {
    w.(dirs := w.dirs[todo[0] := st.dir], lock := Some(pid), procs := w.procs[pid := Working(todo, remount, st.proc)])
  }

  lemma OneComponent(w: World, pid: Pid, todo: seq<Component>, per: seq<seq<Event>>, remount: bool)
    requires pid in w.procs && pid in w.jobs && Given(w.dirs, w.jobs[pid], todo, per, remount) && todo != []
    ensures var j := w.jobs[pid];
      var st := Exec(Start(w.dirs[todo[0]], SourceOf(j.sources[todo[0]]), remount), per[0]);
      WorldStep(WorldExec(Turn(w, pid, j, todo, remount), Ticks(pid, per[0])), Tick(pid, Go))
      == Turn(OneDone(w, pid, todo, remount, st), pid, j, todo[1..], remount && !st.proc.outcome.Copied?)
  {
    var j := w.jobs[pid];
    var st0 := Start(w.dirs[todo[0]], SourceOf(j.sources[todo[0]]), remount);
    TicksRun(Turn(w, pid, j, todo, remount), pid, todo, remount, st0, per[0]);
    assert WorldExec(Turn(w, pid, j, todo, remount), Ticks(pid, per[0]))
      == OneDone(w, pid, todo, remount, Exec(st0, per[0]));
  }

  /** One component, and then the rest. */
  lemma OneThenRest(w: World, pid: Pid, todo: seq<Component>, per: seq<seq<Event>>, remount: bool)
    requires pid in w.procs && pid in w.jobs && Given(w.dirs, w.jobs[pid], todo, per, remount) && todo != []
    ensures var j := w.jobs[pid];
      var st := Exec(Start(w.dirs[todo[0]], SourceOf(j.sources[todo[0]]), remount), per[0]);
      WorldExec(Turn(w, pid, j, todo, remount), AllTicks(pid, per))
      == WorldExec(Turn(OneDone(w, pid, todo, remount, st), pid, j, todo[1..], remount && !st.proc.outcome.Copied?),
           AllTicks(pid, per[1..]))
  {
    OneComponent(w, pid, todo, per, remount);
    ThenRest(Turn(w, pid, w.jobs[pid], todo, remount), pid, per);
  }

  function Work(w: World, pid: Pid, todo: seq<Component>, per: seq<seq<Event>>, remount: bool): seq<Sole.Task>
    requires pid in w.jobs && Given(w.dirs, w.jobs[pid], todo, per, remount)
  {
    GivenThere(w.dirs, w.jobs[pid], todo, per, remount);
    Tasks(w.dirs, w.jobs[pid], todo, per)
  }

  lemma ThenRest(w: World, pid: Pid, per: seq<seq<Event>>)
    requires per != []
    ensures WorldExec(w, AllTicks(pid, per))
      == WorldExec(WorldStep(WorldExec(w, Ticks(pid, per[0])), Tick(pid, Go)), AllTicks(pid, per[1..]))
  {
    var a, b := Ticks(pid, per[0]), [Tick(pid, Go)];
    var more := AllTicks(pid, per[1..]);
    assert a + b + more == a + (b + more);
    WorldConcat(w, a, b + more);
    assert (b + more)[1..] == more;
  }

  /**
   A process that finds the lock free and is left alone makes the calls of `Run` for its components, in their
   order and with the same flag for the remount, leaves the directories they leave, and gives the lock back.
   */
  lemma AloneAsRun(w: World, pid: Pid, job: Job, per: seq<seq<Event>>)
    requires w.lock.None? && pid !in w.procs && Given(w.dirs, job, job.todo, per, job.remount)
    ensures forall c :: c in job.todo ==> c in w.dirs && c in job.sources
    ensures var made := Sole.RunSpec(Tasks(w.dirs, job, job.todo, per), job.remount);
      && |made| == |job.todo|
      && WorldExec(w, [Spawn(pid, job), Tick(pid, Go)] + AllTicks(pid, per))
         == World(After(w.dirs, job.todo, made), None, w.procs[pid := Exited], w.jobs[pid := job])
  {
    GivenThere(w.dirs, job, job.todo, per, job.remount);
    var w1 := WorldStep(w, Spawn(pid, job));
    var w2 := WorldStep(w1, Tick(pid, Go));
    assert w2 == Turn(w1, pid, job, job.todo, job.remount);
    WorksThrough(w1, pid, job.todo, per, job.remount);
    var head := [Spawn(pid, job), Tick(pid, Go)];
    WorldConcat(w, head, AllTicks(pid, per));
    assert head[1..] == [Tick(pid, Go)] && head[1..][1..] == [];
    assert WorldExec(w, head) == WorldExec(w1, [Tick(pid, Go)]) == WorldExec(w2, []);
    assert w1.procs[pid := Exited] == w.procs[pid := Exited];
  }

  /**
   While another process has the lock, a process that starts exits and changes nothing; one that dies gives
   it back.
   */
  lemma LockKeepsOut(w: World, pid: Pid, e: Event)
    requires pid in w.procs && pid in w.jobs
    ensures w.procs[pid].Waiting? && w.lock.Some? ==>
      WorldStep(w, Tick(pid, e)) == w.(procs := w.procs[pid := Exited])
    ensures w.lock == Some(pid) ==> WorldStep(w, Kill(pid)) == w.(procs := w.procs[pid := Exited], lock := None)
  {}
}
