/**
 Any number of `k3os upgrade` processes over one destination, one lock file, and every interleaving
 of their individual system calls. Processes appear, step and die in any order.
 */
module UpgradeWorld {
  import opened Basics
  import opened ComponentDir
  import opened CopyMachine
  import opened CopyLayout
  import opened CopySafety

  datatype Component = K3OS | K3S | Kernel

  type Pid = nat

  /** What one process was asked to do, and the component directories of its source. */
  datatype Job = Job(todo: seq<Component>, sources: map<Component, Dir>, remount: bool)

  datatype Process =
    | Waiting                                                     // has not called flock yet
    | Working(todo: seq<Component>, remount: bool, proc: Proc)    // between flock and exit, busy with todo[0]
    | Exited

  datatype World = World(dirs: map<Component, Dir>, lock: Option<Pid>, procs: map<Pid, Process>, jobs: map<Pid, Job>)

  datatype WorldEvent = Spawn(pid: Pid, job: Job) | Tick(pid: Pid, event: Event) | Kill(pid: Pid)

  function SourceFor(j: Job, c: Component): Option<Source> {
    if c in j.sources then SourceOf(j.sources[c]) else None
  }

  /**
   The process turns to the next component, or unlocks and exits. For a component without a directory
   CopyComponent fails at its first change, which is logged.
   */
  function Turn(w: World, pid: Pid, j: Job, todo: seq<Component>, remount: bool): World
    decreases |todo|
  {
    if todo == [] then w.(lock := None, procs := w.procs[pid := Exited])
    else if todo[0] !in w.dirs then Turn(w, pid, j, todo[1..], remount)
    else
      var start := Start(w.dirs[todo[0]], SourceFor(j, todo[0]), remount);
      w.(lock := Some(pid), procs := w.procs[pid := Working(todo, remount, start.proc)])
  }

  /** One step of one process: the non-blocking exclusive lock, or one call of `CopyComponent`. */
  function TickStep(w: World, pid: Pid, e: Event): World
    requires pid in w.procs && pid in w.jobs
  {
    match w.procs[pid]
    case Exited => w
    case Waiting =>
      if w.lock.None? then Turn(w, pid, w.jobs[pid], w.jobs[pid].todo, w.jobs[pid].remount)
      else w.(procs := w.procs[pid := Exited])
    case Working(todo, remount, p) =>
      if todo == [] || todo[0] !in w.dirs then w
      else if p.phase.Done? then Turn(w, pid, w.jobs[pid], todo[1..], remount && !p.outcome.Copied?)
      else
        var st := Step(State(w.dirs[todo[0]], p), e);
        w.(dirs := w.dirs[todo[0] := st.dir], procs := w.procs[pid := Working(todo, remount, st.proc)])
  }

  function WorldStep(w: World, we: WorldEvent): World {
    match we
    case Spawn(pid, job) =>
      if pid in w.procs then w else w.(procs := w.procs[pid := Waiting], jobs := w.jobs[pid := job])
    case Tick(pid, e) =>
      if pid in w.procs && pid in w.jobs then TickStep(w, pid, e) else w
    case Kill(pid) =>
      if pid in w.procs
      then w.(procs := w.procs[pid := Exited], lock := if w.lock == Some(pid) then None else w.lock)
      else w
  }

  function WorldExec(w: World, es: seq<WorldEvent>): World
    decreases |es|
  {
    if es == [] then w else WorldExec(WorldStep(w, es[0]), es[1..])
  }

  predicate ProperJob(j: Job) {
    forall c :: c in j.sources && SourceOf(j.sources[c]).Some? ==> ProperSource(SourceOf(j.sources[c]).value)
  }

  /** When a process begins with a component, the stat of the destination fails only where that does no harm. */
  ghost predicate ProperEvent(w: World, we: WorldEvent) {
    match we
    case Spawn(_, job) => ProperJob(job)
    case Kill(_) => true
    case Tick(pid, e) => pid in w.procs && w.procs[pid].Working? ==> ProperTick(w, w.procs[pid], e)
  }

  ghost predicate ProperTick(w: World, p: Process, e: Event)
    requires p.Working?
  {
    p.todo != [] && p.todo[0] in w.dirs && p.proc.phase.Begin? && p.proc.src.Some? && e.Blind? ==>
      !Exposed(w.dirs[p.todo[0]], p.proc.src.value)
  }

  ghost predicate ProperEvents(w: World, es: seq<WorldEvent>)
    decreases |es|
  {
    es != [] ==> ProperEvent(w, es[0]) && ProperEvents(WorldStep(w, es[0]), es[1..])
  }

  /** What `current` of component `c` gives is what it gave at first or what some process found at its source. */
  predicate CompleteIn(init: map<Component, Dir>, jobs: map<Pid, Job>, c: Component, f: Option<Files>)
    requires c in init
  {
    f == Current(init[c])
    || exists pid :: pid in jobs && SourceFor(jobs[pid], c).Some? && f == Some(SourceFor(jobs[pid], c).value.files)
  }

  predicate DirsOk(init: map<Component, Dir>, dirs: map<Component, Dir>, jobs: map<Pid, Job>) {
    && dirs.Keys == init.Keys
    && forall c :: c in init ==> Healthy(dirs[c]) && CompleteIn(init, jobs, c, Current(dirs[c]))
  }

  /** At most one process is between taking the lock and exiting, and the lock is its. */
  predicate Exclusive(w: World) {
    && (w.lock.Some? ==> w.lock.value in w.procs && w.procs[w.lock.value].Working?)
    && (forall pid :: pid in w.procs && w.procs[pid].Working? ==> w.lock == Some(pid))
  }

  /** `st` is a run from the healthy directory `d0` that cannot break it. */
  ghost predicate SafeRun(init: map<Component, Dir>, jobs: map<Pid, Job>, c: Component, d0: Dir, st: State)
    requires c in init
  {
    && Healthy(d0) && Running(d0, st) && CompleteIn(init, jobs, c, Current(d0))
    && (st.proc.src.Some? ==>
          && ProperSource(st.proc.src.value)
          && CompleteIn(init, jobs, c, Some(st.proc.src.value.files))
          && (Exposed(d0, st.proc.src.value) ==> st.dir == d0 && (st.proc.phase.Begin? || st.proc.phase.Done?)))
  }

  ghost predicate WorkersOk(init: map<Component, Dir>, w: World) {
    forall pid :: pid in w.procs && w.procs[pid].Working? ==>
      && w.procs[pid].todo != [] && w.procs[pid].todo[0] in w.dirs && w.procs[pid].todo[0] in init
      && exists d0 :: SafeRun(init, w.jobs, w.procs[pid].todo[0], d0,
           State(w.dirs[w.procs[pid].todo[0]], w.procs[pid].proc))
  }

  ghost predicate Invariant(init: map<Component, Dir>, w: World) {
    && DirsOk(init, w.dirs, w.jobs) && Exclusive(w) && WorkersOk(init, w)
    && (forall pid :: pid in w.procs ==> pid in w.jobs)
    && (forall pid :: pid in w.jobs ==> pid in w.procs && ProperJob(w.jobs[pid]))
  }

  lemma SafeRunStep(init: map<Component, Dir>, jobs: map<Pid, Job>, c: Component, d0: Dir, st: State, e: Event)
    requires c in init && SafeRun(init, jobs, c, d0, st)
    requires st.proc.phase.Begin? && st.proc.src.Some? && e.Blind? ==> !Exposed(d0, st.proc.src.value)
    ensures SafeRun(init, jobs, c, d0, Step(st, e))
    ensures Healthy(Step(st, e).dir) && CompleteIn(init, jobs, c, Current(Step(st, e).dir))
  {
    RunningStep(d0, st, e);
    StepSource(st, e);
    var next := Step(st, e);
    if st.proc.src.Some? {
      var s := st.proc.src.value;
      if Exposed(d0, s) {
        HealthyStat(d0);
      } else {
        RunningIntact(d0, s, next);
      }
    }
  }

  /** At its first step a run has changed nothing. */
  lemma BeginsUnchanged(d0: Dir, st: State)
    requires Running(d0, st) && st.proc.phase.Begin?
    ensures st.dir == d0
  {}

  /** Nobody but `pid` is at work, and everything else is in order. */
  ghost predicate Free(init: map<Component, Dir>, w: World, pid: Pid) {
    && DirsOk(init, w.dirs, w.jobs) && pid in w.jobs
    && (forall q :: q in w.procs && w.procs[q].Working? ==> q == pid)
    && (forall q :: q in w.procs <==> q in w.jobs)
    && (forall q :: q in w.jobs ==> ProperJob(w.jobs[q]))
  }

  lemma StartIsSafe(init: map<Component, Dir>, w: World, pid: Pid, c: Component, remount: bool)
    requires Free(init, w, pid) && c in w.dirs
    ensures c in init && SafeRun(init, w.jobs, c, w.dirs[c], Start(w.dirs[c], SourceFor(w.jobs[pid], c), remount))
  {
    RunningStart(w.dirs[c], SourceFor(w.jobs[pid], c), remount);
  }

  lemma ExitWhenFree(init: map<Component, Dir>, w: World, pid: Pid)
    requires Free(init, w, pid)
    ensures Invariant(init, w.(lock := None, procs := w.procs[pid := Exited]))
  {}

  lemma WorkWhenFree(init: map<Component, Dir>, w: World, pid: Pid, todo: seq<Component>, remount: bool, st: State)
    requires Free(init, w, pid) && todo != [] && todo[0] in w.dirs && st.dir == w.dirs[todo[0]]
    requires todo[0] in init && SafeRun(init, w.jobs, todo[0], w.dirs[todo[0]], st)
    ensures Invariant(init, w.(lock := Some(pid), procs := w.procs[pid := Working(todo, remount, st.proc)]))
  {
    var w' := w.(lock := Some(pid), procs := w.procs[pid := Working(todo, remount, st.proc)]);
    OnlyWorker(init, w', pid, w.dirs[todo[0]], st);
    assert Exclusive(w');
  }

  lemma OnlyWorker(init: map<Component, Dir>, w: World, pid: Pid, d0: Dir, st: State)
    requires forall q :: q in w.procs && w.procs[q].Working? ==> q == pid
    requires pid in w.procs && w.procs[pid].Working? && w.procs[pid].proc == st.proc
    requires var todo := w.procs[pid].todo;
      todo != [] && todo[0] in w.dirs && todo[0] in init && w.dirs[todo[0]] == st.dir
    requires SafeRun(init, w.jobs, w.procs[pid].todo[0], d0, st)
    ensures WorkersOk(init, w)
  {
    assert State(w.dirs[w.procs[pid].todo[0]], w.procs[pid].proc) == st;
  }

  lemma {:induction false} TurnKeeps(init: map<Component, Dir>, w: World, pid: Pid, todo: seq<Component>, remount: bool)
    requires Free(init, w, pid)
    ensures Invariant(init, Turn(w, pid, w.jobs[pid], todo, remount))
    decreases |todo|
  {
    if todo == [] {
      ExitWhenFree(init, w, pid);
    } else if todo[0] !in w.dirs {
      TurnKeeps(init, w, pid, todo[1..], remount);
    } else {
      StartIsSafe(init, w, pid, todo[0], remount);
      WorkWhenFree(init, w, pid, todo, remount, Start(w.dirs[todo[0]], SourceFor(w.jobs[pid], todo[0]), remount));
    }
  }

  function Advance(w: World, pid: Pid, st: State): World
    requires pid in w.procs && w.procs[pid].Working? && w.procs[pid].todo != []
  {
    var p := w.procs[pid];
    w.(dirs := w.dirs[p.todo[0] := st.dir], procs := w.procs[pid := Working(p.todo, p.remount, st.proc)])
  }

  lemma AdvanceDirs(init: map<Component, Dir>, w: World, pid: Pid, st: State)
    requires DirsOk(init, w.dirs, w.jobs) && pid in w.procs && w.procs[pid].Working? && w.procs[pid].todo != []
    requires w.procs[pid].todo[0] in init
    requires Healthy(st.dir) && CompleteIn(init, w.jobs, w.procs[pid].todo[0], Current(st.dir))
    ensures DirsOk(init, Advance(w, pid, st).dirs, w.jobs)
  {
    var c := w.procs[pid].todo[0];
    var w' := Advance(w, pid, st);
    assert w'.dirs.Keys == init.Keys;
    forall k | k in init
      ensures Healthy(w'.dirs[k]) && CompleteIn(init, w'.jobs, k, Current(w'.dirs[k]))
    {
      if k != c { assert w'.dirs[k] == w.dirs[k]; }
    }
  }

  lemma AdvanceWorkers(init: map<Component, Dir>, w: World, pid: Pid, st: State, d0: Dir)
    requires Exclusive(w) && WorkersOk(init, w) && pid in w.procs && w.procs[pid].Working?
    requires SafeRun(init, w.jobs, w.procs[pid].todo[0], d0, st)
    ensures WorkersOk(init, Advance(w, pid, st)) && Exclusive(Advance(w, pid, st))
  {
    var c := w.procs[pid].todo[0];
    var w' := Advance(w, pid, st);
    forall q | q in w'.procs && w'.procs[q].Working?
      ensures q == pid
    {
    }
    assert State(w'.dirs[c], w'.procs[pid].proc) == st;
  }

  lemma TickAdvances(w: World, pid: Pid, e: Event)
    requires pid in w.procs && pid in w.jobs && w.procs[pid].Working? && !w.procs[pid].proc.phase.Done?
    requires w.procs[pid].todo != [] && w.procs[pid].todo[0] in w.dirs
    ensures TickStep(w, pid, e) == Advance(w, pid, Step(State(w.dirs[w.procs[pid].todo[0]], w.procs[pid].proc), e))
  {}

  /** The run of the process at work, one step on. */
  lemma WorkerStep(init: map<Component, Dir>, w: World, pid: Pid, e: Event) returns (d0: Dir)
    requires WorkersOk(init, w) && pid in w.procs && w.procs[pid].Working? && ProperTick(w, w.procs[pid], e)
    ensures var c := w.procs[pid].todo[0]; var next := Step(State(w.dirs[c], w.procs[pid].proc), e);
      SafeRun(init, w.jobs, c, d0, next) && Healthy(next.dir) && CompleteIn(init, w.jobs, c, Current(next.dir))
  {
    var c := w.procs[pid].todo[0];
    var st := State(w.dirs[c], w.procs[pid].proc);
    d0 :| SafeRun(init, w.jobs, c, d0, st);
    if st.proc.phase.Begin? { BeginsUnchanged(d0, st); }
    SafeRunStep(init, w.jobs, c, d0, st, e);
  }

  lemma WorkKeeps(init: map<Component, Dir>, w: World, pid: Pid, e: Event)
    requires Invariant(init, w) && pid in w.procs && w.procs[pid].Working? && !w.procs[pid].proc.phase.Done?
      && ProperTick(w, w.procs[pid], e)
    ensures Invariant(init, TickStep(w, pid, e))
  {
    var d0 := WorkerStep(init, w, pid, e);
    var next := Step(State(w.dirs[w.procs[pid].todo[0]], w.procs[pid].proc), e);
    AdvanceDirs(init, w, pid, next);
    AdvanceWorkers(init, w, pid, next, d0);
    TickAdvances(w, pid, e);
  }

  /** One job more leaves every complete content complete. */
  lemma JobsGrow(init: map<Component, Dir>, jobs: map<Pid, Job>, pid: Pid, job: Job, c: Component, f: Option<Files>)
    requires c in init && pid !in jobs && CompleteIn(init, jobs, c, f)
    ensures CompleteIn(init, jobs[pid := job], c, f)
  {
    if f != Current(init[c]) {
      var q :| q in jobs && SourceFor(jobs[q], c).Some? && f == Some(SourceFor(jobs[q], c).value.files);
      assert q in jobs[pid := job] && jobs[pid := job][q] == jobs[q];
    }
  }

  lemma SafeRunGrows(init: map<Component, Dir>, jobs: map<Pid, Job>, pid: Pid, job: Job, c: Component, d0: Dir,
          st: State)
    requires c in init && pid !in jobs && SafeRun(init, jobs, c, d0, st)
    ensures SafeRun(init, jobs[pid := job], c, d0, st)
  {
    JobsGrow(init, jobs, pid, job, c, Current(d0));
    if st.proc.src.Some? { JobsGrow(init, jobs, pid, job, c, Some(st.proc.src.value.files)); }
  }

  lemma WorkersGrow(init: map<Component, Dir>, w: World, pid: Pid, job: Job)
    requires WorkersOk(init, w) && pid !in w.jobs && pid !in w.procs
    ensures WorkersOk(init, w.(procs := w.procs[pid := Waiting], jobs := w.jobs[pid := job]))
  {
    var w' := w.(procs := w.procs[pid := Waiting], jobs := w.jobs[pid := job]);
    forall q | q in w'.procs && w'.procs[q].Working?
      ensures w'.procs[q].todo != [] && w'.procs[q].todo[0] in w'.dirs && w'.procs[q].todo[0] in init
      ensures exists d0 :: SafeRun(init, w'.jobs, w'.procs[q].todo[0], d0,
        State(w'.dirs[w'.procs[q].todo[0]], w'.procs[q].proc))
    {
      var c := w.procs[q].todo[0];
      var d0 :| SafeRun(init, w.jobs, c, d0, State(w.dirs[c], w.procs[q].proc));
      SafeRunGrows(init, w.jobs, pid, job, c, d0, State(w.dirs[c], w.procs[q].proc));
    }
  }

  lemma DirsGrow(init: map<Component, Dir>, w: World, pid: Pid, job: Job)
    requires DirsOk(init, w.dirs, w.jobs) && pid !in w.jobs
    ensures DirsOk(init, w.dirs, w.jobs[pid := job])
  {
    forall c | c in init
      ensures CompleteIn(init, w.jobs[pid := job], c, Current(w.dirs[c]))
    {
      JobsGrow(init, w.jobs, pid, job, c, Current(w.dirs[c]));
    }
  }

  lemma SpawnKeeps(init: map<Component, Dir>, w: World, pid: Pid, job: Job)
    requires Invariant(init, w) && ProperJob(job) && pid !in w.procs
    ensures Invariant(init, WorldStep(w, Spawn(pid, job)))
  {
    WorkersGrow(init, w, pid, job);
    DirsGrow(init, w, pid, job);
    assert Exclusive(WorldStep(w, Spawn(pid, job)));
  }

  lemma TickKeeps(init: map<Component, Dir>, w: World, pid: Pid, e: Event)
    requires Invariant(init, w) && pid in w.procs && ProperEvent(w, Tick(pid, e))
    ensures Invariant(init, TickStep(w, pid, e))
  {
    match w.procs[pid]
    case Exited =>
    case Waiting =>
      if w.lock.None? {
        TurnKeeps(init, w, pid, w.jobs[pid].todo, w.jobs[pid].remount);
      } else {
        ExitKeeps(init, w, pid, w.lock);
      }
    case Working(todo, remount, p) =>
      if p.phase.Done? {
        TurnKeeps(init, w, pid, todo[1..], remount && !p.outcome.Copied?);
      } else {
        WorkKeeps(init, w, pid, e);
      }
  }

  lemma ExitKeeps(init: map<Component, Dir>, w: World, pid: Pid, lock: Option<Pid>)
    requires Invariant(init, w) && pid in w.procs && lock == if w.lock == Some(pid) then None else w.lock
    ensures Invariant(init, w.(procs := w.procs[pid := Exited], lock := lock))
  {
    var w' := w.(procs := w.procs[pid := Exited], lock := lock);
    assert DirsOk(init, w'.dirs, w'.jobs) && Exclusive(w');
    forall q | q in w'.procs && w'.procs[q].Working?
      ensures q in w.procs && w.procs[q] == w'.procs[q]
    {
    }
  }

  /** Every step of every process, and every death, keeps the invariant. */
  lemma StepKeeps(init: map<Component, Dir>, w: World, we: WorldEvent)
    requires Invariant(init, w) && ProperEvent(w, we)
    ensures Invariant(init, WorldStep(w, we))
  {
    match we
    case Spawn(pid, job) =>
      if pid !in w.procs { SpawnKeeps(init, w, pid, job); }
    case Tick(pid, e) =>
      if pid in w.procs { TickKeeps(init, w, pid, e); }
    case Kill(pid) =>
      if pid in w.procs { ExitKeeps(init, w, pid, if w.lock == Some(pid) then None else w.lock); }
  }

  lemma {:induction false} ExecKeeps(init: map<Component, Dir>, w: World, es: seq<WorldEvent>)
    requires Invariant(init, w) && ProperEvents(w, es)
    ensures Invariant(init, WorldExec(w, es))
    decreases |es|
  {
    if es != [] {
      StepKeeps(init, w, es[0]);
      ExecKeeps(init, WorldStep(w, es[0]), es[1..]);
    }
  }

  function FirstWorld(dirs: map<Component, Dir>): World {
    World(dirs, None, map[], map[])
  }

  /**
   In every state that any interleaving of any number of upgrades reaches, whichever calls fail and
   whichever processes die, at most one process works on the destination and every component's
   `current` gives access to complete contents; only the stat of the destination must not fail where
   that does harm.
   */
  lemma ConcurrentCrashSafety(dirs: map<Component, Dir>, es: seq<WorldEvent>)
    requires forall c :: c in dirs ==> Healthy(dirs[c])
    requires ProperEvents(FirstWorld(dirs), es)
    ensures var w := WorldExec(FirstWorld(dirs), es);
      && (forall p, q :: p in w.procs && q in w.procs && w.procs[p].Working? && w.procs[q].Working? ==> p == q)
      && w.dirs.Keys == dirs.Keys
      && (forall c :: c in dirs ==> Healthy(w.dirs[c]) && CompleteIn(dirs, w.jobs, c, Current(w.dirs[c])))
    ensures var w := WorldExec(FirstWorld(dirs), es);
      forall c :: c in dirs && c in w.dirs && Current(w.dirs[c]) != Current(dirs[c]) ==>
        exists pid :: pid in w.jobs && c in w.jobs[pid].sources && SourceOf(w.jobs[pid].sources[c]).Some?
          && Current(w.dirs[c]) == Some(SourceOf(w.jobs[pid].sources[c]).value.files)
  {
    ExecKeeps(dirs, FirstWorld(dirs), es);
  }

  /** If that stat never fails, nothing is asked of the interleaving but sources with proper names. */
  lemma {:induction false} SeeingIsProper(w: World, es: seq<WorldEvent>)
    requires forall i :: 0 <= i < |es| ==>
      && (es[i].Spawn? ==> ProperJob(es[i].job))
      && (es[i].Tick? ==> !es[i].event.Blind?)
    ensures ProperEvents(w, es)
    decreases |es|
  {
    if es != [] {
      SeeingIsProper(WorldStep(w, es[0]), es[1..]);
    }
  }
}
