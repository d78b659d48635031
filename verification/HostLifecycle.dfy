/** The lifecycle protocol of `HostEnvironment`.

    The event loop runs one task at a time, so the program is a set of atomic sections between
    `await`s.  `Registry` holds the fields the sections share, class `HostEnvironment` updates
    them in place, and `Host` adds the program counters of the running calls and two facts about
    the outside world: which processes are alive and which filesystem workers still run. */
module HostLifecycle {
  type Process = nat
  type Exec = nat        // one call of exec
  type Task = nat        // one termination task
  type Operation = nat   // one filesystem operation

  datatype Option<+T> = None | Some(value: T)
  datatype Outcome = Running | Succeeded | Failed
  datatype Termination = Termination(process: Process, outcome: Outcome)

  /* ------------------------------------------------------------------ the shared fields */

  datatype Registry = Registry(
    started: bool,
    stopping: bool,
    active: set<Process>,
    terminations: map<Process, Task>,
    filesystem: set<Operation>)
  {
    /** Commands and filesystem operations are admitted only between start and stop. */
    predicate Ready() { started && !stopping }

    function Register(p: Process): Registry { this.(active := active + {p}) }

    /** The termination task of `p`: the registered one, or `spare`. */
    function TaskOf(p: Process, spare: Task): Task {
      if p in terminations then terminations[p] else spare
    }

    function Terminate(p: Process, spare: Task): Registry {
      this.(terminations := terminations[p := TaskOf(p, spare)])
    }

    /** Unsuccessful finished terminations are forgotten, so that they are retried. */
    function DropFailed(tasks: map<Task, Termination>): Registry {
      this.(terminations := map p | p in terminations && !IsFailed(tasks, terminations[p]) :: terminations[p])
    }

    function Forget(processes: set<Process>): Registry {
      this.(terminations := terminations - processes)
    }

    /** What a command's `finally` clause does: a termination that did not succeed stays. */
    function Finish(p: Process, tasks: map<Task, Termination>): Registry {
      var settled := p !in terminations || IsSucceeded(tasks, terminations[p]);
      this.(active := active - {p}, terminations := if settled then terminations - {p} else terminations)
    }

    function Tracked(): set<Process> { active + terminations.Keys }
  }

  predicate IsFailed(tasks: map<Task, Termination>, t: Task) { t in tasks && tasks[t].outcome.Failed? }
  predicate IsSucceeded(tasks: map<Task, Termination>, t: Task) { t in tasks && tasks[t].outcome.Succeeded? }

  class HostEnvironment {
    var started: bool
    var stopping: bool
    var active: set<Process>
    var terminations: map<Process, Task>
    var filesystem: set<Operation>

    ghost function View(): Registry
      reads this
    {
      Registry(started, stopping, active, terminations, filesystem)
    }

    constructor ()
      ensures View() == Registry(false, false, {}, map[], {})
    {
      started, stopping := false, false;
      active, terminations, filesystem := {}, map[], {};
    }

    /** `onTask` says that the caller is the initialization task, `cancelled` that startup was cancelled. */
    method RequireCommandReady(initializing: bool, onTask: bool, cancelled: bool) returns (ok: bool)
      ensures ok == if initializing then onTask && !cancelled else View().Ready()
    {
      if initializing {
        return onTask && !cancelled;
      }
      if !started {
        return false;
      }
      if stopping {
        return false;
      }
      return true;
    }

    method AdmitFilesystem(worker: Operation) returns (ok: bool)
      modifies this`filesystem
      ensures ok == old(View().Ready())
      ensures View() == if ok then old(View().(filesystem := View().filesystem + {worker})) else old(View())
    {
      if !started || stopping {
        return false;
      }
      filesystem := filesystem + {worker};
      return true;
    }

    method RegisterProcess(p: Process)
      modifies this`active
      ensures View() == old(View().Register(p))
    {
      active := active + {p};
    }

    method TerminateProcess(p: Process, spare: Task) returns (task: Task)
      modifies this`terminations
      ensures task == old(View().TaskOf(p, spare))
      ensures View() == old(View().Terminate(p, spare))
    {
      if p in terminations {
        task := terminations[p];
        assert terminations == terminations[p := task];
      } else {
        task := spare;
        terminations := terminations[p := task];
      }
    }

    /** The section of `_stop_commands` that holds the launch lock. */
    method SnapshotCommands(tasks: map<Task, Termination>) returns (commands: set<Process>, processes: set<Process>)
      modifies this`terminations
      ensures commands == old(active)
      ensures processes == old(View().Tracked())
      ensures View() == old(View().DropFailed(tasks))
    {
      commands := active;
      processes := active + terminations.Keys;
      ghost var before := terminations;
      var left := terminations.Keys;
      while left != {}
        invariant left <= before.Keys
        invariant terminations == map p | p in before && (p in left || !IsFailed(tasks, before[p])) :: before[p]
        decreases |left|
      {
        var p :| p in left;
        left := left - {p};
        if IsFailed(tasks, terminations[p]) {
          terminations := terminations - {p};
        }
      }
    }

    /** Terminations that were all gathered without an error are dropped one by one. */
    method ForgetSettled(processes: set<Process>)
      modifies this`terminations
      ensures View() == old(View().Forget(processes))
    {
      ghost var before := terminations;
      var left := processes;
      while left != {}
        invariant left <= processes
        invariant terminations == before - (processes - left)
        decreases |left|
      {
        var p :| p in left;
        terminations := terminations - {p};
        left := left - {p};
      }
    }

    /** The `finally` clause of `_exec_process`. */
    method FinishCommand(p: Process, tasks: map<Task, Termination>)
      modifies this`active, this`terminations
      ensures View() == old(View().Finish(p, tasks))
    {
      active := active - {p};
      if p !in terminations {
        assert terminations - {p} == terminations;
      } else if IsSucceeded(tasks, terminations[p]) {
        terminations := terminations - {p};
      }
    }
  }

  /* ------------------------------------------------------------------ the whole program */

  /** Where one exec call stands between two awaits. */
  datatype Pc =
    | Waiting                             // for the launch lock
    | Spawning                            // holds the launch lock
    | Executing(process: Process)
    | Cleaning(process: Process)          // failed or cancelled, termination not yet requested
    | Settling(process: Process, task: Task)
  {
    predicate Owns() { Executing? || Cleaning? || Settling? }
  }
  datatype Call = Call(initializing: bool, pc: Pc)

  /** Who runs `_stop_commands`.  Only `ByStop` runs it as an owned task: when its caller is cancelled, it goes
      on to its end, and then the cancellation is raised. */
  datatype Origin = ByStop(cancelled: bool) | BeforeStart | AfterStartFailed

  /** Where the call that holds the lifecycle lock stands. */
  datatype Phase =
    | Idle
    | Initializing
    | Entering(origin: Origin, delete: bool)      // waiting for the launch lock
    | Terminating(origin: Origin, delete: bool, commands: set<Process>, todo: set<Process>, awaited: map<Process, Task>)
    | Draining(origin: Origin, delete: bool, commands: set<Process>, processes: set<Process>)
    | Flushing(origin: Origin, delete: bool, workers: set<Operation>)
    | Deleting(origin: Origin)
  {
    function Todo(): set<Process> { if Terminating? then todo else {} }
    predicate Stops() { !Idle? && !Initializing? }
  }

  datatype Host = Host(
    reg: Registry,
    workspace: bool,      // an owned workspace exists
    runtimeRoot: bool,    // an owned runtime root exists
    calls: map<Exec, Call>,
    launch: Option<Exec>, // holder of the launch lock
    phase: Phase,
    tasks: map<Task, Termination>,
    spawned: set<Process>,
    alive: set<Process>,
    working: set<Operation>)

  const INITIAL := Host(Registry(false, false, {}, map[], {}), false, false, map[], None, Idle, map[], {}, {}, {})

  /** One atomic section of an exec call. */
  datatype CommandAction =
    | CallExec(e: Exec, initializing: bool)
    | Acquire(e: Exec)
    | Spawned(e: Exec, p: Process)
    | SpawnFails(e: Exec)
    | Abandon(e: Exec)               // cancelled while waiting
    | CommandEnds(e: Exec)           // the process and its streams ended by themselves
    | CommandFails(e: Exec)          // timeout, cancellation, callback error
    | RequestTermination(e: Exec, spare: Task)
    | CleanedUp(e: Exec)

  /** Processes, termination tasks and filesystem operations. */
  datatype WorldAction =
    | Exits(p: Process)
    | TerminationEnds(t: Task, ok: bool)
    | CallFilesystem(o: Operation)
    | WorkerEnds(o: Operation)
    | FilesystemReturns(o: Operation)

  /** Entering and leaving start and stop. */
  datatype LifecycleAction =
    | CallStart
    | WorkspaceCreated
    | InitializationEnds(ok: bool)
    | CallStop(delete: bool)
    | CancelStart                    // the caller of start is cancelled during its own cleanup
    | CancelStop                     // the caller of stop is cancelled

  /** One atomic section of `_stop_commands`. */
  datatype StopAction =
    | Snapshot
    | StopTerminates(p: Process, spare: Task)
    | TerminationsGathered
    | CommandsGathered
    | WorkersGathered
    | DeletionEnds(workspaceGone: bool, rootGone: bool)

  datatype Action =
    | Command(command: CommandAction)
    | World(world: WorldAction)
    | Lifecycle(lifecycle: LifecycleAction)
    | Stop(stop: StopAction)

  function WithCall(s: Host, e: Exec, pc: Pc): Host
    requires e in s.calls
  {
    s.(calls := s.calls[e := s.calls[e].(pc := pc)])
  }

  function WithoutCall(s: Host, e: Exec): Host {
    s.(calls := s.calls - {e})
  }

  predicate CallReady(s: Host, initializing: bool) {
    if initializing then s.phase.Initializing? else s.reg.Ready()
  }

  /** A process gets a new task only if it has none; `spare` must then be unused. */
  predicate CanTerminate(s: Host, p: Process, spare: Task) {
    p in s.reg.terminations || spare !in s.tasks
  }

  function TerminateStep(s: Host, p: Process, spare: Task): Host {
    s.(reg := s.reg.Terminate(p, spare),
       tasks := if p in s.reg.terminations then s.tasks else s.tasks[spare := Termination(p, Running)])
  }

  predicate At(s: Host, e: Exec) { e in s.calls }

  /** The program continues after `_stop_commands` returned normally. */
  function Finished(s: Host, origin: Origin): Host {
    match origin
    case ByStop(cancelled) => s.(reg := s.reg.(stopping := cancelled), phase := Idle)
    case BeforeStart => s.(runtimeRoot := true, phase := Initializing)
    case AfterStartFailed => s.(phase := Idle)
  }

  predicate CommandEnabled(s: Host, a: CommandAction) {
    match a
    case CallExec(e, init) => e !in s.calls && CallReady(s, init)
    case Acquire(e) => At(s, e) && s.calls[e].pc.Waiting? && s.launch.None?
    case Spawned(e, p) => At(s, e) && s.calls[e].pc.Spawning? && p !in s.spawned
    case SpawnFails(e) => At(s, e) && s.calls[e].pc.Spawning?
    case Abandon(e) => At(s, e) && s.calls[e].pc.Waiting?
    case CommandEnds(e) => At(s, e) && s.calls[e].pc.Executing? && s.calls[e].pc.process !in s.alive
    case CommandFails(e) => At(s, e) && s.calls[e].pc.Executing?
    case RequestTermination(e, spare) =>
      At(s, e) && s.calls[e].pc.Cleaning? && CanTerminate(s, s.calls[e].pc.process, spare)
    case CleanedUp(e) =>
      At(s, e) && s.calls[e].pc.Settling? && s.calls[e].pc.task in s.tasks &&
      !s.tasks[s.calls[e].pc.task].outcome.Running?
  }

  function CommandStep(s: Host, a: CommandAction): Host
    requires CommandEnabled(s, a)
  {
    match a
    case CallExec(e, init) => s.(calls := s.calls[e := Call(init, Waiting)])
    case Acquire(e) =>
      // readiness is checked again after waiting for the lock
      if CallReady(s, s.calls[e].initializing) then WithCall(s, e, Spawning).(launch := Some(e)) else WithoutCall(s, e)
    case Spawned(e, p) =>
      WithCall(s, e, Executing(p)).(
        reg := s.reg.Register(p), launch := None, spawned := s.spawned + {p}, alive := s.alive + {p})
    case SpawnFails(e) => WithoutCall(s, e).(launch := None)
    case Abandon(e) => WithoutCall(s, e)
    case CommandEnds(e) => WithoutCall(s, e).(reg := s.reg.Finish(s.calls[e].pc.process, s.tasks))
    case CommandFails(e) => WithCall(s, e, Cleaning(s.calls[e].pc.process))
    case RequestTermination(e, spare) =>
      var p := s.calls[e].pc.process;
      WithCall(TerminateStep(s, p, spare), e, Settling(p, s.reg.TaskOf(p, spare)))
    case CleanedUp(e) => WithoutCall(s, e).(reg := s.reg.Finish(s.calls[e].pc.process, s.tasks))
  }

  predicate WorldEnabled(s: Host, a: WorldAction) {
    match a
    case Exits(p) => p in s.alive
    case TerminationEnds(t, ok) => t in s.tasks && s.tasks[t].outcome.Running?
    case CallFilesystem(o) => o !in s.reg.filesystem && s.reg.Ready()
    case WorkerEnds(o) => o in s.working
    case FilesystemReturns(o) => o in s.reg.filesystem && o !in s.working
  }

  function WorldStep(s: Host, a: WorldAction): Host
    requires WorldEnabled(s, a)
  {
    match a
    case Exits(p) => s.(alive := s.alive - {p})
    case TerminationEnds(t, ok) =>
      var p := s.tasks[t].process;
      s.(tasks := s.tasks[t := Termination(p, if ok then Succeeded else Failed)],
         alive := if ok then s.alive - {p} else s.alive)
    case CallFilesystem(o) => s.(reg := s.reg.(filesystem := s.reg.filesystem + {o}), working := s.working + {o})
    case WorkerEnds(o) => s.(working := s.working - {o})
    case FilesystemReturns(o) => s.(reg := s.reg.(filesystem := s.reg.filesystem - {o}))
  }

  predicate LifecycleEnabled(s: Host, a: LifecycleAction) {
    match a
    case CallStart => s.phase.Idle? && !s.reg.started
    case WorkspaceCreated => s.phase.Initializing?
    case InitializationEnds(ok) => s.phase.Initializing? && forall e | e in s.calls :: !s.calls[e].initializing
    case CallStop(delete) => s.phase.Idle?
    case CancelStart => s.phase.Stops() && !s.phase.origin.ByStop?
    case CancelStop => s.phase.Stops() && s.phase.origin.ByStop?
  }

  predicate StopEnabled(s: Host, a: StopAction) {
    match a
    case Snapshot => s.phase.Entering? && s.launch.None?
    case StopTerminates(p, spare) => s.phase.Terminating? && p in s.phase.todo && CanTerminate(s, p, spare)
    case TerminationsGathered =>
      s.phase.Terminating? && s.phase.todo == {} &&
      forall p | p in s.phase.awaited :: s.phase.awaited[p] in s.tasks && !s.tasks[s.phase.awaited[p]].outcome.Running?
    case CommandsGathered => s.phase.Draining? && s.phase.commands !! s.reg.active
    case WorkersGathered => s.phase.Flushing? && s.phase.workers !! s.working
    case DeletionEnds(_, _) => s.phase.Deleting?
  }

  function LifecycleStep(s: Host, a: LifecycleAction): Host
    requires LifecycleEnabled(s, a)
  {
    match a
    case CallStart =>
      if s.runtimeRoot || s.workspace then s.(phase := Entering(BeforeStart, true))
      else s.(runtimeRoot := true, phase := Initializing)
    case WorkspaceCreated => s.(workspace := true)
    case InitializationEnds(ok) =>
      if ok then s.(reg := s.reg.(started := true), phase := Idle) else s.(phase := Entering(AfterStartFailed, true))
    case CallStop(delete) => s.(reg := s.reg.(stopping := true), phase := Entering(ByStop(false), delete))
    case CancelStart =>
      // the removal of the directories is owned: it goes on, but nothing follows it
      if s.phase.Deleting? then s.(phase := Deleting(AfterStartFailed)) else s.(phase := Idle)
    case CancelStop => s.(phase := s.phase.(origin := ByStop(true)))
  }

  function StopStep(s: Host, a: StopAction): Host
    requires StopEnabled(s, a)
  {
    match a
    case Snapshot =>
      s.(reg := s.reg.DropFailed(s.tasks),
         phase := Terminating(s.phase.origin, s.phase.delete, s.reg.active, s.reg.Tracked(), map[]))
    case StopTerminates(p, spare) =>
      TerminateStep(s, p, spare).(
        phase := s.phase.(todo := s.phase.todo - {p}, awaited := s.phase.awaited[p := s.reg.TaskOf(p, spare)]))
    case TerminationsGathered =>
      if exists p :: p in s.phase.awaited && IsFailed(s.tasks, s.phase.awaited[p])
      then s.(phase := Idle)   // the error is raised; a stop leaves `stopping` set
      else s.(phase := Draining(s.phase.origin, s.phase.delete, s.phase.commands, s.phase.awaited.Keys))
    case CommandsGathered =>
      s.(reg := s.reg.Forget(s.phase.processes),
         phase := Flushing(s.phase.origin, s.phase.delete, s.reg.filesystem))
    case WorkersGathered =>
      if s.phase.delete then s.(reg := s.reg.(started := false), phase := Deleting(s.phase.origin))
      else Finished(s, s.phase.origin)
    case DeletionEnds(workspaceGone, rootGone) =>
      var after := s.(workspace := s.workspace && !workspaceGone, runtimeRoot := s.runtimeRoot && !rootGone);
      if after.workspace || after.runtimeRoot then after.(phase := Idle) else Finished(after, s.phase.origin)
  }

  predicate Enabled(s: Host, a: Action) {
    match a
    case Command(c) => CommandEnabled(s, c)
    case World(w) => WorldEnabled(s, w)
    case Lifecycle(l) => LifecycleEnabled(s, l)
    case Stop(t) => StopEnabled(s, t)
  }

  function Apply(s: Host, a: Action): Host
    requires Enabled(s, a)
  {
    match a
    case Command(c) => CommandStep(s, c)
    case World(w) => WorldStep(s, w)
    case Lifecycle(l) => LifecycleStep(s, l)
    case Stop(t) => StopStep(s, t)
  }

  /** The only cancellation that loses a process: termination requests that `start` has gathered
      but that have not begun are discarded, although their registry entries are already gone. */
  predicate LosesProcess(s: Host, a: Action) {
    a == Lifecycle(CancelStart) && !(s.alive <= s.reg.terminations.Keys)
  }

  /** States reached by a run, with the given restriction on its actions. */
  ghost predicate IsRun(states: seq<Host>, actions: seq<Action>) {
    && |states| == |actions| + 1
    && states[0] == INITIAL
    && forall i | 0 <= i < |actions| :: Enabled(states[i], actions[i]) && states[i + 1] == Apply(states[i], actions[i])
  }

  ghost predicate LosesNothing(states: seq<Host>, actions: seq<Action>)
    requires |states| == |actions| + 1
  {
    forall i | 0 <= i < |actions| :: !LosesProcess(states[i], actions[i])
  }

  /** What must hold while the owned directories are being removed. */
  predicate Settled(s: Host) { s.alive == {} && s.working == {} }

  /* ------------------------------------------------------------------ the invariant */

  ghost predicate TasksOk(s: Host) {
    && (forall p | p in s.reg.terminations ::
          s.reg.terminations[p] in s.tasks && s.tasks[s.reg.terminations[p]].process == p)
    && (forall t | t in s.tasks :: s.tasks[t].process in s.spawned)
    && (forall t | t in s.tasks && s.tasks[t].outcome.Succeeded? :: s.tasks[t].process !in s.alive)
  }

  ghost predicate CallsOk(s: Host) {
    && (forall e | e in s.calls && s.calls[e].pc.Owns() :: s.calls[e].pc.process in s.reg.active)
    && (forall e, f | e in s.calls && f in s.calls && s.calls[e].pc.Owns() && s.calls[f].pc.Owns() && e != f ::
          s.calls[e].pc.process != s.calls[f].pc.process)
    && (forall e | e in s.calls && s.calls[e].pc.Settling? ::
          var p := s.calls[e].pc.process;
          s.calls[e].pc.task in s.tasks && s.tasks[s.calls[e].pc.task].process == p &&
          (p in s.alive ==> p in s.reg.terminations.Keys + s.phase.Todo()))
    && (forall e | e in s.calls :: s.calls[e].pc.Spawning? <==> s.launch == Some(e))
    && (s.launch.Some? ==> s.launch.value in s.calls)
    && (forall e | e in s.calls && s.calls[e].initializing :: s.phase.Initializing?)
  }

  ghost predicate WorldOk(s: Host) {
    && s.alive <= s.reg.Tracked() + s.phase.Todo()
    && s.reg.active <= s.spawned
    && s.alive <= s.spawned
    && s.working <= s.reg.filesystem
  }

  ghost predicate PhaseOk(s: Host) {
    && (s.phase.Initializing? ==> !s.reg.started)
    && (s.phase.Stops() && !s.phase.Deleting? ==> if s.phase.origin.ByStop? then s.reg.stopping else !s.reg.started)
    && (s.phase.Stops() && !s.phase.Entering? ==> s.launch.None?)
    && match s.phase
       case Terminating(_, _, _, todo, awaited) =>
         && s.alive <= todo + awaited.Keys
         && todo <= s.spawned
         && (forall p | p in awaited :: awaited[p] in s.tasks && s.tasks[awaited[p]].process == p)
       case Draining(_, _, _, _) => s.alive == {}
       case Flushing(_, _, workers) => s.alive == {} && s.working <= workers
       case Deleting(_) => !s.reg.started && Settled(s)
       case _ => true
  }

  ghost predicate Inv(s: Host) { TasksOk(s) && CallsOk(s) && WorldOk(s) && PhaseOk(s) }

  /* ------------------------------------------------------------------ preservation */

  ghost predicate Submap(m: map<Process, Task>, n: map<Process, Task>) {
    forall p | p in m :: p in n && m[p] == n[p]
  }

  /** Removing registry entries and processes keeps `TasksOk`. */
  lemma TasksShrink(s: Host, s': Host)
    requires TasksOk(s) && s'.tasks == s.tasks && s'.spawned == s.spawned && s'.alive <= s.alive
    requires Submap(s'.reg.terminations, s.reg.terminations)
    ensures TasksOk(s')
  {
  }

  /** `CallsOk` only depends on these fields. */
  lemma CallsFrame(s: Host, s': Host)
    requires CallsOk(s) && s'.calls == s.calls && s'.launch == s.launch && s'.tasks == s.tasks
    requires s.reg.active <= s'.reg.active && s'.alive <= s.alive
    requires s'.alive * (s.reg.terminations.Keys + s.phase.Todo()) <= s'.reg.terminations.Keys + s'.phase.Todo()
    requires forall e | e in s.calls && s.calls[e].initializing :: s'.phase.Initializing?
    ensures CallsOk(s')
  {
  }

  lemma CommandKeepsTasks(s: Host, a: CommandAction)
    requires Inv(s) && CommandEnabled(s, a)
    ensures TasksOk(CommandStep(s, a))
  {
    if !a.RequestTermination? && !a.Spawned? {
      TasksShrink(s, CommandStep(s, a));
    }
  }

  lemma AdmissionKeepsCalls(s: Host, a: CommandAction)
    requires Inv(s) && CommandEnabled(s, a) && (a.CallExec? || a.Abandon?)
    ensures CallsOk(CommandStep(s, a))
  {
  }

  lemma AcquiringKeepsCalls(s: Host, a: CommandAction)
    requires Inv(s) && CommandEnabled(s, a) && a.Acquire?
    ensures CallsOk(CommandStep(s, a))
  {
    if CallReady(s, s.calls[a.e].initializing) {
      assert CommandStep(s, a) == WithCall(s, a.e, Spawning).(launch := Some(a.e));
    } else {
      assert CommandStep(s, a) == WithoutCall(s, a.e);
    }
  }

  lemma SpawningKeepsCalls(s: Host, a: CommandAction)
    requires Inv(s) && CommandEnabled(s, a) && (a.Spawned? || a.SpawnFails?)
    ensures CallsOk(CommandStep(s, a))
  {
  }

  lemma LeavingKeepsCalls(s: Host, a: CommandAction)
    requires Inv(s) && CommandEnabled(s, a)
    requires a.CommandEnds? || a.CommandFails? || a.RequestTermination? || a.CleanedUp?
    ensures CallsOk(CommandStep(s, a))
  {
  }

  lemma CommandKeepsRest(s: Host, a: CommandAction)
    requires Inv(s) && CommandEnabled(s, a)
    ensures WorldOk(CommandStep(s, a)) && PhaseOk(CommandStep(s, a))
  {
  }

  lemma WorldKeepsTasks(s: Host, a: WorldAction)
    requires Inv(s) && WorldEnabled(s, a)
    ensures TasksOk(WorldStep(s, a)) && WorldOk(WorldStep(s, a))
  {
  }

  lemma WorldKeepsCalls(s: Host, a: WorldAction)
    requires Inv(s) && WorldEnabled(s, a)
    ensures CallsOk(WorldStep(s, a)) && PhaseOk(WorldStep(s, a))
  {
  }

  ghost predicate SameRecords(s: Host, n: Host) {
    && n.reg.active == s.reg.active && n.reg.terminations == s.reg.terminations && n.reg.filesystem == s.reg.filesystem
    && n.calls == s.calls && n.launch == s.launch && n.tasks == s.tasks
    && n.alive == s.alive && n.spawned == s.spawned && n.working == s.working
  }

  lemma LifecycleFields(s: Host, a: LifecycleAction)
    requires LifecycleEnabled(s, a)
    ensures SameRecords(s, LifecycleStep(s, a))
  {
  }

  lemma LifecycleKeepsRecords(s: Host, a: LifecycleAction)
    requires Inv(s) && LifecycleEnabled(s, a) && !LosesProcess(s, Lifecycle(a))
    ensures TasksOk(LifecycleStep(s, a)) && CallsOk(LifecycleStep(s, a))
  {
    LifecycleFields(s, a);
    TasksShrink(s, LifecycleStep(s, a));
    CallsFrame(s, LifecycleStep(s, a));
  }

  lemma LifecycleKeepsRest(s: Host, a: LifecycleAction)
    requires Inv(s) && LifecycleEnabled(s, a) && !LosesProcess(s, Lifecycle(a))
    ensures WorldOk(LifecycleStep(s, a)) && PhaseOk(LifecycleStep(s, a))
  {
  }

  /** One termination request of a stop: the process leaves `todo` when it enters the registry. */
  lemma StopTerminatesKeepsRecords(s: Host, a: StopAction)
    requires Inv(s) && StopEnabled(s, a) && a.StopTerminates?
    ensures TasksOk(StopStep(s, a)) && CallsOk(StopStep(s, a))
  {
  }

  /** The snapshot forgets failed terminations, but their processes are in `todo`. */
  lemma ForgettingKeepsRecords(s: Host, a: StopAction)
    requires Inv(s) && StopEnabled(s, a) && (a.Snapshot? || a.CommandsGathered?)
    ensures TasksOk(StopStep(s, a)) && CallsOk(StopStep(s, a))
  {
  }

  lemma FinishedKeepsRecords(s: Host, origin: Origin)
    ensures SameRecords(s, Finished(s, origin))
  {
  }

  lemma SamePhaseFields(s: Host, a: StopAction)
    requires StopEnabled(s, a) && (a.TerminationsGathered? || a.WorkersGathered? || a.DeletionEnds?)
    ensures SameRecords(s, StopStep(s, a))
  {
    if a.WorkersGathered? {
      FinishedKeepsRecords(s, s.phase.origin);
    } else if a.DeletionEnds? {
      var after := s.(workspace := s.workspace && !a.workspaceGone, runtimeRoot := s.runtimeRoot && !a.rootGone);
      FinishedKeepsRecords(after, s.phase.origin);
    }
  }

  lemma GatheringKeepsRecords(s: Host, a: StopAction)
    requires Inv(s) && StopEnabled(s, a) && (a.TerminationsGathered? || a.WorkersGathered? || a.DeletionEnds?)
    ensures TasksOk(StopStep(s, a)) && CallsOk(StopStep(s, a))
  {
    SamePhaseFields(s, a);
    TasksShrink(s, StopStep(s, a));
    CallsFrame(s, StopStep(s, a));
  }

  lemma StopKeepsWorld(s: Host, a: StopAction)
    requires Inv(s) && StopEnabled(s, a)
    ensures WorldOk(StopStep(s, a))
  {
    if a.TerminationsGathered? || a.WorkersGathered? || a.DeletionEnds? {
      SamePhaseFields(s, a);
    }
  }

  lemma StopKeepsPhase(s: Host, a: StopAction)
    requires Inv(s) && StopEnabled(s, a)
    ensures PhaseOk(StopStep(s, a))
  {
  }

  lemma StepKeepsInv(s: Host, a: Action)
    requires Inv(s) && Enabled(s, a) && !LosesProcess(s, a)
    ensures Inv(Apply(s, a))
  {
    match a {
      case Command(c) =>
        CommandKeepsTasks(s, c);
        CommandKeepsRest(s, c);
        if c.CommandEnds? || c.CommandFails? || c.RequestTermination? || c.CleanedUp? {
          LeavingKeepsCalls(s, c);
        } else if c.Spawned? || c.SpawnFails? {
          SpawningKeepsCalls(s, c);
        } else if c.Acquire? {
          AcquiringKeepsCalls(s, c);
        } else {
          AdmissionKeepsCalls(s, c);
        }
      case World(w) =>
        WorldKeepsTasks(s, w);
        WorldKeepsCalls(s, w);
      case Lifecycle(l) =>
        LifecycleKeepsRecords(s, l);
        LifecycleKeepsRest(s, l);
      case Stop(t) =>
        if t.StopTerminates? {
          StopTerminatesKeepsRecords(s, t);
        } else if t.Snapshot? || t.CommandsGathered? {
          ForgettingKeepsRecords(s, t);
        } else {
          GatheringKeepsRecords(s, t);
        }
        StopKeepsWorld(s, t);
        StopKeepsPhase(s, t);
    }
  }

  /* ------------------------------------------------------------------ what every run keeps */

  lemma {:induction false} RunKeepsInv(states: seq<Host>, actions: seq<Action>, n: nat)
    requires IsRun(states, actions) && LosesNothing(states, actions) && n < |states|
    ensures Inv(states[n])
  {
    if n > 0 {
      RunKeepsInv(states, actions, n - 1);
      StepKeepsInv(states[n - 1], actions[n - 1]);
    }
  }

  /** In every interleaving that loses no process, the owned directories are removed only while no
      spawned process is alive and no admitted filesystem operation is working. */
  lemma DeletionIsSafe(states: seq<Host>, actions: seq<Action>, n: nat)
    requires IsRun(states, actions) && LosesNothing(states, actions) && n < |states|
    requires states[n].phase.Deleting?
    ensures forall p | p in states[n].spawned :: p !in states[n].alive
    ensures forall o | o in states[n].reg.filesystem :: o !in states[n].working
  {
    RunKeepsInv(states, actions, n);
  }

  lemma NoCommandStarts(s: Host, c: CommandAction)
    requires Inv(s) && CommandEnabled(s, c) && s.phase.Stops() && !s.phase.Entering?
    ensures CommandStep(s, c).spawned == s.spawned && CommandStep(s, c).working == s.working
    ensures CommandStep(s, c).reg.filesystem == s.reg.filesystem
  {
  }

  lemma NoOperationStarts(s: Host, w: WorldAction)
    requires Inv(s) && WorldEnabled(s, w) && s.phase.Stops()
    ensures WorldStep(s, w).spawned == s.spawned && WorldStep(s, w).working <= s.working
    ensures WorldStep(s, w).reg.filesystem <= s.reg.filesystem
  {
  }

  lemma NoStopStarts(s: Host, a: StopAction)
    requires StopEnabled(s, a)
    ensures StopStep(s, a).spawned == s.spawned && StopStep(s, a).working == s.working
    ensures StopStep(s, a).reg.filesystem == s.reg.filesystem
  {
    if a.TerminationsGathered? || a.WorkersGathered? || a.DeletionEnds? {
      SamePhaseFields(s, a);
    }
  }

  lemma StepAdmitsNothing(s: Host, a: Action)
    requires Inv(s) && Enabled(s, a) && s.phase.Stops() && !s.phase.Entering?
    ensures Apply(s, a).spawned == s.spawned && Apply(s, a).working <= s.working
    ensures Apply(s, a).reg.filesystem <= s.reg.filesystem
  {
    match a {
      case Command(c) => NoCommandStarts(s, c);
      case World(w) => NoOperationStarts(s, w);
      case Lifecycle(l) => assert Apply(s, a) == LifecycleStep(s, l);
      case Stop(t) => NoStopStarts(s, t);
    }
  }

  /** From the snapshot of the processes until the lifecycle lock is released, no action starts a
      process or a filesystem operation. */
  lemma NothingIsAdmitted(states: seq<Host>, actions: seq<Action>, n: nat)
    requires IsRun(states, actions) && LosesNothing(states, actions) && n < |actions|
    requires states[n].phase.Stops() && !states[n].phase.Entering?
    ensures states[n + 1].spawned == states[n].spawned
    ensures states[n + 1].working <= states[n].working
    ensures states[n + 1].reg.filesystem <= states[n].reg.filesystem
  {
    RunKeepsInv(states, actions, n);
    StepAdmitsNothing(states[n], actions[n]);
  }

  /** Between two lifecycle calls every living process is in a registry, so a later stop sees it. */
  lemma LivingProcessesStayTracked(states: seq<Host>, actions: seq<Action>, n: nat)
    requires IsRun(states, actions) && LosesNothing(states, actions) && n < |states|
    requires states[n].phase.Idle? || states[n].phase.Entering?
    ensures states[n].alive <= states[n].reg.Tracked()
  {
    RunKeepsInv(states, actions, n);
  }

  /** A failed termination ends the stop: the lock is released, nothing is deleted, and the process,
      if it lives on, is still registered with its failed termination. */
  lemma FailedTerminationBlocksDeletion(states: seq<Host>, actions: seq<Action>, n: nat, p: Process)
    requires IsRun(states, actions) && LosesNothing(states, actions) && n < |actions|
    requires actions[n] == Stop(TerminationsGathered)
    requires p in states[n].phase.awaited && IsFailed(states[n].tasks, states[n].phase.awaited[p])
    ensures states[n + 1].phase.Idle?
    ensures states[n + 1].workspace == states[n].workspace && states[n + 1].runtimeRoot == states[n].runtimeRoot
    ensures states[n + 1].reg.stopping == states[n].reg.stopping
    ensures p in states[n + 1].alive ==> p in states[n + 1].reg.Tracked()
  {
    RunKeepsInv(states, actions, n);
    StepKeepsInv(states[n], actions[n]);
  }

  /* ------------------------------------------------------------------ who asked for a deletion */

  /** Whether the latest call of stop asked for the directories to be deleted. */
  function LatestStop(actions: seq<Action>): Option<bool> {
    if actions == [] then None
    else
      var last := actions[|actions| - 1];
      if last.Lifecycle? && last.lifecycle.CallStop? then Some(last.lifecycle.delete) else LatestStop(actions[..|actions| - 1])
  }

  /** A stop does what its caller asked for, and the cleanup of a start always deletes. */
  predicate Asked(s: Host, latest: Option<bool>) {
    match s.phase
    case Idle => true
    case Initializing => true
    case Deleting(origin) => origin.ByStop? ==> latest == Some(true)
    case _ => if s.phase.origin.ByStop? then latest == Some(s.phase.delete) else s.phase.delete
  }

  lemma CommandKeepsPhase(s: Host, a: CommandAction)
    requires CommandEnabled(s, a)
    ensures CommandStep(s, a).phase == s.phase && SameRuntime(s, CommandStep(s, a))
  {
  }

  lemma WorldKeepsPhase(s: Host, a: WorldAction)
    requires WorldEnabled(s, a)
    ensures WorldStep(s, a).phase == s.phase && SameRuntime(s, WorldStep(s, a))
  {
  }

  lemma StopKeepsAsked(s: Host, a: StopAction, latest: Option<bool>)
    requires Asked(s, latest) && StopEnabled(s, a)
    ensures Asked(StopStep(s, a), latest)
  {
  }

  lemma LifecycleKeepsAsked(s: Host, a: LifecycleAction, latest: Option<bool>)
    requires Asked(s, latest) && LifecycleEnabled(s, a)
    ensures Asked(LifecycleStep(s, a), if a.CallStop? then Some(a.delete) else latest)
  {
  }

  lemma StepKeepsAsked(s: Host, a: Action, actions: seq<Action>)
    requires Asked(s, LatestStop(actions)) && Enabled(s, a)
    ensures Asked(Apply(s, a), LatestStop(actions + [a]))
  {
    var latest := LatestStop(actions);
    assert (actions + [a])[..|actions|] == actions;
    match a
    case Command(c) => CommandKeepsPhase(s, c);
    case World(w) => WorldKeepsPhase(s, w);
    case Lifecycle(l) => LifecycleKeepsAsked(s, l, latest);
    case Stop(t) => StopKeepsAsked(s, t, latest);
  }

  lemma {:induction false} RunKeepsAsked(states: seq<Host>, actions: seq<Action>, n: nat)
    requires IsRun(states, actions) && n < |states|
    ensures Asked(states[n], LatestStop(actions[..n]))
  {
    if n > 0 {
      RunKeepsAsked(states, actions, n - 1);
      StepKeepsAsked(states[n - 1], actions[n - 1], actions[..n - 1]);
      assert actions[..n] == actions[..n - 1] + [actions[n - 1]];
    }
  }

  /** While a stop deletes, the latest call of stop asked for it. */
  lemma DeletesOnlyWhenAsked(states: seq<Host>, actions: seq<Action>, n: nat)
    requires IsRun(states, actions) && n < |states| && states[n].phase.Deleting? && states[n].phase.origin.ByStop?
    ensures LatestStop(actions[..n]) == Some(true)
  {
    RunKeepsAsked(states, actions, n);
  }

  /** A stop that is still at work, before any deletion. */
  predicate Stopping(s: Host, delete: bool) {
    s.phase.Stops() && !s.phase.Deleting? && s.phase.origin.ByStop? && s.phase.delete == delete
  }

  predicate SameRuntime(s: Host, n: Host) {
    n.workspace == s.workspace && n.runtimeRoot == s.runtimeRoot && n.reg.started == s.reg.started
  }

  lemma StoppingStep(s: Host, a: Action, delete: bool)
    requires Enabled(s, a) && Stopping(s, delete)
    ensures var n := Apply(s, a);
      Stopping(n, delete) || (delete && n.phase.Deleting?) ||
      (n.phase.Idle? && (!delete || (a == Stop(TerminationsGathered) && TerminationFailed(s))))
    ensures !Apply(s, a).phase.Deleting? ==> SameRuntime(s, Apply(s, a))
  {
    match a
    case Command(c) => CommandKeepsPhase(s, c);
    case World(w) => WorldKeepsPhase(s, w);
    case Lifecycle(l) =>
    case Stop(t) => StopsStep(s, t, delete);
  }

  lemma StopsStep(s: Host, a: StopAction, delete: bool)
    requires StopEnabled(s, a) && Stopping(s, delete)
    ensures var n := StopStep(s, a);
      Stopping(n, delete) || (delete && n.phase.Deleting?) ||
      (n.phase.Idle? && (!delete || (a == TerminationsGathered && TerminationFailed(s))))
    ensures !StopStep(s, a).phase.Deleting? ==> SameRuntime(s, StopStep(s, a))
  {
  }

  predicate TerminationFailed(s: Host) {
    s.phase.Terminating? && exists p :: p in s.phase.awaited && IsFailed(s.tasks, s.phase.awaited[p])
  }

  lemma {:induction false} StoppingRun(states: seq<Host>, actions: seq<Action>, i: nat, m: nat, delete: bool)
    requires IsRun(states, actions) && i < m < |states| && actions[i] == Lifecycle(CallStop(delete))
    requires forall k | i < k < m :: !states[k].phase.Idle? && !states[k].phase.Deleting?
    ensures Stopping(states[m], delete) || (delete && states[m].phase.Deleting?) ||
      (states[m].phase.Idle? && (!delete || (actions[m - 1] == Stop(TerminationsGathered) && TerminationFailed(states[m - 1]))))
    ensures !states[m].phase.Deleting? ==> SameRuntime(states[i], states[m])
    decreases m
  {
    if m > i + 1 {
      StoppingRun(states, actions, i, m - 1, delete);
      StoppingStep(states[m - 1], actions[m - 1], delete);
    }
    assert states[m - 1 + 1] == Apply(states[m - 1], actions[m - 1]);
  }

  /** From a stop that must not delete until it ends, nothing is deleted and the environment stays started. */
  lemma {:induction false} StopKeepsRuntime(states: seq<Host>, actions: seq<Action>, i: nat, m: nat)
    requires IsRun(states, actions) && i < m < |states| && actions[i] == Lifecycle(CallStop(false))
    requires forall k | i < k < m :: !states[k].phase.Idle?
    ensures SameRuntime(states[i], states[m]) && !states[m].phase.Deleting?
    decreases m
  {
    forall k | i < k < m
      ensures !states[k].phase.Deleting?
    {
      StopKeepsRuntime(states, actions, i, k);
    }
    StoppingRun(states, actions, i, m, false);
  }

  /** A stop that must delete does so before it ends, unless it awaited a failed termination. */
  lemma StopDeletes(states: seq<Host>, actions: seq<Action>, i: nat, m: nat)
    requires IsRun(states, actions) && i < m < |states| && actions[i] == Lifecycle(CallStop(true))
    requires states[m].phase.Idle? && forall k | i < k < m :: !states[k].phase.Idle?
    requires forall k | i < k < m && actions[k] == Stop(TerminationsGathered) :: !TerminationFailed(states[k])
    ensures exists k :: i < k < m && states[k].phase.Deleting?
  {
    if forall k | i < k < m :: !states[k].phase.Deleting? {
      StoppingRun(states, actions, i, m, true);
    }
  }

  /** The environment is started by an initialization that succeeded, and no longer once a deletion begins. */
  lemma StartedChanges(s: Host, a: Action)
    requires Enabled(s, a)
    ensures Apply(s, a).reg.started <==>
      a == Lifecycle(InitializationEnds(true)) || (s.reg.started && (Apply(s, a).phase.Deleting? ==> s.phase.Deleting?))
  {
    match a
    case Command(c) => CommandKeepsPhase(s, c);
    case World(w) => WorldKeepsPhase(s, w);
    case Lifecycle(l) =>
    case Stop(t) => StopChangesStarted(s, t);
  }

  lemma StopChangesStarted(s: Host, a: StopAction)
    requires StopEnabled(s, a)
    ensures StopStep(s, a).reg.started <==> s.reg.started && (StopStep(s, a).phase.Deleting? ==> s.phase.Deleting?)
  {
  }

  /* ------------------------------------------------------------------ the cancellation that loses a process */

  lemma Extend(states: seq<Host>, actions: seq<Action>, a: Action) returns (longer: seq<Host>, more: seq<Action>)
    requires IsRun(states, actions) && Enabled(states[|actions|], a)
    ensures IsRun(longer, more) && more == actions + [a]
    ensures longer == states + [Apply(states[|actions|], a)]
  {
    longer, more := states + [Apply(states[|actions|], a)], actions + [a];
  }

  function EmptyRegistry(terminations: map<Process, Task>, active: set<Process>): Registry {
    Registry(false, false, active, terminations, {})
  }

  lemma PreparationRuns() returns (states: seq<Host>, actions: seq<Action>)
    ensures IsRun(states, actions) && LosesNothing(states, actions)
    ensures states[|actions|] == Host(EmptyRegistry(map[], {7}), false, true, map[0 := Call(true, Executing(7))], None,
                                      Initializing, map[], {7}, {7}, {})
  {
    states, actions := [INITIAL], [];
    states, actions := Extend(states, actions, Lifecycle(CallStart));
    states, actions := Extend(states, actions, Command(CallExec(0, true)));
    states, actions := Extend(states, actions, Command(Acquire(0)));
    states, actions := Extend(states, actions, Command(Spawned(0, 7)));
  }

  lemma PreparationFails() returns (states: seq<Host>, actions: seq<Action>)
    ensures IsRun(states, actions) && LosesNothing(states, actions)
    ensures states[|actions|] == Host(EmptyRegistry(map[7 := 1], {7}), false, true, map[0 := Call(true, Settling(7, 1))],
                                      None, Initializing, map[1 := Termination(7, Running)], {7}, {7}, {})
  {
    states, actions := PreparationRuns();
    states, actions := Extend(states, actions, Command(CommandFails(0)));
    states, actions := Extend(states, actions, Command(RequestTermination(0, 1)));
  }

  /** A run that reaches the state before the snapshot of start's own cleanup: the preparation
      command failed, and so did the termination of its process. */
  lemma StubbornPreparation() returns (states: seq<Host>, actions: seq<Action>)
    ensures IsRun(states, actions) && LosesNothing(states, actions)
    ensures states[|actions|] == Host(EmptyRegistry(map[7 := 1], {}), false, true, map[], None,
                                      Entering(AfterStartFailed, true), map[1 := Termination(7, Failed)], {7}, {7}, {})
  {
    states, actions := PreparationFails();
    states, actions := Extend(states, actions, World(TerminationEnds(1, false)));
    states, actions := Extend(states, actions, Command(CleanedUp(0)));
    states, actions := Extend(states, actions, Lifecycle(InitializationEnds(false)));
  }

  /* ------------------------------------------------------------------ what the registry of commands holds */

  predicate Unfinished(c: Call) { c.pc.Owns() || c.pc.Spawning? }

  /** Every active process belongs to a call. */
  ghost predicate ActiveOwned(s: Host) {
    forall p | p in s.reg.active :: exists e :: e in s.calls && s.calls[e].pc.Owns() && s.calls[e].pc.process == p
  }

  /** Only preparation commands run during initialization, none while the environment is otherwise not started,
      and none when a stop has drained them. */
  ghost predicate Quiet(s: Host) {
    && (s.phase.Initializing? ==> forall e | e in s.calls && Unfinished(s.calls[e]) :: s.calls[e].initializing)
    && (!s.reg.started && !s.phase.Initializing? ==> s.reg.active == {} && s.launch.None?)
    && ((s.phase.Terminating? || s.phase.Draining?) ==> s.reg.active <= s.phase.commands)
    && ((s.phase.Flushing? || s.phase.Deleting?) ==> s.reg.active == {})
  }

  ghost predicate ActiveOk(s: Host) { ActiveOwned(s) && Quiet(s) }

  /** Start cleans up only when there is something to remove. */
  predicate OwnedOk(s: Host) {
    && (s.phase.Initializing? ==> s.runtimeRoot)
    && (s.phase.Stops() && !s.phase.Deleting? && !s.phase.origin.ByStop? ==> s.workspace || s.runtimeRoot)
  }

  /** A process that stays active keeps its owner. */
  lemma OwnersStay(s: Host, after: Host)
    requires ActiveOwned(s) && after.reg.active <= s.reg.active
    requires forall e | e in s.calls && s.calls[e].pc.Owns() && s.calls[e].pc.process in after.reg.active ::
      e in after.calls && after.calls[e].pc.Owns() && after.calls[e].pc.process == s.calls[e].pc.process
    ensures ActiveOwned(after)
  {
    forall p | p in after.reg.active
      ensures exists e :: e in after.calls && after.calls[e].pc.Owns() && after.calls[e].pc.process == p
    {
      var e :| e in s.calls && s.calls[e].pc.Owns() && s.calls[e].pc.process == p;
      assert e in after.calls && after.calls[e].pc.Owns() && after.calls[e].pc.process == p;
    }
  }

  lemma SpawnedIsOwned(s: Host, a: CommandAction)
    requires Inv(s) && ActiveOwned(s) && CommandEnabled(s, a) && a.Spawned?
    ensures ActiveOwned(CommandStep(s, a))
  {
    var after := CommandStep(s, a);
    assert a.e in after.calls && after.calls[a.e] == Call(s.calls[a.e].initializing, Executing(a.p));
    forall p | p in after.reg.active && p != a.p
      ensures exists e :: e in after.calls && after.calls[e].pc.Owns() && after.calls[e].pc.process == p
    {
      var e :| e in s.calls && s.calls[e].pc.Owns() && s.calls[e].pc.process == p;
      assert e != a.e && e in after.calls && after.calls[e] == s.calls[e];
    }
  }

  lemma CommandKeepsOwners(s: Host, a: CommandAction)
    requires Inv(s) && ActiveOwned(s) && CommandEnabled(s, a)
    ensures ActiveOwned(CommandStep(s, a))
  {
    if a.Spawned? {
      SpawnedIsOwned(s, a);
    } else {
      OwnersStay(s, CommandStep(s, a));
    }
  }

  lemma CommandKeepsQuiet(s: Host, a: CommandAction)
    requires Inv(s) && Quiet(s) && CommandEnabled(s, a)
    ensures Quiet(CommandStep(s, a))
  {
  }

  lemma WorldKeepsActive(s: Host, a: WorldAction)
    requires ActiveOk(s) && WorldEnabled(s, a)
    ensures ActiveOk(WorldStep(s, a))
  {
    OwnersStay(s, WorldStep(s, a));
  }

  lemma LifecycleKeepsActive(s: Host, a: LifecycleAction)
    requires Inv(s) && ActiveOk(s) && LifecycleEnabled(s, a)
    ensures ActiveOk(LifecycleStep(s, a))
  {
    OwnersStay(s, LifecycleStep(s, a));
  }

  lemma StopKeepsOwners(s: Host, a: StopAction)
    requires ActiveOwned(s) && StopEnabled(s, a)
    ensures ActiveOwned(StopStep(s, a))
  {
    if a.TerminationsGathered? || a.WorkersGathered? || a.DeletionEnds? {
      SamePhaseFields(s, a);
    }
    OwnersStay(s, StopStep(s, a));
  }

  lemma StopKeepsQuiet(s: Host, a: StopAction)
    requires Inv(s) && Quiet(s) && StopEnabled(s, a)
    ensures Quiet(StopStep(s, a))
  {
    if a.TerminationsGathered? || a.WorkersGathered? || a.DeletionEnds? {
      SamePhaseFields(s, a);
    }
  }

  lemma StepKeepsActive(s: Host, a: Action)
    requires Inv(s) && ActiveOk(s) && Enabled(s, a)
    ensures ActiveOk(Apply(s, a))
  {
    match a
    case Command(c) =>
      CommandKeepsOwners(s, c);
      CommandKeepsQuiet(s, c);
    case World(w) => WorldKeepsActive(s, w);
    case Lifecycle(l) => LifecycleKeepsActive(s, l);
    case Stop(t) =>
      StopKeepsOwners(s, t);
      StopKeepsQuiet(s, t);
  }

  lemma StepKeepsOwned(s: Host, a: Action)
    requires OwnedOk(s) && Enabled(s, a)
    ensures OwnedOk(Apply(s, a))
  {
  }

  lemma {:induction false} RunKeepsActive(states: seq<Host>, actions: seq<Action>, n: nat)
    requires IsRun(states, actions) && LosesNothing(states, actions) && n < |states|
    ensures ActiveOk(states[n]) && OwnedOk(states[n])
  {
    if n > 0 {
      RunKeepsInv(states, actions, n - 1);
      RunKeepsActive(states, actions, n - 1);
      StepKeepsActive(states[n - 1], actions[n - 1]);
      StepKeepsOwned(states[n - 1], actions[n - 1]);
    }
  }

  /* ------------------------------------------------------------------ what follows when a process is lost */

  /** A run that goes on from another one, without a further cancellation of start. */
  ghost predicate Continues(states: seq<Host>, actions: seq<Action>, longer: seq<Host>, more: seq<Action>) {
    && |states| == |actions| + 1 && IsRun(longer, more) && actions <= more && states <= longer
    && forall i | |actions| <= i < |more| :: more[i] != Lifecycle(CancelStart)
  }

  lemma GoOn(states: seq<Host>, actions: seq<Action>, before: seq<Host>, done: seq<Action>, a: Action)
    returns (longer: seq<Host>, more: seq<Action>)
    requires Continues(states, actions, before, done) && Enabled(before[|done|], a) && a != Lifecycle(CancelStart)
    ensures Continues(states, actions, longer, more) && longer[|more|] == Apply(before[|done|], a)
  {
    longer, more := Extend(before, done, a);
  }

  lemma {:induction false} FreshTask(used: set<Task>) returns (t: Task)
    ensures forall u | u in used :: u < t
    decreases used
  {
    if used == {} {
      t := 0;
    } else {
      var u :| u in used;
      var rest := FreshTask(used - {u});
      t := if rest > u then rest else u + 1;
      assert forall x | x in used :: x == u || x in used - {u};
    }
  }

  /** A living process that no registry knows, while the environment is not started. */
  ghost predicate Lost(s: Host, p: Process) {
    && p in s.alive && p !in s.reg.terminations && s.reg.active == {}
    && !s.reg.started && s.launch.None? && TasksOk(s) && s.working <= s.reg.filesystem
  }

  lemma WorkersFinish(states: seq<Host>, actions: seq<Action>, before: seq<Host>, done: seq<Action>, p: Process)
    returns (longer: seq<Host>, more: seq<Action>)
    requires Continues(states, actions, before, done) && Lost(before[|done|], p) && before[|done|].phase.Idle?
    ensures Continues(states, actions, longer, more) && Lost(longer[|more|], p)
    ensures longer[|more|] == before[|done|].(working := {})
  {
    longer, more := before, done;
    while longer[|more|].working != {}
      invariant Continues(states, actions, longer, more) && Lost(longer[|more|], p)
      invariant longer[|more|].(working := {}) == before[|done|].(working := {})
      decreases |longer[|more|].working|
    {
      var o :| o in longer[|more|].working;
      longer, more := GoOn(states, actions, longer, more, World(WorkerEnds(o)));
    }
  }

  /** A start in the middle of its cleanup, with all terminations that it awaits ended. */
  ghost predicate Clearing(s: Host, p: Process) {
    && Lost(s, p) && s.working == {}
    && s.phase.Terminating? && s.phase.origin.BeforeStart? && s.phase.delete && s.phase.commands == {}
    && p !in s.phase.todo && s.phase.todo <= s.spawned
    && (forall q | q in s.reg.terminations :: !IsFailed(s.tasks, s.reg.terminations[q]))
    && (forall q | q in s.phase.awaited :: IsSucceeded(s.tasks, s.phase.awaited[q]))
  }

  /** The same, but the termination of `q` has just been requested. */
  ghost predicate Requested(s: Host, p: Process, q: Process) {
    && Lost(s, p) && s.working == {}
    && s.phase.Terminating? && s.phase.origin.BeforeStart? && s.phase.delete && s.phase.commands == {}
    && p !in s.phase.todo && s.phase.todo <= s.spawned && p != q
    && (forall o | o in s.reg.terminations :: !IsFailed(s.tasks, s.reg.terminations[o]))
    && (forall o | o in s.phase.awaited && o != q :: IsSucceeded(s.tasks, s.phase.awaited[o]))
    && q in s.phase.awaited && s.phase.awaited[q] in s.tasks && s.tasks[s.phase.awaited[q]].process == q
    && !IsFailed(s.tasks, s.phase.awaited[q])
  }

  lemma RequestAsks(s: Host, p: Process, q: Process, spare: Task)
    requires Clearing(s, p) && q in s.phase.todo && spare !in s.tasks
    ensures var after := Apply(s, Stop(StopTerminates(q, spare)));
      Requested(after, p, q) && after.phase.todo == s.phase.todo - {q}
  {
  }

  lemma EndClears(s: Host, p: Process, q: Process)
    requires Requested(s, p, q)
    ensures s.tasks[s.phase.awaited[q]].outcome.Running? ==>
      Clearing(Apply(s, World(TerminationEnds(s.phase.awaited[q], true))), p)
    ensures !s.tasks[s.phase.awaited[q]].outcome.Running? ==> Clearing(s, p)
  {
  }

  lemma OneTerminates(states: seq<Host>, actions: seq<Action>, before: seq<Host>, done: seq<Action>, p: Process)
    returns (longer: seq<Host>, more: seq<Action>)
    requires Continues(states, actions, before, done) && Clearing(before[|done|], p) && before[|done|].phase.todo != {}
    ensures Continues(states, actions, longer, more) && Clearing(longer[|more|], p)
    ensures longer[|more|].phase.todo < before[|done|].phase.todo
  {
    var s := before[|done|];
    var q :| q in s.phase.todo;
    var spare := FreshTask(s.tasks.Keys);
    RequestAsks(s, p, q, spare);
    longer, more := GoOn(states, actions, before, done, Stop(StopTerminates(q, spare)));
    var asked := longer[|more|];
    var task := asked.phase.awaited[q];
    EndClears(asked, p, q);
    if asked.tasks[task].outcome.Running? {
      longer, more := GoOn(states, actions, longer, more, World(TerminationEnds(task, true)));
    }
  }

  lemma AllTerminate(states: seq<Host>, actions: seq<Action>, before: seq<Host>, done: seq<Action>, p: Process)
    returns (longer: seq<Host>, more: seq<Action>)
    requires Continues(states, actions, before, done) && Clearing(before[|done|], p)
    ensures Continues(states, actions, longer, more) && Clearing(longer[|more|], p) && longer[|more|].phase.todo == {}
  {
    longer, more := before, done;
    while longer[|more|].phase.todo != {}
      invariant Continues(states, actions, longer, more) && Clearing(longer[|more|], p)
      decreases longer[|more|].phase.todo
    {
      longer, more := OneTerminates(states, actions, longer, more, p);
    }
  }

  /** Whatever else is registered or running, a next start can delete under a lost process. */
  lemma LostIsDeletedUnder(states: seq<Host>, actions: seq<Action>, p: Process) returns (longer: seq<Host>, more: seq<Action>)
    requires IsRun(states, actions)
    requires var s := states[|actions|]; Lost(s, p) && s.phase.Idle? && (s.runtimeRoot || s.workspace)
    ensures Continues(states, actions, longer, more) && longer[|more|].phase.Deleting? && p in longer[|more|].alive
  {
    longer, more := WorkersFinish(states, actions, states, actions, p);
    longer, more := GoOn(states, actions, longer, more, Lifecycle(CallStart));
    longer, more := GoOn(states, actions, longer, more, Stop(Snapshot));
    longer, more := AllTerminate(states, actions, longer, more, p);
    longer, more := GoOn(states, actions, longer, more, Stop(TerminationsGathered));
    longer, more := GoOn(states, actions, longer, more, Stop(CommandsGathered));
    longer, more := GoOn(states, actions, longer, more, Stop(WorkersGathered));
  }

  lemma LosingLeavesLost(s: Host, p: Process)
    requires Inv(s) && ActiveOk(s) && OwnedOk(s) && Enabled(s, Lifecycle(CancelStart))
    requires p in s.alive && p !in s.reg.terminations
    ensures var after := Apply(s, Lifecycle(CancelStart));
      Lost(after, p) && after.phase.Idle? && (after.runtimeRoot || after.workspace)
  {
  }

  /** In every continuation the directories are removed only when everything has settled. */
  ghost predicate StaysSafe(states: seq<Host>, actions: seq<Action>) {
    forall longer: seq<Host>, more: seq<Action> | Continues(states, actions, longer, more) ::
      forall k | |actions| <= k < |longer| && longer[k].phase.Deleting? :: Settled(longer[k])
  }

  /** Deletion stays safe after the cancellation of a start exactly when no living process is missing from the
      terminations at that time. */
  lemma CancellationIsSafe(states: seq<Host>, actions: seq<Action>)
    requires IsRun(states, actions) && LosesNothing(states, actions) && Enabled(states[|actions|], Lifecycle(CancelStart))
    ensures var s, a := states[|actions|], Lifecycle(CancelStart);
      StaysSafe(states + [Apply(s, a)], actions + [a]) <==> !LosesProcess(s, a)
  {
    var s, a := states[|actions|], Lifecycle(CancelStart);
    var cut, done := Extend(states, actions, a);
    if LosesProcess(s, a) {
      var p :| p in s.alive && p !in s.reg.terminations;
      RunKeepsInv(states, actions, |actions|);
      RunKeepsActive(states, actions, |actions|);
      LosingLeavesLost(s, p);
      var longer, more := LostIsDeletedUnder(cut, done, p);
      assert !Settled(longer[|more|]);
    } else {
      forall longer: seq<Host>, more: seq<Action>, k | Continues(cut, done, longer, more) && |done| <= k < |longer| && longer[k].phase.Deleting?
        ensures Settled(longer[k])
      {
        assert LosesNothing(longer, more) by {
          forall i | 0 <= i < |more|
            ensures !LosesProcess(longer[i], more[i])
          {
            assert i < |done| ==> more[i] == done[i] && longer[i] == cut[i];
          }
        }
        RunKeepsInv(longer, more, k);
      }
    }
  }

  /** What the program itself can see: a gathered request has no registry entry. Without one the cancellation is
      harmless. */
  predicate Drops(s: Host) { s.phase.Terminating? && !(s.phase.todo <= s.reg.terminations.Keys) }

  lemma RegisteredIsSafe(states: seq<Host>, actions: seq<Action>)
    requires IsRun(states, actions) && LosesNothing(states, actions) && Enabled(states[|actions|], Lifecycle(CancelStart))
    requires !Drops(states[|actions|])
    ensures StaysSafe(states + [Apply(states[|actions|], Lifecycle(CancelStart))], actions + [Lifecycle(CancelStart)])
  {
    RunKeepsInv(states, actions, |actions|);
    RunKeepsActive(states, actions, |actions|);
    CancellationIsSafe(states, actions);
  }

  /** The cancellation happens: a preparation command fails, the termination of its process fails, start cleans up
      after itself and is cancelled before the forgotten termination is requested again, and the next start removes
      the directories under the process. */
  lemma CancelledStartDeletesUnderLivingProcess() returns (states: seq<Host>, actions: seq<Action>)
    ensures IsRun(states, actions)
    ensures states[|actions|].phase.Deleting? && 7 in states[|actions|].alive
    ensures exists n | 0 <= n < |actions| :: LosesProcess(states[n], actions[n])
  {
    states, actions := StubbornPreparation();
    states, actions := Extend(states, actions, Stop(Snapshot));
    var n := |actions|;
    var snapshot := states[n];
    assert snapshot.reg == EmptyRegistry(map[], {});
    assert snapshot.alive == {7} && 7 !in snapshot.reg.terminations;
    states, actions := Extend(states, actions, Lifecycle(CancelStart));
    assert LosesProcess(states[n], actions[n]);
    ghost var before, lost := states, actions;
    states, actions := LostIsDeletedUnder(states, actions, 7);
    assert states[n] == before[n] && actions[n] == lost[n];
  }
}
