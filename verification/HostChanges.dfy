/**
 * What each field of the host environment says about the run: when it changes, and when it does not.  The statements
 * name the event, not the code that handles it.
 */
module HostChanges {
  import opened HostLifecycle

  /* ------------------------------------------------------------------ what each kind of action leaves alone */

  lemma CommandFrame(s: Host, c: CommandAction)
    requires CommandEnabled(s, c)
    ensures var after := CommandStep(s, c);
      && after.phase == s.phase && after.workspace == s.workspace && after.runtimeRoot == s.runtimeRoot &&
            after.working == s.working
      && after.reg.started == s.reg.started && after.reg.stopping == s.reg.stopping && after.reg.filesystem == s.reg.filesystem
  {
  }

  lemma WorldFrame(s: Host, w: WorldAction)
    requires WorldEnabled(s, w)
    ensures var after := WorldStep(s, w);
      && after.phase == s.phase && after.workspace == s.workspace && after.runtimeRoot == s.runtimeRoot
      && after.calls == s.calls && after.launch == s.launch
      && after.reg == s.reg.(filesystem := after.reg.filesystem)
  {
  }

  lemma StopFrame(s: Host, t: StopAction)
    requires StopEnabled(s, t)
    ensures var after := StopStep(s, t);
      && after.calls == s.calls && after.launch == s.launch && after.alive == s.alive && after.working == s.working
      && after.reg.active == s.reg.active && after.reg.filesystem == s.reg.filesystem
  {
    if t.TerminationsGathered? || t.WorkersGathered? || t.DeletionEnds? {
      SamePhaseFields(s, t);
    }
  }

  /* ------------------------------------------------------------------ flags and directories */

  /** A stop that nobody cancelled ends without an error: all was gathered, and what had to be deleted is gone. */
  predicate StopsWell(s: Host, a: Action) {
    && s.phase.Stops() && s.phase.origin == ByStop(false)
    && (|| (a == Stop(WorkersGathered) && s.phase.Flushing? && !s.phase.delete)
        || (s.phase.Deleting? && a.Stop? && a.stop.DeletionEnds? &&
            (s.workspace ==> a.stop.workspaceGone) && (s.runtimeRoot ==> a.stop.rootGone)))
  }

  /** While a stop is under way, `stopping` is set. */
  predicate Halting(s: Host) { s.phase.Stops() && s.phase.origin.ByStop? ==> s.reg.stopping }

  /** `stopping` is set by a call of stop and cleared by an end without an error, and by nothing else. */
  lemma StoppingChanges(s: Host, a: Action)
    requires Enabled(s, a) && Halting(s)
    ensures Apply(s, a).reg.stopping <==>
      CallsStop(a) || (s.reg.stopping && !StopsWell(s, a))
  {
    match a
    case Command(c) => CommandFrame(s, c);
    case World(w) => WorldFrame(s, w);
    case Lifecycle(_) =>
    case Stop(t) => StopChangesStopping(s, t);
  }

  lemma StopChangesStopping(s: Host, t: StopAction)
    requires StopEnabled(s, t) && Halting(s)
    ensures StopStep(s, t).reg.stopping <==> s.reg.stopping && !StopsWell(s, Stop(t))
  {
  }

  lemma StepKeepsHalting(s: Host, a: Action)
    requires Enabled(s, a) && Halting(s)
    ensures Halting(Apply(s, a))
  {
    match a
    case Command(c) => CommandFrame(s, c);
    case World(w) => WorldFrame(s, w);
    case Lifecycle(_) =>
    case Stop(t) => StopKeepsHalting(s, t);
  }

  lemma StopKeepsHalting(s: Host, t: StopAction)
    requires StopEnabled(s, t) && Halting(s)
    ensures Halting(StopStep(s, t))
  {
  }

  lemma {:induction false} RunKeepsHalting(states: seq<Host>, actions: seq<Action>, n: nat)
    requires IsRun(states, actions) && n < |states|
    ensures Halting(states[n])
  {
    if n > 0 {
      RunKeepsHalting(states, actions, n - 1);
      StepKeepsHalting(states[n - 1], actions[n - 1]);
    }
  }

  predicate CallsStop(a: Action) { a.Lifecycle? && a.lifecycle.CallStop? }

  /** Some call of stop has not been followed by a good end. */
  ghost predicate StillStopping(states: seq<Host>, actions: seq<Action>, n: nat)
    requires n < |states| && n <= |actions|
  {
    exists i :: 0 <= i < n && CallsStop(actions[i]) && forall k | i < k < n :: !StopsWell(states[k], actions[k])
  }

  lemma StillStoppingStep(states: seq<Host>, actions: seq<Action>, n: nat)
    requires 0 < n < |states| && n <= |actions|
    ensures StillStopping(states, actions, n) <==>
      CallsStop(actions[n - 1]) || (StillStopping(states, actions, n - 1) && !StopsWell(states[n - 1], actions[n - 1]))
  {
  }

  /** In every run `stopping` is set exactly while that is so. */
  lemma {:induction false} StoppingTells(states: seq<Host>, actions: seq<Action>, n: nat)
    requires IsRun(states, actions) && n < |states|
    ensures states[n].reg.stopping <==> StillStopping(states, actions, n)
  {
    if n > 0 {
      RunKeepsHalting(states, actions, n - 1);
      StoppingTells(states, actions, n - 1);
      StoppingChanges(states[n - 1], actions[n - 1]);
      StillStoppingStep(states, actions, n);
    }
  }

  /** The caller of the latest stop has been cancelled since. */
  predicate CancelledSince(actions: seq<Action>) {
    if actions == [] then false
    else
      var last := actions[|actions| - 1];
      if CallsStop(last) then false else last == Lifecycle(CancelStop) || CancelledSince(actions[..|actions| - 1])
  }

  predicate KnowsCancelled(s: Host, actions: seq<Action>) {
    s.phase.Stops() && s.phase.origin.ByStop? ==> (s.phase.origin.cancelled <==> CancelledSince(actions))
  }

  lemma StopKeepsCancelled(s: Host, t: StopAction, cancelled: bool)
    requires StopEnabled(s, t) && (s.phase.Stops() && s.phase.origin.ByStop? ==> s.phase.origin.cancelled == cancelled)
    ensures var after := StopStep(s, t);
      after.phase.Stops() && after.phase.origin.ByStop? ==> after.phase.origin.cancelled == cancelled
  {
  }

  lemma LifecycleKeepsCancelled(s: Host, l: LifecycleAction, cancelled: bool)
    requires LifecycleEnabled(s, l) && (s.phase.Stops() && s.phase.origin.ByStop? ==> s.phase.origin.cancelled == cancelled)
    ensures var after := LifecycleStep(s, l);
      after.phase.Stops() && after.phase.origin.ByStop? ==>
        after.phase.origin.cancelled == (if l.CallStop? then false else l.CancelStop? || cancelled)
  {
  }

  lemma StepKeepsCancelled(s: Host, a: Action, actions: seq<Action>)
    requires Enabled(s, a) && KnowsCancelled(s, actions)
    ensures KnowsCancelled(Apply(s, a), actions + [a])
  {
    assert (actions + [a])[..|actions|] == actions;
    match a
    case Command(c) => CommandFrame(s, c);
    case World(w) => WorldFrame(s, w);
    case Lifecycle(l) => LifecycleKeepsCancelled(s, l, CancelledSince(actions));
    case Stop(t) => StopKeepsCancelled(s, t, CancelledSince(actions));
  }

  /** In every run a stop that is under way knows whether its caller was cancelled, read off the list of actions. */
  lemma {:induction false} RunKeepsCancelled(states: seq<Host>, actions: seq<Action>, n: nat)
    requires IsRun(states, actions) && n < |states|
    ensures KnowsCancelled(states[n], actions[..n])
  {
    if n > 0 {
      RunKeepsCancelled(states, actions, n - 1);
      StepKeepsCancelled(states[n - 1], actions[n - 1], actions[..n - 1]);
      assert actions[..n] == actions[..n - 1] + [actions[n - 1]];
    }
  }

  predicate Removes(a: Action, workspace: bool) {
    a.Stop? && a.stop.DeletionEnds? && (if workspace then a.stop.workspaceGone else a.stop.rootGone)
  }

  /** Directories appear while start goes on, and disappear when a deletion removed them. */
  lemma DirectoriesChange(s: Host, a: Action)
    requires Enabled(s, a)
    ensures Apply(s, a).workspace <==> a == Lifecycle(WorkspaceCreated) || (s.workspace && !Removes(a, true))
    ensures Apply(s, a).runtimeRoot <==>
      (Apply(s, a).phase.Initializing? && !s.phase.Initializing?) || (s.runtimeRoot && !Removes(a, false))
  {
    match a
    case Command(c) => CommandFrame(s, c);
    case World(w) => WorldFrame(s, w);
    case Lifecycle(_) =>
    case Stop(t) => StopChangesDirectories(s, t);
  }

  lemma StopChangesDirectories(s: Host, t: StopAction)
    requires StopEnabled(s, t)
    ensures var after := StopStep(s, t);
      && (after.workspace <==> s.workspace && !Removes(Stop(t), true))
      && (after.runtimeRoot <==> (after.phase.Initializing? && !s.phase.Initializing?) || (s.runtimeRoot && !Removes(Stop(t), false)))
  {
  }

  /* ------------------------------------------------------------------ processes and their terminations */

  /** The call that owns `p` is over. */
  predicate Ends(s: Host, a: Action, p: Process)
    requires Enabled(s, a)
  {
    a.Command? && (a.command.CommandEnds? || a.command.CleanedUp?) && s.calls[a.command.e].pc.process == p
  }

  predicate Spawns(a: Action, p: Process) { a.Command? && a.command.Spawned? && a.command.p == p }

  /** A command that failed, or a stop, asks for the end of `p`. */
  predicate Asks(s: Host, a: Action, p: Process)
    requires Enabled(s, a)
  {
    || (a.Command? && a.command.RequestTermination? && s.calls[a.command.e].pc.process == p)
    || (a.Stop? && a.stop.StopTerminates? && a.stop.p == p)
  }

  function Spare(s: Host, a: Action, p: Process): Task
    requires Enabled(s, a) && Asks(s, a, p)
  {
    if a.Command? then a.command.spare else a.stop.spare
  }

  /** A registered termination is done with: it succeeded and its command is over, it failed and a stop will try
      again, or a stop gathered it. */
  predicate Forgets(s: Host, a: Action, p: Process)
    requires Enabled(s, a) && p in s.reg.terminations
  {
    || (Ends(s, a, p) && IsSucceeded(s.tasks, s.reg.terminations[p]))
    || (a == Stop(Snapshot) && IsFailed(s.tasks, s.reg.terminations[p]))
    || (a == Stop(CommandsGathered) && p in s.phase.processes)
  }

  lemma ActiveChanges(s: Host, a: Action, p: Process)
    requires Enabled(s, a)
    ensures p in Apply(s, a).reg.active <==> Spawns(a, p) || (p in s.reg.active && !Ends(s, a, p))
  {
    match a
    case Command(c) => CommandChangesActive(s, c, p);
    case World(w) => WorldFrame(s, w);
    case Lifecycle(l) => LifecycleFields(s, l);
    case Stop(t) => StopFrame(s, t);
  }

  lemma CommandChangesActive(s: Host, c: CommandAction, p: Process)
    requires CommandEnabled(s, c)
    ensures p in CommandStep(s, c).reg.active <==>
      Spawns(Command(c), p) || (p in s.reg.active && !Ends(s, Command(c), p))
  {
  }

  /** A termination is registered when it is first asked for, with a new task, and keeps that task until it is done with. */
  predicate TerminationsTold(s: Host, a: Action, p: Process, after: Host)
    requires Enabled(s, a)
  {
    && (p in after.reg.terminations <==> Asks(s, a, p) || (p in s.reg.terminations && !Forgets(s, a, p)))
    && (p in s.reg.terminations && p in after.reg.terminations ==>
          after.reg.terminations[p] == s.reg.terminations[p])
    && (p !in s.reg.terminations && Asks(s, a, p) ==>
          var t := Spare(s, a, p);
            t !in s.tasks && after.reg.terminations[p] == t && t in after.tasks && after.tasks[t] == Termination(p, Running))
  }

  lemma TerminationsChange(s: Host, a: Action, p: Process)
    requires Enabled(s, a)
    ensures TerminationsTold(s, a, p, Apply(s, a))
  {
    match a
    case Command(c) => CommandChangesTerminations(s, c, p);
    case World(w) => WorldFrame(s, w);
    case Lifecycle(l) => LifecycleFields(s, l);
    case Stop(t) => StopChangesTerminations(s, t, p);
  }

  lemma CommandChangesTerminations(s: Host, c: CommandAction, p: Process)
    requires CommandEnabled(s, c)
    ensures TerminationsTold(s, Command(c), p, CommandStep(s, c))
  {
  }

  lemma StopChangesTerminations(s: Host, t: StopAction, p: Process)
    requires StopEnabled(s, t)
    ensures TerminationsTold(s, Stop(t), p, StopStep(s, t))
  {
  }

  /** A termination task ends once, and a successful one ended its process. */
  lemma TasksChange(s: Host, a: Action, t: Task)
    requires Enabled(s, a)
    ensures t in s.tasks ==> t in Apply(s, a).tasks && Apply(s, a).tasks[t].process == s.tasks[t].process
    ensures t in s.tasks && Apply(s, a).tasks[t] != s.tasks[t] ==>
      && s.tasks[t].outcome.Running? && a.World? && a.world.TerminationEnds? && a.world.t == t
      && Apply(s, a).tasks[t].outcome == (if a.world.ok then Succeeded else Failed)
      && (a.world.ok ==> s.tasks[t].process !in Apply(s, a).alive)
    ensures t !in s.tasks && t in Apply(s, a).tasks ==>
      var p := Apply(s, a).tasks[t].process; Asks(s, a, p) && t == Spare(s, a, p) && Apply(s, a).tasks[t].outcome.Running?
  {
  }

  /** A process lives from its spawning until it exits or a termination of it succeeds. */
  lemma AliveChanges(s: Host, a: Action, p: Process)
    requires Enabled(s, a)
    ensures p in Apply(s, a).alive <==>
      Spawns(a, p) ||
      (p in s.alive && a != World(Exits(p)) &&
       !(a.World? && a.world.TerminationEnds? && a.world.ok && s.tasks[a.world.t].process == p))
  {
    match a
    case Command(c) => CommandChangesAlive(s, c, p);
    case World(_) =>
    case Lifecycle(l) => LifecycleFields(s, l);
    case Stop(t) => StopFrame(s, t);
  }

  lemma CommandChangesAlive(s: Host, c: CommandAction, p: Process)
    requires CommandEnabled(s, c)
    ensures p in CommandStep(s, c).alive <==> Spawns(Command(c), p) || p in s.alive
  {
  }

  /* ------------------------------------------------------------------ what a stop gathers */

  /** A stop that is under way has seen these commands and processes in its snapshot. */
  predicate Seen(s: Host, commands: set<Process>, processes: set<Process>) {
    && (s.phase.Terminating? ==> s.phase.commands == commands && s.phase.todo + s.phase.awaited.Keys == processes)
    && (s.phase.Draining? ==> s.phase.commands == commands && s.phase.processes == processes)
  }

  lemma StopKeepsSeen(s: Host, t: StopAction, commands: set<Process>, processes: set<Process>)
    requires StopEnabled(s, t) && !t.Snapshot? && Seen(s, commands, processes)
    ensures Seen(StopStep(s, t), commands, processes)
  {
  }

  lemma StepKeepsSeen(s: Host, a: Action, commands: set<Process>, processes: set<Process>)
    requires Enabled(s, a) && a != Stop(Snapshot) && Seen(s, commands, processes)
    ensures Seen(Apply(s, a), commands, processes)
  {
    match a
    case Command(c) => CommandFrame(s, c);
    case World(w) => WorldFrame(s, w);
    case Lifecycle(_) =>
    case Stop(t) => StopKeepsSeen(s, t, commands, processes);
  }

  lemma {:induction false} RunKeepsSeen(states: seq<Host>, actions: seq<Action>, i: nat, m: nat)
    requires IsRun(states, actions) && i < m < |states| && actions[i] == Stop(Snapshot)
    requires forall k | i < k < m :: actions[k] != Stop(Snapshot)
    ensures Seen(states[m], states[i].reg.active, states[i].reg.Tracked())
    decreases m
  {
    if m == i + 1 {
      SnapshotSees(states[i]);
    } else {
      RunKeepsSeen(states, actions, i, m - 1);
      StepKeepsSeen(states[m - 1], actions[m - 1], states[i].reg.active, states[i].reg.Tracked());
    }
  }

  lemma SnapshotSees(s: Host)
    requires Enabled(s, Stop(Snapshot))
    ensures Seen(Apply(s, Stop(Snapshot)), s.reg.active, s.reg.Tracked())
  {
  }

  /** When a stop has gathered everything, no command of its snapshot is active and no process of it is registered. */
  lemma GatheredAreForgotten(states: seq<Host>, actions: seq<Action>, i: nat, m: nat)
    requires IsRun(states, actions) && i < m < |actions| && actions[i] == Stop(Snapshot) && actions[m] == Stop(CommandsGathered)
    requires forall k | i < k < m :: actions[k] != Stop(Snapshot)
    ensures states[m + 1].reg.active !! states[i].reg.active
    ensures states[m + 1].reg.terminations.Keys !! states[i].reg.Tracked()
  {
    RunKeepsSeen(states, actions, i, m);
    GatheredForgets(states[m]);
  }

  lemma GatheredForgets(s: Host)
    requires Enabled(s, Stop(CommandsGathered))
    ensures var after := Apply(s, Stop(CommandsGathered));
      after.reg.active !! s.phase.commands && after.reg.terminations.Keys !! s.phase.processes
  {
  }

  /* ------------------------------------------------------------------ filesystem operations and calls */

  /** An operation is registered when it is admitted and until it returns; its worker may end earlier. */
  lemma FilesystemChanges(s: Host, a: Action, o: Operation)
    requires Enabled(s, a)
    ensures o in Apply(s, a).reg.filesystem <==>
      a == World(CallFilesystem(o)) || (o in s.reg.filesystem && a != World(FilesystemReturns(o)))
    ensures o in Apply(s, a).working <==> a == World(CallFilesystem(o)) || (o in s.working && a != World(WorkerEnds(o)))
    ensures a == World(CallFilesystem(o)) ==> s.reg.Ready()
  {
    match a
    case Command(c) => CommandFrame(s, c);
    case World(_) =>
    case Lifecycle(l) => LifecycleFields(s, l);
    case Stop(t) => StopFrame(s, t);
  }

  /** A call spawns only while it holds the launch lock, which it got while the environment was ready for it. */
  lemma LaunchChanges(s: Host, a: Action, e: Exec)
    requires Enabled(s, a)
    ensures Apply(s, a).launch == Some(e) && s.launch != Some(e) ==>
      a == Command(Acquire(e)) && s.launch.None? && CallReady(s, s.calls[e].initializing) && Apply(s, a).calls[e].pc.Spawning?
    ensures a == Command(Acquire(e)) && !CallReady(s, s.calls[e].initializing) ==>
          e !in Apply(s, a).calls && Apply(s, a).launch.None?
    ensures s.launch.Some? && a != Command(Acquire(e)) && Apply(s, a).launch != s.launch ==>
      Apply(s, a).launch.None? && a.Command? && (a.command.Spawned? || a.command.SpawnFails?)
  {
    match a
    case Command(_) =>
    case World(w) => WorldFrame(s, w);
    case Lifecycle(l) => LifecycleFields(s, l);
    case Stop(t) => StopFrame(s, t);
  }
}
