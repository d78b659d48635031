/** Coordination leases: a weak registry of thread locks, and file locks against other processes. */
module Leases {
  datatype Option<+T> = None | Some(value: T)

  type Thread = nat
  type Path = string
  type Lock = nat

  /** A thread that looked up the lock of a path holds a reference until it leaves. */
  datatype Phase = Waiting | Locked | Inside
  datatype Lease = Lease(path: Path, lock: Lock, phase: Phase)

  /** Who holds the lock on a coordination file: a thread of this process or another process. */
  datatype Owner = Ours(thread: Thread) | Theirs(process: nat)

  /** `entries` is the weak registry, `held` the thread locks, `files` the file locks. */
  datatype State = State(entries: map<Path, Lock>, made: nat, leases: map<Thread, Lease>, held: map<Lock, Thread>, files: map<Path, Owner>)

  const INITIAL := State(map[], 0, map[], map[], map[])

  datatype Action =
    | Look(t: Thread, path: Path)          // find or make the lock, under the registry lock
    | Acquire(t: Thread)                   // take the thread lock
    | Enter(t: Thread)                     // take the file lock
    | GiveUp(t: Thread)                    // time out or fail, wherever it waits
    | Leave(t: Thread)                     // unlock both
    | Collect(path: Path)                  // the registry drops a lock that nobody references
    | ForeignLock(path: Path, process: nat)
    | ForeignUnlock(path: Path)

  predicate Referenced(s: State, lock: Lock) { exists t :: t in s.leases && s.leases[t].lock == lock }

  predicate Enabled(s: State, a: Action) {
    match a
    case Look(t, _) => t !in s.leases
    case Acquire(t) => t in s.leases && s.leases[t].phase.Waiting? && s.leases[t].lock !in s.held
    case Enter(t) => t in s.leases && s.leases[t].phase.Locked? && s.leases[t].path !in s.files
    case GiveUp(t) => t in s.leases && !s.leases[t].phase.Inside?
    case Leave(t) => t in s.leases && s.leases[t].phase.Inside?
    case Collect(path) => path in s.entries && !Referenced(s, s.entries[path])
    case ForeignLock(path, _) => path !in s.files
    case ForeignUnlock(path) => path in s.files && s.files[path].Theirs?
  }

  /** The registry lookup: a live entry is used, otherwise a new lock is made and entered. */
  function LookUp(s: State, t: Thread, path: Path): State {
    if path in s.entries then s.(leases := s.leases[t := Lease(path, s.entries[path], Waiting)])
    else s.(entries := s.entries[path := s.made], made := s.made + 1, leases := s.leases[t := Lease(path, s.made, Waiting)])
  }

  /** The thread lock is released if it was taken, and the reference to it is dropped. */
  function Drop(s: State, t: Thread): State
    requires t in s.leases
  {
    var l := s.leases[t];
    s.(leases := s.leases - {t}, held := if l.phase.Waiting? then s.held else s.held - {l.lock})
  }

  function Apply(s: State, a: Action): State
    requires Enabled(s, a)
  {
    match a
    case Look(t, path) => LookUp(s, t, path)
    case Acquire(t) => s.(held := s.held[s.leases[t].lock := t], leases := s.leases[t := s.leases[t].(phase := Locked)])
    case Enter(t) => s.(files := s.files[s.leases[t].path := Ours(t)], leases := s.leases[t := s.leases[t].(phase := Inside)])
    case GiveUp(t) => Drop(s, t)
    case Leave(t) => Drop(s.(files := s.files - {s.leases[t].path}), t)
    case Collect(path) => s.(entries := s.entries - {path})
    case ForeignLock(path, process) => s.(files := s.files[path := Theirs(process)])
    case ForeignUnlock(path) => s.(files := s.files - {path})
  }

  /* ------------------------------------------------------------------ the invariant */

  /** A referenced lock is the registered one of its path, and paths do not share locks. */
  ghost predicate Registered(s: State) {
    && (forall t | t in s.leases :: s.leases[t].path in s.entries && s.entries[s.leases[t].path] == s.leases[t].lock)
    && (forall p, q | p in s.entries && q in s.entries && s.entries[p] == s.entries[q] :: p == q)
    && (forall p | p in s.entries :: s.entries[p] < s.made)
  }

  ghost predicate Exclusive(s: State) {
    && (forall t | t in s.leases && !s.leases[t].phase.Waiting? :: s.leases[t].lock in s.held && s.held[s.leases[t].lock] == t)
    && (forall t | t in s.leases && s.leases[t].phase.Inside? ::
          s.leases[t].path in s.files && s.files[s.leases[t].path] == Ours(t))
    && (forall l | l in s.held :: s.held[l] in s.leases && s.leases[s.held[l]].lock == l && !s.leases[s.held[l]].phase.Waiting?)
  }

  lemma StepKeepsRegistered(s: State, a: Action)
    requires Registered(s) && Enabled(s, a)
    ensures Registered(Apply(s, a))
  {
    if a.Collect? {
      forall t | t in s.leases
        ensures s.leases[t].path != a.path
      {
        assert s.leases[t].path == a.path ==> Referenced(s, s.entries[a.path]);
      }
    }
  }

  lemma StepKeepsExclusive(s: State, a: Action)
    requires Registered(s) && Exclusive(s) && Enabled(s, a)
    ensures Exclusive(Apply(s, a))
  {
    match a
    case Look(t, path) => LookKeepsExclusive(s, t, path);
    case Acquire(t) =>
    case Enter(t) =>
    case GiveUp(t) => DropKeepsExclusive(s, t);
    case Leave(t) => LeaveKeepsExclusive(s, t);
    case Collect(path) =>
    case ForeignLock(path, process) =>
    case ForeignUnlock(path) =>
  }

  lemma LookKeepsExclusive(s: State, t: Thread, path: Path)
    requires Registered(s) && Exclusive(s) && t !in s.leases
    ensures Exclusive(LookUp(s, t, path))
  {
  }

  lemma DropKeepsExclusive(s: State, t: Thread)
    requires Registered(s) && Exclusive(s) && t in s.leases && !s.leases[t].phase.Inside?
    ensures Exclusive(Drop(s, t))
  {
  }

  lemma LeaveKeepsExclusive(s: State, t: Thread)
    requires Registered(s) && Exclusive(s) && t in s.leases && s.leases[t].phase.Inside?
    ensures Exclusive(Drop(s.(files := s.files - {s.leases[t].path}), t))
  {
    var after := Drop(s.(files := s.files - {s.leases[t].path}), t);
    forall u | u in after.leases && after.leases[u].phase.Inside?
      ensures after.leases[u].path != s.leases[t].path
    {
      assert s.files[s.leases[u].path] == Ours(u);
    }
  }

  ghost predicate IsRun(states: seq<State>, actions: seq<Action>) {
    && |states| == |actions| + 1 && states[0] == INITIAL
    && forall i | 0 <= i < |actions| :: Enabled(states[i], actions[i]) && states[i + 1] == Apply(states[i], actions[i])
  }

  lemma {:induction false} RunKeepsLeases(states: seq<State>, actions: seq<Action>, i: nat)
    requires IsRun(states, actions) && i < |states|
    ensures Registered(states[i]) && Exclusive(states[i])
  {
    if i > 0 {
      RunKeepsLeases(states, actions, i - 1);
      assert Enabled(states[i - 1], actions[i - 1]);
      StepKeepsRegistered(states[i - 1], actions[i - 1]);
      StepKeepsExclusive(states[i - 1], actions[i - 1]);
      assert states[i - 1 + 1] == Apply(states[i - 1], actions[i - 1]);
    }
  }

  /** In every reachable state two overlapping leases on one path share the same thread lock, at most one of
      them is past it, and while one is inside nobody else holds the file. */
  lemma LeasesExclude(states: seq<State>, actions: seq<Action>, i: nat, t: Thread, u: Thread)
    requires IsRun(states, actions) && i < |states|
    requires t in states[i].leases && u in states[i].leases && states[i].leases[t].path == states[i].leases[u].path
    ensures var s := states[i];
      && s.leases[t].lock == s.leases[u].lock
      && (!s.leases[t].phase.Waiting? && !s.leases[u].phase.Waiting? ==> t == u)
      && (s.leases[t].phase.Inside? ==> s.leases[t].path in s.files && s.files[s.leases[t].path] == Ours(t))
  {
    RunKeepsLeases(states, actions, i);
  }

  /** A file lock of this process belongs to a lease that is inside. */
  ghost predicate Released(s: State) {
    forall path | path in s.files && s.files[path].Ours? ::
      s.files[path].thread in s.leases && s.leases[s.files[path].thread].path == path && s.leases[s.files[path].thread].phase.Inside?
  }

  lemma StepKeepsReleased(s: State, a: Action)
    requires Exclusive(s) && Released(s) && Enabled(s, a)
    ensures Released(Apply(s, a))
  {
    var after := Apply(s, a);
    forall path | path in after.files && after.files[path].Ours?
      ensures after.files[path].thread in after.leases && after.leases[after.files[path].thread].path == path
      ensures after.leases[after.files[path].thread].phase.Inside?
    {
      if path in s.files && s.files[path].Ours? {
        assert s.files[path].thread in s.leases && s.leases[s.files[path].thread].path == path;
      }
    }
  }

  /** In every reachable state nothing is locked but for a lease that needs it: a thread lock by a lease that
      took it, a file lock of this process by a lease that is inside.  Once a lease was left or given up its
      thread holds neither. */
  lemma {:induction false} NothingStaysLocked(states: seq<State>, actions: seq<Action>, i: nat)
    requires IsRun(states, actions) && i < |states|
    ensures Released(states[i]) && Exclusive(states[i])
    ensures forall t | t !in states[i].leases :: t !in states[i].held.Values && Ours(t) !in states[i].files.Values
  {
    RunKeepsLeases(states, actions, i);
    if i > 0 {
      NothingStaysLocked(states, actions, i - 1);
      RunKeepsLeases(states, actions, i - 1);
      assert Enabled(states[i - 1], actions[i - 1]);
      StepKeepsReleased(states[i - 1], actions[i - 1]);
      assert states[i - 1 + 1] == Apply(states[i - 1], actions[i - 1]);
    }
  }

  /** A path is forgotten only, and can always be forgotten, while no lease of it is under way. */
  lemma ForgottenExactly(s: State, path: Path)
    requires Registered(s)
    ensures Enabled(s, Collect(path)) <==> path in s.entries && forall t | t in s.leases :: s.leases[t].path != path
  {
    if path in s.entries && Referenced(s, s.entries[path]) {
      var t :| t in s.leases && s.leases[t].lock == s.entries[path];
      assert s.entries[s.leases[t].path] == s.entries[path];
    }
    if exists t :: t in s.leases && s.leases[t].path == path {
      var t :| t in s.leases && s.leases[t].path == path;
      assert s.leases[t].lock == s.entries[path];
    }
  }

  /** A step touches the lease of one thread only, and a lock of another process only if that releases it. */
  lemma StepIsLocal(s: State, a: Action)
    requires Registered(s) && Exclusive(s) && Enabled(s, a)
    ensures var after := Apply(s, a);
      && (a.GiveUp? || a.Leave? ==> a.t !in after.leases)
      && (forall t | t in s.leases && (a.Collect? || a.ForeignLock? || a.ForeignUnlock? || a.t != t) ::
            t in after.leases && after.leases[t] == s.leases[t])
      && (forall t | t in after.leases && t !in s.leases ::
            a == Look(t, after.leases[t].path) && after.leases[t].phase.Waiting?)
      && (forall path | path in s.files && s.files[path].Theirs? && a != ForeignUnlock(path) ::
            path in after.files && after.files[path] == s.files[path])
  {
  }

  /** Somebody can always go on: among the leases one may take its thread lock, or its file lock unless
      another process holds it, or leave. */
  lemma SomebodyGoesOn(s: State)
    requires Registered(s) && Exclusive(s) && Released(s) && s.leases != map[]
    ensures exists t | t in s.leases ::
      Enabled(s, Acquire(t)) || Enabled(s, Enter(t)) || Enabled(s, Leave(t)) ||
      (s.leases[t].phase.Locked? && s.leases[t].path in s.files && s.files[s.leases[t].path].Theirs?)
  {
    var t :| t in s.leases;
    if s.leases[t].phase.Waiting? && s.leases[t].lock in s.held {
      var u := s.held[s.leases[t].lock];
      LockedGoesOn(s, u);
    } else if s.leases[t].phase.Locked? {
      LockedGoesOn(s, t);
    } else if s.leases[t].phase.Waiting? {
      assert Enabled(s, Acquire(t));
    } else {
      assert Enabled(s, Leave(t));
    }
  }

  lemma LockedGoesOn(s: State, u: Thread)
    requires Registered(s) && Exclusive(s) && Released(s) && u in s.leases && !s.leases[u].phase.Waiting?
    ensures exists t | t in s.leases ::
      Enabled(s, Acquire(t)) || Enabled(s, Enter(t)) || Enabled(s, Leave(t)) ||
      (s.leases[t].phase.Locked? && s.leases[t].path in s.files && s.files[s.leases[t].path].Theirs?)
  {
    if s.leases[u].phase.Inside? {
      assert Enabled(s, Leave(u));
    } else if s.leases[u].path !in s.files {
      assert Enabled(s, Enter(u));
    } else if s.files[s.leases[u].path].Ours? {
      assert Enabled(s, Leave(s.files[s.leases[u].path].thread));
    }
  }

  /** The weak registry of the process. */
  class LeaseRegistry {
    var entries: map<Path, Lock>
    var made: nat

    constructor ()
      ensures entries == INITIAL.entries && made == INITIAL.made
    {
      entries, made := map[], 0;
    }

    /** The lookup of one thread, as `LookUp` says. */
    method LockOf(path: Path) returns (lock: Lock)
      modifies this
      ensures forall s: State, t | s.entries == old(entries) && s.made == old(made) ::
        LookUp(s, t, path).entries == entries && LookUp(s, t, path).made == made && LookUp(s, t, path).leases == s.leases[t := Lease(path, lock, Waiting)]
    {
      if path !in entries {
        entries := entries[path := made];
        made := made + 1;
      }
      lock := entries[path];
    }
  }
}
