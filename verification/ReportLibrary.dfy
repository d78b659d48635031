/** Report packages, their management state under leases, and the cache of bound sources. */
module ReportLibrary {
  import opened ReportState

  type Report = string
  type Thread = nat

  /** A package whose state file is unreadable binds nothing and cannot be edited. */
  datatype Package = Damaged | Managed(state: Management)
  type Disk = map<Report, Package>

  /** The source references that a package binds. */
  function RefsOf(p: Package): set<string> {
    if p.Damaged? then {} else set ref | ref in p.state.sourceRefs
  }

  function BoundTo(d: Disk, report: Report): set<string> { if report in d then RefsOf(d[report]) else {} }

  /* ------------------------------------------------------------------ edits */

  /** A change of the management state: `None` when nothing is written, because the state is already as
      wanted, or is refused. */
  type Edit = Management -> Option<Management>

  datatype Mutation = Update(report: Report, edit: Edit) | Delete(report: Report) | Import(report: Report, package: Package)

  /** `None` when the mutation fails or has nothing to write. */
  function Effect(m: Mutation, d: Disk): Option<Disk> {
    match m
    case Update(report, edit) =>
      if report !in d || d[report].Damaged? || edit(d[report].state).None? then None
      else Some(d[report := Managed(edit(d[report].state).value)])
    case Delete(report) => if report in d then Some(d - {report}) else None
    case Import(report, package) => if report in d then None else Some(d[report := package])
  }

  /** Setting the archived flag: an equal flag writes nothing. */
  function SetArchived(archived: bool, f: Files): Edit {
    (s: Management) =>
      if s.archived == archived then None
      else if WriteState(s.(archived := archived), f).None? then None
      else Some(s.(archived := archived))
  }

  /** Replacing the bindings with what the caller resolves from the current state. */
  function ReplaceBindings(resolve: Management -> Option<(seq<string>, seq<string>, seq<string>)>, f: Files): Edit {
    (s: Management) =>
      var bindings := resolve(s);
      if bindings.None? then None
      else
        var next := s.(sourceRefs := bindings.value.0, datasetIds := bindings.value.1, jobRefs := bindings.value.2);
        if WriteState(next, f).None? then None else Some(next)
  }

  /* ------------------------------------------------------------------ threads */

  /** Where a call stands. Writers: the lease is held from `Leased` on (an import needs none). Readers: the
      cache lock is held in `Listing`, `Computing` and `Opening`; `at` is the length of the log when the state
      file to be opened was looked at, and `dropped` are the reports that then had another file. */
  datatype Call =
    | Leased(m: Mutation)
    | Seen(m: Mutation, state: Management)
    | Written(m: Mutation, commit: nat)
    | Cleared(m: Mutation, commit: nat)
    | Asked(begun: nat)
    | Listing(begun: nat, start: nat)
    | Computing(begun: nat, start: nat, todo: set<Report>, refs: set<string>, dropped: set<Report>)
    | Opening(begun: nat, start: nat, todo: set<Report>, refs: set<string>, dropped: set<Report>, report: Report, at: nat)
    | Answered(begun: nat, refs: set<string>, dropped: set<Report>)

  datatype Cached = Cached(refs: set<string>, since: nat, dropped: set<Report>)

  /** `history` are the states of the disk, one more with each committed mutation, `log` those mutations;
      `returned` is the latest commit of a mutation of this library that has returned. */
  datatype World = World(history: seq<Disk>, log: seq<Mutation>, leases: map<Report, Thread>, cacheLock: Option<Thread>,
                         cache: Option<Cached>, calls: map<Thread, Call>, returned: nat)

  datatype Action =
    | Begin(t: Thread, m: Mutation)
    | Read(t: Thread)
    | Write(t: Thread)
    | Abort(t: Thread)
    | Clear(t: Thread)
    | Return(t: Thread)
    | Foreign(m: Mutation)       // a mutation by another library or process, under its lease
    | Ask(t: Thread)
    | Look(t: Thread)            // take the cache lock: answer from the cache, or begin to compute
    | List(t: Thread)
    | Stat(t: Thread, report: Report)
    | Open(t: Thread)
    | Store(t: Thread)
    | Answer(t: Thread)

  function Now(w: World): Disk
    requires w.history != []
  {
    w.history[|w.history| - 1]
  }

  function Version(w: World): nat
    requires w.history != []
  {
    |w.history| - 1
  }

  /** A mutation of the report was committed since then: its state file is another one. */
  predicate Touched(log: seq<Mutation>, since: nat, report: Report) {
    exists i | since <= i < |log| :: log[i].report == report
  }

  predicate HoldsLease(c: Call) { (c.Leased? || c.Seen? || c.Written? || c.Cleared?) && !c.m.Import? }

  function CommitOf(m: Mutation, w: World): World
    requires w.history != [] && Effect(m, Now(w)).Some?
  {
    w.(history := w.history + [Effect(m, Now(w)).value], log := w.log + [m])
  }

  /** What the writer puts on the disk: computed from the state that it read, not from the current one. */
  function Stored(c: Call, d: Disk): Option<Disk>
    requires c.Seen? || (c.Leased? && !c.m.Update?)
  {
    if c.Leased? then Effect(c.m, d)
    else if !c.m.Update? || c.m.edit(c.state).None? then None
    else Some(d[c.m.report := Managed(c.m.edit(c.state).value)])
  }

  predicate Writable(c: Call) { c.Seen? || (c.Leased? && !c.m.Update?) }

  predicate Enabled(w: World, a: Action)
    requires w.history != []
  {
    match a
    case Begin(t, m) => t !in w.calls && (m.Import? || m.report !in w.leases)
    case Read(t) =>
      t in w.calls && w.calls[t].Leased? && w.calls[t].m.Update? && w.calls[t].m.report in Now(w) && Now(w)[w.calls[t].m.report].Managed?
    case Write(t) => t in w.calls && Writable(w.calls[t]) && Stored(w.calls[t], Now(w)).Some?
    case Abort(t) => t in w.calls && (w.calls[t].Leased? || w.calls[t].Seen?)
    case Clear(t) => t in w.calls && w.calls[t].Written? && w.cacheLock.None?
    case Return(t) => t in w.calls && w.calls[t].Cleared?
    case Foreign(m) => (m.Import? || m.report !in w.leases) && Effect(m, Now(w)).Some?
    case Ask(t) => t !in w.calls
    case Look(t) => t in w.calls && w.calls[t].Asked? && w.cacheLock.None?
    case List(t) => t in w.calls && w.calls[t].Listing?
    case Stat(t, report) => t in w.calls && w.calls[t].Computing? && report in w.calls[t].todo
    case Open(t) => t in w.calls && w.calls[t].Opening?
    case Store(t) => t in w.calls && w.calls[t].Computing? && w.calls[t].todo == {}
    case Answer(t) => t in w.calls && w.calls[t].Answered?
  }

  function Unleased(w: World, c: Call): map<Report, Thread> { if HoldsLease(c) then w.leases - {c.m.report} else w.leases }

  function ApplyWriter(w: World, a: Action): World
    requires w.history != [] && Enabled(w, a)
    requires a.Begin? || a.Read? || a.Write? || a.Abort? || a.Clear? || a.Return? || a.Foreign?
  {
    match a
    case Begin(t, m) =>
      w.(leases := if m.Import? then w.leases else w.leases[m.report := t], calls := w.calls[t := Leased(m)])
    case Read(t) =>
      var m := w.calls[t].m;
      w.(calls := w.calls[t := Seen(m, Now(w)[m.report].state)])
    case Write(t) =>
      var m := w.calls[t].m;
      w.(history := w.history + [Stored(w.calls[t], Now(w)).value], log := w.log + [m], calls := w.calls[t := Written(m, |w.history|)])
    case Abort(t) => w.(leases := Unleased(w, w.calls[t]), calls := w.calls - {t})
    case Clear(t) => w.(cache := None, calls := w.calls[t := Cleared(w.calls[t].m, w.calls[t].commit)])
    case Return(t) =>
      var commit := w.calls[t].commit;
      w.(leases := Unleased(w, w.calls[t]), calls := w.calls - {t}, returned := if commit > w.returned then commit else w.returned)
    case Foreign(m) => CommitOf(m, w)
  }

  predicate IsReader(a: Action) { a.Ask? || a.Look? || a.List? || a.Stat? || a.Open? || a.Store? || a.Answer? }

  function ApplyReader(w: World, a: Action): World
    requires w.history != [] && Enabled(w, a)
    requires IsReader(a)
  {
    match a
    case Ask(t) => w.(calls := w.calls[t := Asked(w.returned)])
    case Look(t) =>
      if w.cache.Some? then w.(calls := w.calls[t := Answered(w.calls[t].begun, w.cache.value.refs, w.cache.value.dropped)])
      else w.(cacheLock := Some(t), calls := w.calls[t := Listing(w.calls[t].begun, Version(w))])
    case List(t) => w.(calls := w.calls[t := Computing(w.calls[t].begun, w.calls[t].start, Now(w).Keys, {}, {})])
    case Stat(t, report) =>
      var c := w.calls[t];
      w.(calls := w.calls[t :=
        if report in Now(w) then Opening(c.begun, c.start, c.todo, c.refs, c.dropped, report, |w.log|) else Computing(c.begun, c.start, c.todo - {report}, c.refs, c.dropped)])
    case Open(t) =>
      // a file that is not the one that was looked at is given up, and the report then binds nothing
      var c := w.calls[t];
      var other := Touched(w.log, c.at, c.report);
      w.(calls := w.calls[t := Computing(c.begun, c.start, c.todo - {c.report},
                                         if other then c.refs else c.refs + BoundTo(Now(w), c.report),
                                         if other then c.dropped + {c.report} else c.dropped)])
    case Store(t) =>
      var c := w.calls[t];
      w.(cacheLock := None, cache := Some(Cached(c.refs, c.start, c.dropped)), calls := w.calls[t := Answered(c.begun, c.refs, c.dropped)])
    case Answer(t) => w.(calls := w.calls - {t})
  }

  function Apply(w: World, a: Action): World
    requires w.history != [] && Enabled(w, a)
  {
    if IsReader(a) then ApplyReader(w, a) else ApplyWriter(w, a)
  }

  /* ------------------------------------------------------------------ what holds in every state */

  /** What each mutation does, and when: bindings are replaced and the flag is kept, the flag is changed and
      the bindings are kept, a package is gone, or there is a new one. */
  lemma BindingsAreReplaced(report: Report, resolve: Management -> Option<(seq<string>, seq<string>, seq<string>)>,
        f: Files, d: Disk)
    ensures var after := Effect(Update(report, ReplaceBindings(resolve, f)), d);
      var possible := report in d && d[report].Managed? && resolve(d[report].state).Some?;
      && (after.Some? ==> possible)
      && (possible ==>
            var bindings := resolve(d[report].state).value;
            var next := Management(bindings.0, bindings.1, bindings.2, d[report].state.archived);
            && (after.Some? <==> WriteState(next, f).Some?)
            && (after.Some? ==> after.value == d[report := Managed(next)]))
  {
  }

  lemma FlagIsSet(report: Report, archived: bool, f: Files, d: Disk)
    ensures var after := Effect(Update(report, SetArchived(archived, f)), d);
      var possible := report in d && d[report].Managed? && d[report].state.archived != archived;
      && (after.Some? ==> possible)
      && (possible ==>
            var state := d[report].state;
            var next := Management(state.sourceRefs, state.datasetIds, state.jobRefs, archived);
            && (after.Some? <==> WriteState(next, f).Some?)
            && (after.Some? ==> after.value == d[report := Managed(next)]))
  {
  }

  lemma PackagesComeAndGo(report: Report, package: Package, d: Disk)
    ensures Effect(Delete(report), d) == if report in d then Some(d - {report}) else None
    ensures Effect(Import(report, package), d) == if report !in d then Some(d[report := package]) else None
  {
  }

  /** The disk is what the committed mutations make of it one after the other. */
  ghost predicate Serial(w: World) {
    && |w.history| == |w.log| + 1
    && forall i | 0 <= i < |w.log| :: Effect(w.log[i], w.history[i]) == Some(w.history[i + 1])
  }

  /** Leases exclude, and what a writer has read is what is there. */
  ghost predicate Leasing(w: World)
    requires w.history != []
  {
    && (forall t | t in w.calls && HoldsLease(w.calls[t]) ::
          w.calls[t].m.report in w.leases && w.leases[w.calls[t].m.report] == t)
    && (forall t | t in w.calls && w.calls[t].Seen? ::
          && w.calls[t].m.Update? && w.calls[t].m.report in Now(w)
          && Now(w)[w.calls[t].m.report] == Managed(w.calls[t].state))
  }

  lemma StoredIsEffect(w: World, t: Thread)
    requires w.history != [] && Leasing(w) && t in w.calls && Writable(w.calls[t]) && Stored(w.calls[t], Now(w)).Some?
    ensures Effect(w.calls[t].m, Now(w)) == Stored(w.calls[t], Now(w))
  {
  }

  lemma StepKeepsSerial(w: World, a: Action)
    requires w.history != [] && Serial(w) && Leasing(w) && Enabled(w, a)
    ensures Apply(w, a).history != [] && Serial(Apply(w, a))
  {
    var after := Apply(w, a);
    if a.Write? {
      StoredIsEffect(w, a.t);
    }
    if a.Write? || a.Foreign? {
      assert after.history[..|w.history|] == w.history && after.log[..|w.log|] == w.log;
      forall i | 0 <= i < |after.log|
        ensures Effect(after.log[i], after.history[i]) == Some(after.history[i + 1])
      {
        if i < |w.log| {
          assert after.log[i] == w.log[i] && after.history[i] == w.history[i] && after.history[i + 1] == w.history[i + 1];
        }
      }
    }
  }

  /** A mutation touches its own report only. */
  lemma EffectIsLocal(m: Mutation, d: Disk, other: Report)
    requires Effect(m, d).Some? && other != m.report
    ensures other in d <==> other in Effect(m, d).value
    ensures other in d ==> Effect(m, d).value[other] == d[other]
  {
  }

  /** Every lease is held by a call that is under way. */
  ghost predicate Held(w: World) {
    forall report | report in w.leases ::
      w.leases[report] in w.calls && HoldsLease(w.calls[w.leases[report]]) && w.calls[w.leases[report]].m.report == report
  }

  lemma StepKeepsHeld(w: World, a: Action)
    requires w.history != [] && Leasing(w) && Held(w) && Enabled(w, a)
    ensures Held(Apply(w, a))
  {
    var after := Apply(w, a);
    forall report | report in after.leases
      ensures after.leases[report] in after.calls && HoldsLease(after.calls[after.leases[report]])
      ensures after.calls[after.leases[report]].m.report == report
    {
      if report in w.leases {
        assert HoldsLease(w.calls[w.leases[report]]) && w.calls[w.leases[report]].m.report == report;
      }
    }
  }

  lemma StepKeepsLeasing(w: World, a: Action)
    requires w.history != [] && Leasing(w) && Enabled(w, a)
    ensures Apply(w, a).history != [] && Leasing(Apply(w, a))
  {
  }

  /* ------------------------------------------------------------------ freshness */

  /** Bound by the report in every state of the disk from a version on. */
  ghost predicate BoundSince(history: seq<Disk>, since: nat, report: Report, ref: string) {
    forall v | since <= v < |history| :: ref in BoundTo(history[v], report)
  }

  /** Bound by some report, but for the given ones, in some state from a version on. */
  ghost predicate BoundAfter(history: seq<Disk>, since: nat, ref: string, without: set<Report>) {
    exists v, report :: since <= v < |history| && report !in without && ref in BoundTo(history[v], report)
  }

  /** A set of references computed from states from a version on: it holds only references bound then by reports
      that were read, and all that were bound all the time, but for the reports still to be visited and those
      whose file changed while it was opened. */
  ghost predicate Computed(refs: set<string>, history: seq<Disk>, since: nat, todo: set<Report>, dropped: set<Report>) {
    && todo !! dropped
    && (forall ref | ref in refs :: BoundAfter(history, since, ref, todo + dropped))
    && (forall report, ref | BoundSince(history, since, report, ref) :: ref in refs || report in todo + dropped)
  }

  /** Nothing was dropped. */
  ghost predicate Fresh(refs: set<string>, history: seq<Disk>, since: nat) { Computed(refs, history, since, {}, {}) }

  lemma ComputedGrows(refs: set<string>, history: seq<Disk>, d: Disk, since: nat, todo: set<Report>, dropped: set<Report>)
    requires Computed(refs, history, since, todo, dropped)
    ensures Computed(refs, history + [d], since, todo, dropped)
  {
    var more := history + [d];
    forall ref | ref in refs
      ensures BoundAfter(more, since, ref, todo + dropped)
    {
      var v, report :| since <= v < |history| && report !in todo + dropped && ref in BoundTo(history[v], report);
      assert more[v] == history[v];
    }
    forall report, ref | BoundSince(more, since, report, ref)
      ensures BoundSince(history, since, report, ref)
    {
      forall v | since <= v < |history|
        ensures ref in BoundTo(history[v], report)
      {
        assert more[v] == history[v];
      }
    }
  }

  lemma ComputedEarlier(refs: set<string>, history: seq<Disk>, since: nat, before: nat, dropped: set<Report>)
    requires Computed(refs, history, since, {}, dropped) && before <= since
    ensures Computed(refs, history, before, {}, dropped)
  {
  }

  /** One more report has been read in the present state. */
  lemma ComputedReads(refs: set<string>, history: seq<Disk>, since: nat, todo: set<Report>, dropped: set<Report>,
        report: Report)
    requires Computed(refs, history, since, todo, dropped) && report in todo && since < |history|
    ensures Computed(refs + BoundTo(history[|history| - 1], report), history, since, todo - {report}, dropped)
  {
    var now := BoundTo(history[|history| - 1], report);
    forall ref | ref in refs + now
      ensures BoundAfter(history, since, ref, todo - {report} + dropped)
    {
      if ref in refs {
        var v, other :| since <= v < |history| && other !in todo + dropped && ref in BoundTo(history[v], other);
        assert other !in todo - {report} + dropped;
      } else {
        assert report !in todo - {report} + dropped;
      }
    }
  }

  lemma ComputedDrops(refs: set<string>, history: seq<Disk>, since: nat, todo: set<Report>, dropped: set<Report>,
        report: Report)
    requires Computed(refs, history, since, todo, dropped) && report in todo
    ensures Computed(refs, history, since, todo - {report}, dropped + {report})
  {
    assert todo - {report} + (dropped + {report}) == todo + dropped;
  }

  predicate Scanning(c: Call) { c.Listing? || c.Computing? || c.Opening? }

  predicate Reading(c: Call) { c.Asked? || Scanning(c) || c.Answered? }

  /** Everything committed by calls that have cleared the cache was on the disk at version `since`. */
  ghost predicate Covers(w: World, since: nat)
    requires w.history != []
  {
    w.returned <= since <= Version(w) && forall t | t in w.calls && w.calls[t].Cleared? :: w.calls[t].commit <= since
  }

  /** The cache lock is held exactly while a call scans; a scan and the cache cover all cleared commits. */
  ghost predicate Caching(w: World)
    requires w.history != []
  {
    && w.returned <= Version(w)
    && (forall t | t in w.calls && (w.calls[t].Written? || w.calls[t].Cleared?) :: w.calls[t].commit <= Version(w))
    && (forall t | t in w.calls :: Scanning(w.calls[t]) <==> w.cacheLock == Some(t))
    && (w.cacheLock.Some? ==> w.cacheLock.value in w.calls)
    && (forall t | t in w.calls && Reading(w.calls[t]) :: w.calls[t].begun <= w.returned)
    && (forall t | t in w.calls && Scanning(w.calls[t]) :: Covers(w, w.calls[t].start))
    && (w.cache.Some? ==> Covers(w, w.cache.value.since))
  }

  lemma WriterKeepsCaching(w: World, a: Action)
    requires w.history != [] && Caching(w) && Enabled(w, a) && (a.Begin? || a.Read? || a.Write? || a.Abort? || a.Foreign?)
    ensures Caching(ApplyWriter(w, a))
  {
  }

  lemma ClearKeepsCaching(w: World, t: Thread)
    requires w.history != [] && Caching(w) && Enabled(w, Clear(t))
    ensures Caching(ApplyWriter(w, Clear(t)))
  {
  }

  lemma ReturnKeepsCaching(w: World, t: Thread)
    requires w.history != [] && Caching(w) && Enabled(w, Return(t))
    ensures Caching(ApplyWriter(w, Return(t)))
  {
  }

  lemma ReaderKeepsCaching(w: World, a: Action)
    requires w.history != [] && Caching(w) && Enabled(w, a)
    requires IsReader(a)
    ensures Caching(ApplyReader(w, a))
  {
    match a
    case Ask(t) =>
    case Look(t) => LookKeepsCaching(w, t);
    case List(t) => ScanKeepsCaching(w, a);
    case Stat(t, report) => ScanKeepsCaching(w, a);
    case Open(t) => ScanKeepsCaching(w, a);
    case Store(t) =>
    case Answer(t) =>
  }

  /** A scan goes on with the same beginning. */
  lemma ScanKeepsCaching(w: World, a: Action)
    requires w.history != [] && Caching(w) && Enabled(w, a) && (a.List? || a.Stat? || a.Open?)
    ensures Caching(ApplyReader(w, a))
  {
    var c, after := w.calls[a.t], ApplyReader(w, a);
    assert Scanning(c) && Scanning(after.calls[a.t]) && after == w.(calls := w.calls[a.t := after.calls[a.t]]);
    assert after.calls[a.t].begun == c.begun && after.calls[a.t].start == c.start;
  }

  lemma LookKeepsCaching(w: World, t: Thread)
    requires w.history != [] && Caching(w) && Enabled(w, Look(t))
    ensures Caching(ApplyReader(w, Look(t)))
  {
  }

  lemma StepKeepsCaching(w: World, a: Action)
    requires w.history != [] && Caching(w) && Enabled(w, a)
    ensures Apply(w, a).history != [] && Caching(Apply(w, a))
  {
    match a
    case Clear(t) => ClearKeepsCaching(w, t);
    case Return(t) => ReturnKeepsCaching(w, t);
    case Begin(_, _) => WriterKeepsCaching(w, a);
    case Read(_) => WriterKeepsCaching(w, a);
    case Write(_) => WriterKeepsCaching(w, a);
    case Abort(_) => WriterKeepsCaching(w, a);
    case Foreign(_) => WriterKeepsCaching(w, a);
    case _ => ReaderKeepsCaching(w, a);
  }

  predicate Partial(c: Call) { c.Computing? || c.Opening? }

  /** What has been computed so far, what is cached and what was answered. */
  ghost predicate Freshness(w: World) {
    && (w.cache.Some? ==> Computed(w.cache.value.refs, w.history, w.cache.value.since, {}, w.cache.value.dropped))
    && (forall t | t in w.calls && Partial(w.calls[t]) ::
          Computed(w.calls[t].refs, w.history, w.calls[t].start, w.calls[t].todo, w.calls[t].dropped))
    && (forall t | t in w.calls && w.calls[t].Opening? :: w.calls[t].report in w.calls[t].todo)
    && (forall t | t in w.calls && w.calls[t].Answered? ::
          Computed(w.calls[t].refs, w.history, w.calls[t].begun, {}, w.calls[t].dropped))
  }

  lemma CommitKeepsFreshness(w: World, after: World, d: Disk)
    requires Freshness(w) && after.history == w.history + [d] && after.cache == w.cache
    requires forall t | t in after.calls && (Partial(after.calls[t]) || after.calls[t].Answered?) ::
          t in w.calls && after.calls[t] == w.calls[t]
    ensures Freshness(after)
  {
    if w.cache.Some? {
      ComputedGrows(w.cache.value.refs, w.history, d, w.cache.value.since, {}, w.cache.value.dropped);
    }
    forall t | t in after.calls && Partial(after.calls[t])
      ensures Computed(after.calls[t].refs, after.history, after.calls[t].start, after.calls[t].todo, after.calls[t].dropped)
    {
      ComputedGrows(w.calls[t].refs, w.history, d, w.calls[t].start, w.calls[t].todo, w.calls[t].dropped);
    }
    forall t | t in after.calls && after.calls[t].Answered?
      ensures Computed(after.calls[t].refs, after.history, after.calls[t].begun, {}, after.calls[t].dropped)
    {
      ComputedGrows(w.calls[t].refs, w.history, d, w.calls[t].begun, {}, w.calls[t].dropped);
    }
  }

  /** Only the call of one thread changes. */
  lemma ReaderKeepsFreshness(w: World, a: Action)
    requires w.history != [] && Caching(w) && Freshness(w) && Enabled(w, a) && IsReader(a)
    ensures Freshness(ApplyReader(w, a))
  {
    match a
    case Ask(t) =>
    case Look(t) =>
      if w.cache.Some? {
        ComputedEarlier(w.cache.value.refs, w.history, w.cache.value.since, w.calls[t].begun, w.cache.value.dropped);
      }
    case List(t) => ListStarts(w, t);
    case Stat(t, report) => StatKeepsFreshness(w, t, report);
    case Open(t) => OpenKeepsFreshness(w, t);
    case Store(t) => ComputedEarlier(w.calls[t].refs, w.history, w.calls[t].start, w.calls[t].begun, w.calls[t].dropped);
    case Answer(t) =>
  }

  lemma ListStarts(w: World, t: Thread)
    requires w.history != [] && Caching(w) && Enabled(w, List(t))
    ensures Computed({}, w.history, w.calls[t].start, Now(w).Keys, {})
  {
    forall report, ref | BoundSince(w.history, w.calls[t].start, report, ref)
      ensures report in Now(w).Keys
    {
      assert ref in BoundTo(w.history[|w.history| - 1], report);
    }
  }

  lemma StatKeepsFreshness(w: World, t: Thread, report: Report)
    requires w.history != [] && Caching(w) && Freshness(w) && Enabled(w, Stat(t, report))
    ensures Freshness(ApplyReader(w, Stat(t, report)))
  {
    var c := w.calls[t];
    if report !in Now(w) {
      ComputedReads(c.refs, w.history, c.start, c.todo, c.dropped, report);
      assert c.refs + BoundTo(Now(w), report) == c.refs;
    }
  }

  lemma OpenKeepsFreshness(w: World, t: Thread)
    requires w.history != [] && Caching(w) && Freshness(w) && Enabled(w, Open(t))
    ensures Freshness(ApplyReader(w, Open(t)))
  {
    var c := w.calls[t];
    ComputedReads(c.refs, w.history, c.start, c.todo, c.dropped, c.report);
    ComputedDrops(c.refs, w.history, c.start, c.todo, c.dropped, c.report);
  }

  lemma StepKeepsFreshness(w: World, a: Action)
    requires w.history != [] && Caching(w) && Freshness(w) && Enabled(w, a)
    ensures Freshness(Apply(w, a))
  {
    var after := Apply(w, a);
    if a.Write? {
      CommitKeepsFreshness(w, after, Stored(w.calls[a.t], Now(w)).value);
    } else if a.Foreign? {
      CommitKeepsFreshness(w, after, Effect(a.m, Now(w)).value);
    } else if IsReader(a) {
      ReaderKeepsFreshness(w, a);
    }
  }

  /* ------------------------------------------------------------------ runs */

  ghost predicate Inv(w: World) { w.history != [] && Serial(w) && Leasing(w) && Caching(w) && Freshness(w) }

  function Initial(d: Disk): World { World([d], [], map[], None, None, map[], 0) }

  ghost predicate IsRun(worlds: seq<World>, actions: seq<Action>) {
    && |worlds| == |actions| + 1 && (exists d :: worlds[0] == Initial(d))
    && forall i | 0 <= i < |actions| ::
         worlds[i].history != [] && Enabled(worlds[i], actions[i]) && worlds[i + 1] == Apply(worlds[i], actions[i])
  }

  lemma StepKeepsInv(w: World, a: Action)
    requires Inv(w) && Enabled(w, a)
    ensures Inv(Apply(w, a))
  {
    StepKeepsSerial(w, a);
    StepKeepsLeasing(w, a);
    StepKeepsCaching(w, a);
    StepKeepsFreshness(w, a);
  }

  lemma {:induction false} RunKeepsInv(worlds: seq<World>, actions: seq<Action>, i: nat)
    requires IsRun(worlds, actions) && i < |worlds|
    ensures Inv(worlds[i])
  {
    if i > 0 {
      RunKeepsInv(worlds, actions, i - 1);
      StepKeepsInv(worlds[i - 1], actions[i - 1]);
      assert worlds[i - 1 + 1] == Apply(worlds[i - 1], actions[i - 1]);
    }
  }

  /** Whatever calls were made, failed or were given up: when none is under way, no lease and no lock is held. */
  lemma {:induction false} NothingIsLeaked(worlds: seq<World>, actions: seq<Action>, i: nat)
    requires IsRun(worlds, actions) && i < |worlds|
    ensures Held(worlds[i])
    ensures worlds[i].calls == map[] ==> worlds[i].leases == map[] && worlds[i].cacheLock.None?
  {
    RunKeepsInv(worlds, actions, i);
    if i > 0 {
      NothingIsLeaked(worlds, actions, i - 1);
      RunKeepsInv(worlds, actions, i - 1);
      StepKeepsHeld(worlds[i - 1], actions[i - 1]);
    }
  }

  function Replay(d: Disk, log: seq<Mutation>): Option<Disk> {
    if log == [] then Some(d)
    else
      var before := Replay(d, log[..|log| - 1]);
      if before.None? then None else Effect(log[|log| - 1], before.value)
  }

  lemma {:induction false} SerialReplays(history: seq<Disk>, log: seq<Mutation>)
    requires |history| == |log| + 1 && forall i | 0 <= i < |log| :: Effect(log[i], history[i]) == Some(history[i + 1])
    ensures Replay(history[0], log) == Some(history[|log|])
    decreases |log|
  {
    if log != [] {
      var n := |log| - 1;
      SerialReplays(history[..n + 1], log[..n]);
      assert Effect(log[n], history[n]) == Some(history[n + 1]);
    }
  }

  /** No update is lost: whatever the interleaving, the disk is what the committed mutations give when they
      are run one after the other in the order of their commits. */
  lemma MutationsAreSerial(worlds: seq<World>, actions: seq<Action>, i: nat)
    requires IsRun(worlds, actions) && i < |worlds|
    ensures var w := worlds[i];
      w.history != [] && Replay(w.history[0], w.log) == Some(Now(w))
  {
    RunKeepsInv(worlds, actions, i);
    SerialReplays(worlds[i].history, worlds[i].log);
  }

  /** An answer holds only references that were bound when the call began or later, and all that were bound ever
      since by reports that were not dropped. */
  lemma AnswersAreFresh(worlds: seq<World>, actions: seq<Action>, i: nat, t: Thread)
    requires IsRun(worlds, actions) && i < |worlds| && t in worlds[i].calls && worlds[i].calls[t].Answered?
    ensures var c := worlds[i].calls[t];
      Computed(c.refs, worlds[i].history, c.begun, {}, c.dropped) && (c.dropped == {} ==> Fresh(c.refs, worlds[i].history, c.begun))
  {
    RunKeepsInv(worlds, actions, i);
  }

  lemma {:induction false} ReturnedGrows(worlds: seq<World>, actions: seq<Action>, i: nat, j: nat)
    requires IsRun(worlds, actions) && i <= j < |worlds|
    ensures worlds[i].returned <= worlds[j].returned
    decreases j - i
  {
    if i < j {
      ReturnedGrows(worlds, actions, i, j - 1);
      assert worlds[j - 1 + 1] == Apply(worlds[j - 1], actions[j - 1]);
    }
  }

  lemma {:induction false} BegunStays(worlds: seq<World>, actions: seq<Action>, j: nat, k: nat, u: Thread)
    requires IsRun(worlds, actions) && j < k < |worlds| && actions[j] == Ask(u)
    requires forall m | j < m < k :: actions[m] != Answer(u)
    ensures u in worlds[k].calls && Reading(worlds[k].calls[u]) && worlds[k].calls[u].begun == worlds[j].returned
    decreases k
  {
    assert worlds[k - 1 + 1] == Apply(worlds[k - 1], actions[k - 1]);
    if k > j + 1 {
      BegunStays(worlds, actions, j, k - 1, u);
    }
  }

  /** No stale cache: when a mutation has returned and a call asks after that, its answer was computed from
      states of the disk that include the mutation: no reference in it was bound before only, and none that was
      bound ever since is missing, but for those of dropped reports. */
  lemma NoStaleAnswer(worlds: seq<World>, actions: seq<Action>, i: nat, j: nat, k: nat, t: Thread, u: Thread)
    requires IsRun(worlds, actions) && i < j < k < |worlds|
    requires actions[i] == Return(t) && actions[j] == Ask(u) && forall m | j < m < k :: actions[m] != Answer(u)
    requires u in worlds[k].calls && worlds[k].calls[u].Answered?
    ensures t in worlds[i].calls && worlds[i].calls[t].Cleared?
    ensures var c := worlds[k].calls[u];
      Computed(c.refs, worlds[k].history, worlds[i].calls[t].commit, {}, c.dropped)
  {
    assert worlds[i + 1] == Apply(worlds[i], actions[i]);
    ReturnedGrows(worlds, actions, i + 1, j);
    BegunStays(worlds, actions, j, k, u);
    AnswersAreFresh(worlds, actions, k, u);
    var c := worlds[k].calls[u];
    ComputedEarlier(c.refs, worlds[k].history, c.begun, worlds[i].calls[t].commit, c.dropped);
  }

  /* ------------------------------------------------------------------ what is dropped */

  /** A reference that one report alone binds all the time is in the answer exactly when that report was not
      dropped. */
  lemma OwnReferenceIsKept(refs: set<string>, history: seq<Disk>, since: nat, dropped: set<Report>, report: Report, ref: string)
    requires Computed(refs, history, since, {}, dropped) && BoundSince(history, since, report, ref)
    requires forall v, other | since <= v < |history| && other != report :: ref !in BoundTo(history[v], other)
    ensures ref in refs <==> report !in dropped
  {
  }

  /** The action commits a mutation of the report. */
  predicate CommitsTo(w: World, a: Action, report: Report) {
    (a.Write? && a.t in w.calls && Writable(w.calls[a.t]) && w.calls[a.t].m.report == report) || (a.Foreign? && a.m.report == report)
  }

  lemma {:induction false} LogSpan(worlds: seq<World>, actions: seq<Action>, i: nat, j: nat, report: Report)
    requires IsRun(worlds, actions) && i <= j < |worlds|
    ensures |worlds[i].log| <= |worlds[j].log|
    ensures Touched(worlds[j].log, |worlds[i].log|, report) <==> exists k | i <= k < j ::
          CommitsTo(worlds[k], actions[k], report)
    decreases j - i
  {
    if i < j {
      LogSpan(worlds, actions, i, j - 1, report);
      LogStep(worlds, actions, j - 1, |worlds[i].log|, report);
    }
  }

  lemma LogStep(worlds: seq<World>, actions: seq<Action>, k: nat, since: nat, report: Report)
    requires IsRun(worlds, actions) && k < |actions| && since <= |worlds[k].log|
    ensures |worlds[k].log| <= |worlds[k + 1].log|
    ensures Touched(worlds[k + 1].log, since, report) <==>
          Touched(worlds[k].log, since, report) || CommitsTo(worlds[k], actions[k], report)
  {
    var w, a := worlds[k], actions[k];
    assert worlds[k + 1] == Apply(w, a);
    if a.Write? || a.Foreign? {
      var m := if a.Write? then w.calls[a.t].m else a.m;
      assert worlds[k + 1].log == w.log + [m];
      TouchedMore(w.log, m, since, report);
    } else {
      assert worlds[k + 1].log == w.log;
    }
  }

  lemma TouchedMore(log: seq<Mutation>, m: Mutation, since: nat, report: Report)
    requires since <= |log|
    ensures Touched(log + [m], since, report) <==> Touched(log, since, report) || m.report == report
  {
    var more := log + [m];
    assert more[|log|] == m;
    if Touched(log, since, report) {
      var i :| since <= i < |log| && log[i].report == report;
      assert more[i] == log[i];
    }
  }

  lemma {:induction false} OpeningStays(worlds: seq<World>, actions: seq<Action>, i: nat, j: nat, t: Thread, report: Report)
    requires IsRun(worlds, actions) && i < j < |worlds| && actions[i] == Stat(t, report) && report in Now(worlds[i])
    requires forall k | i < k < j :: actions[k] != Open(t)
    ensures t in worlds[j].calls && worlds[j].calls[t].Opening?
    ensures worlds[j].calls[t].report == report && worlds[j].calls[t].at == |worlds[i].log|
    decreases j
  {
    assert worlds[j - 1 + 1] == Apply(worlds[j - 1], actions[j - 1]);
    if j > i + 1 {
      OpeningStays(worlds, actions, i, j - 1, t, report);
    }
  }

  /** A report is dropped exactly when a mutation of it is committed between the look at its state file and the
      opening. */
  lemma DroppedExactly(worlds: seq<World>, actions: seq<Action>, i: nat, j: nat, t: Thread, report: Report)
    requires IsRun(worlds, actions) && i < j < |actions| && actions[i] == Stat(t, report) && report in Now(worlds[i])
    requires actions[j] == Open(t) && forall k | i < k < j :: actions[k] != Open(t)
    ensures t in worlds[j + 1].calls && worlds[j + 1].calls[t].Computing?
    ensures report in worlds[j + 1].calls[t].dropped <==> exists k | i <= k < j :: CommitsTo(worlds[k], actions[k], report)
  {
    OpeningStays(worlds, actions, i, j, t, report);
    LogSpan(worlds, actions, i, j, report);
    RunKeepsInv(worlds, actions, j);
    assert worlds[j + 1] == Apply(worlds[j], actions[j]);
  }

  lemma Extend(worlds: seq<World>, actions: seq<Action>, a: Action) returns (longer: seq<World>, more: seq<Action>)
    requires IsRun(worlds, actions) && worlds[|actions|].history != [] && Enabled(worlds[|actions|], a)
    ensures IsRun(longer, more) && more == actions + [a]
    ensures longer == worlds + [Apply(worlds[|actions|], a)]
  {
    longer, more := worlds + [Apply(worlds[|actions|], a)], actions + [a];
  }

  function Own(ref: string, archived: bool): Management { Management([ref], [], [], archived) }

  lemma ArchivingCommits(report: Report, ref: string, f: Files)
    requires WriteState(Own(ref, true), f).Some?
    ensures Effect(Update(report, SetArchived(true, f)), map[report := Managed(Own(ref, false))]) == Some(map[report := Managed(Own(ref, true))])
  {
    var d := map[report := Managed(Own(ref, false))];
    assert Own(ref, false).(archived := true) == Own(ref, true);
    assert d[report := Managed(Own(ref, true))] == map[report := Managed(Own(ref, true))];
  }

  lemma ScanLooks(report: Report, ref: string) returns (worlds: seq<World>, actions: seq<Action>)
    ensures IsRun(worlds, actions) && |actions| == 4
    ensures worlds[|actions|] == World([map[report := Managed(Own(ref, false))]], [], map[], Some(0), None,
                                       map[0 := Opening(0, 0, {report}, {}, {}, report, 0)], 0)
  {
    var d := map[report := Managed(Own(ref, false))];
    assert d.Keys == {report};
    worlds, actions := [Initial(d)], [];
    worlds, actions := Extend(worlds, actions, Ask(0));
    assert worlds[1].calls == map[0 := Asked(0)];
    worlds, actions := Extend(worlds, actions, Look(0));
    assert worlds[2].calls == map[0 := Listing(0, 0)];
    worlds, actions := Extend(worlds, actions, List(0));
    assert worlds[3].calls == map[0 := Computing(0, 0, {report}, {}, {})];
    worlds, actions := Extend(worlds, actions, Stat(0, report));
    assert worlds[4].calls == map[0 := Opening(0, 0, {report}, {}, {}, report, 0)];
  }

  /** The world when a mutation of the only report was committed before its file was opened. */
  lemma OpenDrops(before: Disk, after: Disk, m: Mutation)
    ensures var w := World([before, after], [m], map[], Some(0), None, map[0 := Opening(0, 0, {m.report}, {}, {}, m.report, 0)], 0);
      Apply(w, Open(0)) == w.(calls := map[0 := Computing(0, 0, {}, {}, {m.report})])
  {
    var w := World([before, after], [m], map[], Some(0), None, map[0 := Opening(0, 0, {m.report}, {}, {}, m.report, 0)], 0);
    assert w.log[0] == m && Touched(w.log, 0, m.report);
    assert {m.report} - {m.report} == {} && {} + {m.report} == {m.report};
    assert Apply(w, Open(0)).calls == map[0 := Computing(0, 0, {}, {}, {m.report})];
  }

  lemma ScanDrops(report: Report, ref: string, f: Files) returns (worlds: seq<World>, actions: seq<Action>)
    requires WriteState(Own(ref, true), f).Some?
    ensures IsRun(worlds, actions) && |actions| == 6
    ensures var before, after := map[report := Managed(Own(ref, false))], map[report := Managed(Own(ref, true))];
      worlds[6] == World([before, after], [Update(report, SetArchived(true, f))], map[], Some(0), None,
                         map[0 := Computing(0, 0, {}, {}, {report})], 0)
  {
    var m := Update(report, SetArchived(true, f));
    var before, after := map[report := Managed(Own(ref, false))], map[report := Managed(Own(ref, true))];
    ArchivingCommits(report, ref, f);
    worlds, actions := ScanLooks(report, ref);
    worlds, actions := Extend(worlds, actions, Foreign(m));
    assert worlds[5] == World([before, after], [m], map[], Some(0), None, map[0 := Opening(0, 0, {report}, {}, {}, report, 0)], 0);
    OpenDrops(before, after, m);
    worlds, actions := Extend(worlds, actions, Open(0));
  }

  /** Another process archives a report while it is scanned: the reference that the report binds in every state
      of the disk is missing from this answer, and from the cache, so that a call that asks when nobody is
      writing any more misses it as well. */
  lemma RacingScanMissesReference(report: Report, ref: string, f: Files) returns (worlds: seq<World>, actions: seq<Action>)
    requires WriteState(Own(ref, true), f).Some?
    ensures IsRun(worlds, actions) && |actions| == 9 && actions[7] == Ask(1)
    ensures worlds[7].calls == map[0 := Answered(0, {}, {report})]
    ensures worlds[9].calls == map[0 := Answered(0, {}, {report}), 1 := Answered(0, {}, {report})]
    ensures BoundSince(worlds[9].history, 0, report, ref)
  {
    worlds, actions := ScanDrops(report, ref, f);
    worlds, actions := Extend(worlds, actions, Store(0));
    assert worlds[7].calls == map[0 := Answered(0, {}, {report})];
    worlds, actions := Extend(worlds, actions, Ask(1));
    worlds, actions := Extend(worlds, actions, Look(1));
    assert ref in Own(ref, false).sourceRefs && ref in Own(ref, true).sourceRefs;
    assert forall v | 0 <= v < 2 :: ref in BoundTo(worlds[9].history[v], report);
  }

  /* ------------------------------------------------------------------ one library, one caller */

  function Bound(d: Disk): set<string> { set report, ref | report in d && ref in RefsOf(d[report]) :: ref }

  /** An answer that was computed from the present state alone is exactly what is bound now. */
  lemma FreshNowIsExact(refs: set<string>, history: seq<Disk>)
    requires history != [] && Fresh(refs, history, |history| - 1)
    ensures refs == Bound(history[|history| - 1])
  {
    var d := history[|history| - 1];
    forall ref | ref in refs
      ensures ref in Bound(d)
    {
      var v, report :| |history| - 1 <= v < |history| && ref in BoundTo(history[v], report);
    }
    forall ref | ref in Bound(d)
      ensures ref in refs
    {
      var report :| report in d && ref in RefsOf(d[report]);
      assert BoundSince(history, |history| - 1, report, ref);
    }
  }

  function After(m: Mutation, d: Disk): Disk { if Effect(m, d).Some? then Effect(m, d).value else d }

  class WorkspaceReportLibrary {
    var packages: Disk
    var cache: Option<set<string>>
    const files: Files

    ghost predicate Valid()
      reads this
    {
      cache.Some? ==> cache.value == Bound(packages)
    }

    constructor (packages: Disk, files: Files)
      ensures Valid() && this.packages == packages && this.files == files
    {
      this.packages, this.cache, this.files := packages, None, files;
    }

    /** Computed once, package by package, until the next mutation. */
    method BoundSourceRefs() returns (refs: set<string>)
      requires Valid()
      modifies this`cache
      ensures Valid() && refs == Bound(packages)
    {
      if cache.None? {
        refs := {};
        var todo := packages.Keys;
        while todo != {}
          invariant todo <= packages.Keys
          invariant refs == set report, ref | report in packages && report !in todo && ref in RefsOf(packages[report]) :: ref
          decreases |todo|
        {
          var report :| report in todo;
          refs := refs + RefsOf(packages[report]);
          todo := todo - {report};
        }
        cache := Some(refs);
      }
      refs := cache.value;
    }

    method InvalidateBoundSourceRefs()
      modifies this`cache
      ensures cache.None?
    {
      cache := None;
    }

    /** The state of a package that can be edited. */
    method ManagementState(report: Report) returns (state: Option<Management>)
      ensures state == if report in packages && packages[report].Managed? then Some(packages[report].state) else None
    {
      state := if report in packages && packages[report].Managed? then Some(packages[report].state) else None;
    }

    method ReplaceManagementState(report: Report, state: Management) returns (written: bool)
      requires Valid()
      modifies this
      ensures Valid() && written == WriteState(state, files).Some?
      ensures packages == if written then old(packages)[report := Managed(state)] else old(packages)
    {
      written := WriteState(state, files).Some?;
      if written {
        packages := packages[report := Managed(state)];
        InvalidateBoundSourceRefs();
      }
    }

    method ReplaceReportBindings(report: Report, resolve: Management -> Option<(seq<string>, seq<string>, seq<string>)>)
      requires Valid()
      modifies this
      ensures Valid() && packages == After(Update(report, ReplaceBindings(resolve, files)), old(packages))
    {
      var current := ManagementState(report);
      if current.Some? && resolve(current.value).Some? {
        var b := resolve(current.value).value;
        var _ := ReplaceManagementState(report, current.value.(sourceRefs := b.0, datasetIds := b.1, jobRefs := b.2));
      }
    }

    method SetReportArchived(report: Report, archived: bool)
      requires Valid()
      modifies this
      ensures Valid() && packages == After(Update(report, SetArchived(archived, files)), old(packages))
    {
      var current := ManagementState(report);
      if current.Some? && current.value.archived != archived {
        var _ := ReplaceManagementState(report, current.value.(archived := archived));
      }
    }

    method DeleteReport(report: Report) returns (found: bool)
      requires Valid()
      modifies this
      ensures Valid() && found == (report in old(packages)) && packages == After(Delete(report), old(packages))
    {
      found := report in packages;
      if found {
        packages := packages - {report};
        InvalidateBoundSourceRefs();
      }
    }
  }
}
