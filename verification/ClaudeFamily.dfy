/** A Claude session with the subagents that its results name, found by a search over possibly cyclic links. */
module ClaudeFamily {
  import opened Atif
  import opened Finalize
  import opened FinalizeTwice
  import opened MessageAdapter
  import opened ClaudeSession

  /* ------------------------------------------------------------------ identities and links */

  predicate SafeChar(c: char) { 'A' <= c <= 'Z' || 'a' <= c <= 'z' || '0' <= c <= '9' || c == '_' || c == '-' }

  predicate SafeId(id: string) { id != "" && forall i | 0 <= i < |id| :: SafeChar(id[i]) }

  function Identity(session: string, agent: string): string {
    "claude:" + session + if agent == "" then "" else ":agent:" + agent
  }

  lemma IdentityIsInjective(session: string, a: string, b: string)
    requires Identity(session, a) == Identity(session, b) && a != "" && b != ""
    ensures a == b
  {
    var front := "claude:" + session + ":agent:";
    assert Identity(session, a) == front + a && Identity(session, b) == front + b;
    assert a == (front + a)[|front|..] && b == (front + b)[|front|..];
  }

  /** A result of a step and the subagent that its call is linked to. */
  datatype Link = Link(step: nat, position: nat, child: string)

  function StepLinks(s: Step, at: nat, linked: map<string, string>, n: nat): seq<Link>
    requires n <= |Results(s)|
  {
    if n == 0 then []
    else
      var source := Results(s)[n - 1].source;
      StepLinks(s, at, linked, n - 1)
      + if source.Some? && source.value in CallIds(s.calls) && source.value in linked then [Link(at, n - 1, linked[source.value])] else []
  }

  function LinksOf(steps: seq<Step>, linked: map<string, string>): seq<Link> {
    if steps == [] then []
    else
      var n := |steps| - 1;
      LinksOf(steps[..n], linked) + StepLinks(steps[n], n, linked, |Results(steps[n])|)
  }

  predicate Within(link: Link, steps: seq<Step>) { link.step < |steps| && link.position < |Results(steps[link.step])| }

  lemma {:induction false} StepLinksWithin(s: Step, at: nat, linked: map<string, string>, n: nat)
    requires n <= |Results(s)|
    ensures forall i | 0 <= i < |StepLinks(s, at, linked, n)| ::
      StepLinks(s, at, linked, n)[i].step == at && StepLinks(s, at, linked, n)[i].position < n
  {
    if n > 0 {
      StepLinksWithin(s, at, linked, n - 1);
    }
  }

  lemma {:induction false} LinksWithin(steps: seq<Step>, linked: map<string, string>)
    ensures forall i | 0 <= i < |LinksOf(steps, linked)| :: Within(LinksOf(steps, linked)[i], steps)
  {
    if steps != [] {
      var n := |steps| - 1;
      LinksWithin(steps[..n], linked);
      StepLinksWithin(steps[n], n, linked, |Results(steps[n])|);
    }
  }

  /* ------------------------------------------------------------------ one session */

  /** The conversion of one file before its links are followed. */
  function Converted(events: seq<Event>, session: string, agent: string, info: AgentInfo, cfg: Config): Conversion {
    var st := Run(RecordsOf(SessionOf(events).records), Build(cfg), cfg);
    Conversion(Trajectory(Some(session + if agent == "" then "" else ":agent:" + agent), Some(Identity(session, agent)), info, st.steps, [], None, map[]),
               st.metas, [], "", [])
  }

  function Refer(results: seq<Result>, k: nat, identity: string): seq<Result>
    requires k < |results|
  {
    results[k := results[k].(refs := [Ref(Some(identity), None)])]
  }

  /** The result refers to the embedded subagent. */
  function ReferStep(s: Step, k: nat, identity: string): Step
    requires k < |Results(s)|
  {
    s.(observation := Some(Refer(s.observation.value, k, identity)))
  }

  /* ------------------------------------------------------------------ the search */

  /** Files of subagents that can be read and whose identity is the linked one. */
  type Files = map<string, seq<Event>>

  datatype Context = Context(session: string, files: Files, info: AgentInfo, cfg: Config)

  /** The identities that the search may still visit. */
  function Identities(x: Context): set<string> { set child | child in x.files :: Identity(x.session, child) }

  function Unvisited(x: Context, visited: set<string>, identity: string): set<string> { Identities(x) - visited - {identity} }

  datatype Family = Family(result: Option<Conversion>, visited: set<string>)

  /** The loop over the links: the steps with their references, the children in order, and all identities met. */
  datatype Linking = Linking(steps: seq<Step>, children: seq<Conversion>, visited: set<string>)

  predicate HasChild(children: seq<Conversion>, identity: string) {
    exists i | 0 <= i < |children| :: children[i].trajectory.id == Some(identity)
  }

  /** Whether a link can be followed: a safe name, not an ancestor, not met before, and a readable file. */
  predicate Follows(x: Context, child: string, visited: set<string>, ancestors: set<string>) {
    SafeId(child) && Identity(x.session, child) !in ancestors && Identity(x.session, child) !in visited && child in x.files
  }

  lemma Smaller(x: Context, child: string, visited: set<string>, start: set<string>, identity: string, ancestors: set<string>)
    requires Follows(x, child, visited, ancestors) && start + {identity} <= visited
    ensures |Unvisited(x, visited, Identity(x.session, child))| < |Unvisited(x, start, identity)|
  {
    var mine, other := Unvisited(x, start, identity), Unvisited(x, visited, Identity(x.session, child));
    assert Identity(x.session, child) in mine && Identity(x.session, child) !in other && other <= mine;
    assert other < mine;
    Proper(other, mine);
  }

  lemma Proper<T>(a: set<T>, b: set<T>)
    requires a < b
    ensures |a| < |b|
  {
    assert b == a + (b - a);
    assert |b| == |a| + |b - a|;
    assert b - a != {};
  }

  function ReadFamily(x: Context, events: seq<Event>, agent: string, visited: set<string>, ancestors: set<string>): (f: Family)
    ensures visited + {Identity(x.session, agent)} <= f.visited
    decreases |Unvisited(x, visited, Identity(x.session, agent))|, 1, 0
  {
    var identity := Identity(x.session, agent);
    var c := Converted(events, x.session, agent, x.info, x.cfg);
    var links := LinksOf(c.trajectory.steps, SessionOf(events).linked);
    LinksWithin(c.trajectory.steps, SessionOf(events).linked);
    var l := FollowLinks(x, agent, visited, ancestors + {identity}, c.trajectory.steps, links);
    Family(if c.trajectory.steps == [] then None
           else Some(c.(trajectory := c.trajectory.(steps := l.steps), children := l.children)), l.visited)
  }

  predicate SameShape(a: seq<Step>, b: seq<Step>) {
    |a| == |b| && forall i | 0 <= i < |a| :: |Results(a[i])| == |Results(b[i])|
  }

  function ReferAt(steps: seq<Step>, link: Link, identity: string): (r: seq<Step>)
    requires Within(link, steps)
    ensures SameShape(r, steps)
  {
    steps[link.step := ReferStep(steps[link.step], link.position, identity)]
  }

  lemma WithinShape(link: Link, a: seq<Step>, b: seq<Step>)
    requires Within(link, a) && SameShape(b, a)
    ensures Within(link, b)
  {
  }

  function FollowLinks(x: Context, agent: string, visited: set<string>, ancestors: set<string>, steps: seq<Step>,
        links: seq<Link>): (l: Linking)
    requires forall i | 0 <= i < |links| :: Within(links[i], steps)
    ensures visited + {Identity(x.session, agent)} <= l.visited && SameShape(l.steps, steps)
    decreases |Unvisited(x, visited, Identity(x.session, agent))|, 0, |links|
  {
    if links == [] then Linking(steps, [], visited + {Identity(x.session, agent)})
    else
      var n := |links| - 1;
      var l := FollowLinks(x, agent, visited, ancestors, steps, links[..n]);
      WithinShape(links[n], steps, l.steps);
      var child := links[n].child;
      var identity := Identity(x.session, child);
      if HasChild(l.children, identity) then l.(steps := ReferAt(l.steps, links[n], identity))
      else if !Follows(x, child, l.visited, ancestors) then l
      else
        Smaller(x, child, l.visited, visited, Identity(x.session, agent), ancestors);
        var f := ReadFamily(x, x.files[child], child, l.visited, ancestors);
        if f.result.None? then l.(visited := f.visited)
        else Linking(ReferAt(l.steps, links[n], identity), l.children + [f.result.value], f.visited)
  }

  /* ------------------------------------------------------------------ what the references may name */

  /** The same step but for the references of its results, which name embedded children. */
  predicate Refers(a: Step, b: Step, ids: set<string>) {
    && a == b.(observation := a.observation) && (a.observation.Some? <==> b.observation.Some?) && |Results(a)| == |Results(b)|
    && forall k | 0 <= k < |Results(a)| ::
         && Results(a)[k] == Results(b)[k].(refs := Results(a)[k].refs)
         && forall n | 0 <= n < |Results(a)[k].refs| :: NamesOne(Results(a)[k].refs[n], ids)
  }

  predicate NamesOne(ref: Ref, ids: set<string>) { ref.path.None? && ref.trajectoryId.Some? && ref.trajectoryId.value in ids }

  ghost predicate AllRefer(a: seq<Step>, b: seq<Step>, ids: set<string>) {
    |a| == |b| && forall i | 0 <= i < |a| :: Refers(a[i], b[i], ids)
  }

  lemma RefersToMore(a: seq<Step>, b: seq<Step>, ids: set<string>, more: set<string>)
    requires AllRefer(a, b, ids) && ids <= more
    ensures AllRefer(a, b, more)
  {
  }

  lemma ReferAtRefers(a: seq<Step>, b: seq<Step>, link: Link, identity: string, ids: set<string>)
    requires AllRefer(a, b, ids) && Within(link, a) && identity in ids
    ensures AllRefer(ReferAt(a, link, identity), b, ids)
  {
  }

  lemma SoundRefers(steps: seq<Step>)
    requires AllSound(steps)
    ensures AllRefer(steps, steps, {})
  {
  }

  /* ------------------------------------------------------------------ repairable and agreeing steps */

  lemma SoundIsRepairable(a: Step, b: Step, id: int, ids: set<string>)
    requires SoundStep(b) && b.id == id && Refers(a, b, ids)
    ensures RepairableStep(a, id, ids)
  {
  }

  lemma PairedAgrees(a: Step, b: Step, m: StepMeta, id: int, ids: set<string>)
    requires SoundStep(b) && Paired(b, m, id) && Refers(a, b, ids)
    ensures Agrees(a, m)
  {
  }

  lemma ConvertedIsSound(events: seq<Event>, session: string, agent: string, info: AgentInfo, cfg: Config)
    ensures var c := Converted(events, session, agent, info, cfg);
      && AllSound(c.trajectory.steps) && |c.metas| == |c.trajectory.steps|
      && forall i | 0 <= i < |c.metas| :: Paired(c.trajectory.steps[i], c.metas[i], i + 1)
  {
    var messages := SessionOf(events).records;
    BuildBuilds(cfg);
    RunSound(messages, cfg);
    RunInStep(RecordsOf(messages), Build(cfg), cfg);
  }

  /* ------------------------------------------------------------------ the tree */

  /** All trajectory ids of a conversion. */
  function IdSet(c: Conversion): set<string>
    decreases c
  {
    (if c.trajectory.id.Some? then {c.trajectory.id.value} else {}) + (set child, id | child in c.children && id in IdSet(child) :: id)
  }

  /** Every trajectory has an id, and no two have the same. */
  ghost predicate TreeDistinct(c: Conversion)
    decreases c
  {
    && c.trajectory.id.Some?
    && (forall i | 0 <= i < |c.children| :: TreeDistinct(c.children[i]) && c.trajectory.id.value !in IdSet(c.children[i]))
    && (forall i, j | 0 <= i < j < |c.children| :: IdSet(c.children[i]) !! IdSet(c.children[j]))
  }

  /** A member of a family, with ids that were not met before. */
  ghost predicate Member(c: Conversion, identity: string, before: set<string>, after: set<string>) {
    && c.trajectory.id == Some(identity) && TreeDistinct(c) && IdSet(c) <= after && IdSet(c) !! before
    && Repairable(c) && AgreesAll(c)
  }

  ghost predicate Siblings(children: seq<Conversion>, before: set<string>, after: set<string>) {
    && (forall i | 0 <= i < |children| :: children[i].trajectory.id.Some? && Member(children[i], children[i].trajectory.id.value, before, after))
    && (forall i, j | 0 <= i < j < |children| :: IdSet(children[i]) !! IdSet(children[j]))
  }

  lemma OneMoreSibling(children: seq<Conversion>, child: Conversion, identity: string, before: set<string>,
        between: set<string>, after: set<string>)
    requires Siblings(children, before, between) && Member(child, identity, between, after) && before <= between <= after
    ensures Siblings(children + [child], before, after)
  {
  }

  lemma MoreVisited(children: seq<Conversion>, before: set<string>, between: set<string>, after: set<string>)
    requires Siblings(children, before, between) && between <= after
    ensures Siblings(children, before, after)
  {
  }

  lemma SiblingIds(children: seq<Conversion>, before: set<string>, after: set<string>)
    requires Siblings(children, before, after)
    ensures DistinctFinalIds(children)
    ensures forall i | 0 <= i < |children| :: children[i].trajectory.id.value in FinalIds(children)
  {
  }

  /** The conversion with its children and references. */
  lemma WholeIsMember(c: Conversion, steps: seq<Step>, children: seq<Conversion>, identity: string,
        before: set<string>, after: set<string>)
    requires c.trajectory.id == Some(identity) && c.children == [] && c.trajectory.children == [] && c.trajectory.steps != []
    requires identity !in before && before + {identity} <= after && Siblings(children, before + {identity}, after)
    requires AllSound(c.trajectory.steps) && |c.metas| == |c.trajectory.steps| &&
          AllRefer(steps, c.trajectory.steps, FinalIds(children))
    requires forall i | 0 <= i < |c.metas| :: Paired(c.trajectory.steps[i], c.metas[i], i + 1)
    ensures Member(c.(trajectory := c.trajectory.(steps := steps), children := children), identity, before, after)
  {
    var w := c.(trajectory := c.trajectory.(steps := steps), children := children);
    SiblingIds(children, before + {identity}, after);
    WholeIsTree(w, identity, before, after);
    forall i | 0 <= i < |steps|
      ensures RepairableStep(steps[i], i + 1, Embedded(w)) && Agrees(steps[i], c.metas[i])
    {
      SoundIsRepairable(steps[i], c.trajectory.steps[i], i + 1, FinalIds(children));
      PairedAgrees(steps[i], c.trajectory.steps[i], c.metas[i], i + 1, FinalIds(children));
      assert children == [] ==> FinalIds(children) == ChildIds(w.trajectory.children);
    }
    WholeRepairable(w, before + {identity}, after);
  }

  lemma WholeIsTree(w: Conversion, identity: string, before: set<string>, after: set<string>)
    requires w.trajectory.id == Some(identity) && identity !in before && before + {identity} <= after
    requires Siblings(w.children, before + {identity}, after)
    ensures TreeDistinct(w) && IdSet(w) <= after && IdSet(w) !! before
  {
  }

  lemma WholeRepairable(w: Conversion, before: set<string>, after: set<string>)
    requires Siblings(w.children, before, after) && DistinctFinalIds(w.children)
    requires w.trajectory.steps != [] && w.trajectory.children == [] && |w.metas| == |w.trajectory.steps|
    requires forall i | 0 <= i < |w.trajectory.steps| :: RepairableStep(w.trajectory.steps[i], i + 1, Embedded(w))
    requires forall i | 0 <= i < |w.metas| :: w.metas[i].id == i + 1 && Agrees(w.trajectory.steps[i], w.metas[i])
    ensures Repairable(w) && AgreesAll(w)
  {
  }

  /* ------------------------------------------------------------------ the search makes members */

  /** What following links keeps: the references name the children so far, and the children are members with
      new ids. */
  ghost predicate Following(l: Linking, steps: seq<Step>, before: set<string>) {
    before <= l.visited && AllRefer(l.steps, steps, FinalIds(l.children)) && Siblings(l.children, before, l.visited)
  }

  lemma KnownChildKeeps(l: Linking, steps: seq<Step>, before: set<string>, link: Link, identity: string)
    requires Following(l, steps, before) && Within(link, l.steps) && HasChild(l.children, identity)
    ensures Following(l.(steps := ReferAt(l.steps, link, identity)), steps, before)
  {
    var i :| 0 <= i < |l.children| && l.children[i].trajectory.id == Some(identity);
    SiblingIds(l.children, before, l.visited);
    ReferAtRefers(l.steps, steps, link, identity, FinalIds(l.children));
  }

  lemma NewChildKeeps(l: Linking, steps: seq<Step>, before: set<string>, link: Link, identity: string,
        child: Conversion, after: set<string>)
    requires Following(l, steps, before) && Within(link, l.steps) && Member(child, identity, l.visited, after) &&
          l.visited <= after
    ensures Following(Linking(ReferAt(l.steps, link, identity), l.children + [child], after), steps, before)
  {
    var all := l.children + [child];
    OneMoreSibling(l.children, child, identity, before, l.visited, after);
    SiblingIds(all, before, after);
    assert all[|l.children|] == child;
    assert FinalIds(l.children) <= FinalIds(all) by {
      forall id | id in FinalIds(l.children)
        ensures id in FinalIds(all)
      {
        var x :| x in l.children && IdOf(x.trajectory).Some? && IdOf(x.trajectory).value == id;
        assert x in all;
      }
    }
    RefersToMore(l.steps, steps, FinalIds(l.children), FinalIds(all));
    ReferAtRefers(l.steps, steps, link, identity, FinalIds(all));
  }

  /** Whatever the links, cyclic or shared: what is found is a family with new and distinct ids, in which
      every reference names a direct child. */
  lemma {:induction false} FamilyIsMember(x: Context, events: seq<Event>, agent: string, visited: set<string>,
        ancestors: set<string>)
    requires ancestors <= visited && Identity(x.session, agent) !in visited
    ensures var f := ReadFamily(x, events, agent, visited, ancestors);
      f.result.Some? ==> Member(f.result.value, Identity(x.session, agent), visited, f.visited)
    decreases |Unvisited(x, visited, Identity(x.session, agent))|, 1, 0
  {
    var identity := Identity(x.session, agent);
    var c := Converted(events, x.session, agent, x.info, x.cfg);
    var links := LinksOf(c.trajectory.steps, SessionOf(events).linked);
    LinksWithin(c.trajectory.steps, SessionOf(events).linked);
    ConvertedIsSound(events, x.session, agent, x.info, x.cfg);
    LinksFollow(x, agent, visited, ancestors + {identity}, c.trajectory.steps, links);
    var l := FollowLinks(x, agent, visited, ancestors + {identity}, c.trajectory.steps, links);
    if c.trajectory.steps != [] {
      WholeIsMember(c, l.steps, l.children, identity, visited, l.visited);
    }
  }

  lemma {:induction false} LinksFollow(x: Context, agent: string, visited: set<string>, ancestors: set<string>,
        steps: seq<Step>, links: seq<Link>)
    requires AllSound(steps) && (forall i | 0 <= i < |links| :: Within(links[i], steps))
    requires ancestors <= visited + {Identity(x.session, agent)}
    ensures Following(FollowLinks(x, agent, visited, ancestors, steps, links), steps, visited + {Identity(x.session, agent)})
    decreases |Unvisited(x, visited, Identity(x.session, agent))|, 0, |links|
  {
    var before := visited + {Identity(x.session, agent)};
    if links == [] {
      SoundRefers(steps);
    } else {
      var n := |links| - 1;
      LinksFollow(x, agent, visited, ancestors, steps, links[..n]);
      var l := FollowLinks(x, agent, visited, ancestors, steps, links[..n]);
      WithinShape(links[n], steps, l.steps);
      var child := links[n].child;
      var identity := Identity(x.session, child);
      if HasChild(l.children, identity) {
        KnownChildKeeps(l, steps, before, links[n], identity);
      } else if Follows(x, child, l.visited, ancestors) {
        Smaller(x, child, l.visited, visited, Identity(x.session, agent), ancestors);
        FamilyIsMember(x, x.files[child], child, l.visited, ancestors);
        var f := ReadFamily(x, x.files[child], child, l.visited, ancestors);
        if f.result.None? {
          MoreVisited(l.children, before, l.visited, f.visited);
        } else {
          NewChildKeeps(l, steps, before, links[n], identity, f.result.value, f.visited);
        }
      }
    }
  }

  /* ------------------------------------------------------------------ the program */

  method FindLinks(steps: seq<Step>, linked: map<string, string>) returns (links: seq<Link>)
    ensures links == LinksOf(steps, linked)
  {
    links := [];
    assert steps[..0] == [];
    for at := 0 to |steps|
      invariant links == LinksOf(steps[..at], linked)
    {
      assert steps[..at + 1][..at] == steps[..at];
      var s := steps[at];
      var calls := CallIds(s.calls);
      ghost var before := links;
      for k := 0 to |Results(s)|
        invariant links == before + StepLinks(s, at, linked, k)
      {
        var source := Results(s)[k].source;
        if source.Some? && source.value in calls && source.value in linked {
          links := links + [Link(at, k, linked[source.value])];
        }
      }
    }
    assert steps[..|steps|] == steps;
  }

  method ConvertEvents(events: seq<Event>, session: string, agent: string, info: AgentInfo, cfg: Config)
    returns (c: Conversion, links: seq<Link>)
    ensures c == Converted(events, session, agent, info, cfg) && links == LinksOf(c.trajectory.steps, SessionOf(events).linked)
  {
    var s := Normalize(events);
    var st := ConvertRecords(RecordsOf(s.records), Build(cfg), cfg);
    c := Conversion(Trajectory(Some(session + if agent == "" then "" else ":agent:" + agent), Some(Identity(session, agent)), info, st.steps, [], None, map[]),
                    st.metas, [], "", []);
    links := FindLinks(st.steps, s.linked);
  }

  /** One link: a known child is referred to again, a new one is read if it may be. */
  method TakeLink(x: Context, agent: string, ghost visited: set<string>, ancestors: set<string>,
        ghost steps: seq<Step>, links: seq<Link>, n: nat, l: Linking)
    returns (after: Linking)
    requires n < |links| && forall i | 0 <= i < |links| :: Within(links[i], steps)
    requires l == FollowLinks(x, agent, visited, ancestors, steps, links[..n])
    ensures after == FollowLinks(x, agent, visited, ancestors, steps, links[..n + 1])
    decreases |Unvisited(x, visited, Identity(x.session, agent))|, 0
  {
    assert links[..n + 1][..n] == links[..n];
    WithinShape(links[n], steps, l.steps);
    var child := links[n].child;
    var identity := Identity(x.session, child);
    if HasChild(l.children, identity) {
      return l.(steps := ReferAt(l.steps, links[n], identity));
    }
    if !Follows(x, child, l.visited, ancestors) {
      return l;
    }
    Smaller(x, child, l.visited, visited, Identity(x.session, agent), ancestors);
    var found := Search(x, x.files[child], child, l.visited, ancestors);
    after := if found.result.None? then l.(visited := found.visited)
    else Linking(ReferAt(l.steps, links[n], identity), l.children + [found.result.value], found.visited);
  }

  /** The recursive search; the identities met are shared by all calls. */
  method Search(x: Context, events: seq<Event>, agent: string, visited: set<string>, ancestors: set<string>) returns (f: Family)
    ensures f == ReadFamily(x, events, agent, visited, ancestors)
    decreases |Unvisited(x, visited, Identity(x.session, agent))|, 1
  {
    var identity := Identity(x.session, agent);
    var c, links := ConvertEvents(events, x.session, agent, x.info, x.cfg);
    var steps := c.trajectory.steps;
    LinksWithin(steps, SessionOf(events).linked);
    var l := Linking(steps, [], visited + {identity});
    for n := 0 to |links|
      invariant l == FollowLinks(x, agent, visited, ancestors + {identity}, steps, links[..n])
    {
      l := TakeLink(x, agent, visited, ancestors + {identity}, steps, links, n, l);
    }
    assert links[..|links|] == links;
    f := Family(if steps == [] then None else Some(c.(trajectory := c.trajectory.(steps := l.steps), children := l.children)), l.visited);
  }

  /* ------------------------------------------------------------------ valid by construction */

  /** A session with at least one conversation record converts, and finalizing the family gives a valid
      trajectory; finalizing that again changes nothing. */
  lemma ClaudeConversionIsValid(x: Context, events: seq<Event>, agent: string, r: Rules)
    requires Lawful(r)
    ensures var f := ReadFamily(x, events, agent, {}, {});
      && (f.result.Some? <==> SessionOf(events).records != [])
      && (f.result.Some? ==>
            && TreeDistinct(f.result.value)
            && Finalized(f.result.value, r).Some? && Valid(Finalized(f.result.value, r).value.trajectory)
            && Repeats(Finalized(f.result.value, r).value, r))
  {
    var f := ReadFamily(x, events, agent, {}, {});
    FamilyIsMember(x, events, agent, {}, {});
    if f.result.Some? {
      var c := f.result.value;
      FinalizationSucceeds(c, r);
      AgreeingSettlesAll(c, r);
      FinalizationTwice(c, r);
    }
  }
}
