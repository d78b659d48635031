/** Which subagents become part of a family: everything that can be reached through readable links, each under
    the first result that the search meets, and referred to wherever it is a child. */
module FamilyLinks {
  import opened Atif
  import opened Finalize
  import opened FinalizeTwice
  import opened MessageAdapter
  import opened ClaudeSession
  import opened ClaudeFamily

  /* ------------------------------------------------------------------ links */

  /** The subagent that a result names: its call stands in the same step and is linked. */
  function NamedBy(s: Step, k: nat, linked: map<string, string>): Option<string>
    requires k < |Results(s)|
  {
    var source := Results(s)[k].source;
    if source.Some? && (exists i | 0 <= i < |s.calls| :: s.calls[i].id == source.value) && source.value in linked
    then Some(linked[source.value]) else None
  }

  predicate IsLink(steps: seq<Step>, linked: map<string, string>, link: Link) {
    link.step < |steps| && link.position < |Results(steps[link.step])| &&
    NamedBy(steps[link.step], link.position, linked) == Some(link.child)
  }

  predicate Earlier(a: Link, b: Link) { a.step < b.step || (a.step == b.step && a.position < b.position) }

  predicate InOrder(links: seq<Link>) { forall i, j | 0 <= i < j < |links| :: Earlier(links[i], links[j]) }

  lemma NamedExactly(s: Step, k: nat, linked: map<string, string>)
    requires k < |Results(s)|
    ensures var source := Results(s)[k].source;
      NamedBy(s, k, linked) == if source.Some? && source.value in CallIds(s.calls) && source.value in linked then Some(linked[source.value]) else None
  {
    var source := Results(s)[k].source;
    if source.Some? && source.value in CallIds(s.calls) {
      var c :| c in s.calls && c.id == source.value;
    }
  }

  lemma {:induction false} StepLinksExactly(s: Step, at: nat, linked: map<string, string>, n: nat)
    requires n <= |Results(s)|
    ensures forall link :: link in StepLinks(s, at, linked, n) <==>
      link.step == at && link.position < n && NamedBy(s, link.position, linked) == Some(link.child)
    ensures InOrder(StepLinks(s, at, linked, n))
  {
    if n > 0 {
      StepLinksExactly(s, at, linked, n - 1);
      NamedExactly(s, n - 1, linked);
      var before := StepLinks(s, at, linked, n - 1);
      assert forall i | 0 <= i < |before| :: before[i] in before;
    }
  }

  /** The links are exactly the results that name a subagent, in the order of the steps. */
  lemma {:induction false} LinksExactly(steps: seq<Step>, linked: map<string, string>)
    ensures forall link :: link in LinksOf(steps, linked) <==> IsLink(steps, linked, link)
    ensures InOrder(LinksOf(steps, linked))
  {
    if steps != [] {
      var n := |steps| - 1;
      var before, last := LinksOf(steps[..n], linked), StepLinks(steps[n], n, linked, |Results(steps[n])|);
      LinksExactly(steps[..n], linked);
      StepLinksExactly(steps[n], n, linked, |Results(steps[n])|);
      forall link
        ensures link in LinksOf(steps, linked) <==> IsLink(steps, linked, link)
      {
        assert link in LinksOf(steps, linked) <==> link in before || link in last;
        assert link.step < n ==> (IsLink(steps[..n], linked, link) <==> IsLink(steps, linked, link));
      }
      assert forall i | 0 <= i < |before| :: before[i] in before;
      assert forall i | 0 <= i < |last| :: last[i] in last;
    }
  }

  /* ------------------------------------------------------------------ what may be read */

  function StepsOf(x: Context, events: seq<Event>): seq<Step> { Run(RecordsOf(SessionOf(events).records), Build(x.cfg), x.cfg).steps }

  /** A result of the session names the subagent. */
  ghost predicate Names(x: Context, events: seq<Event>, child: string) {
    exists link :: IsLink(StepsOf(x, events), SessionOf(events).linked, link) && link.child == child
  }

  /** A subagent with a safe name and a readable file. */
  predicate Eligible(x: Context, child: string) { SafeId(child) && child in x.files }

  /** A letter, a digit, a hyphen or an underscore of ASCII, by its number. */
  predicate NameChar(c: char) {
    var n := c as int;
    48 <= n < 58 || 65 <= n < 91 || 97 <= n < 123 || n == 45 || n == 95
  }

  /** A name is safe if and only if it consists of such characters, of at least one; so it names no other directory. */
  lemma SafeIdExactly(id: string)
    ensures SafeId(id) <==> id != "" && forall c | c in id :: NameChar(c)
    ensures SafeId(id) ==> '/' !in id && '\\' !in id && '.' !in id && ':' !in id
  {
    if id != "" && forall c | c in id :: NameChar(c) {
      forall i | 0 <= i < |id| ensures SafeChar(id[i]) {
        assert id[i] in id;
      }
    }
  }

  function Id(x: Context, child: string): string { Identity(x.session, child) }

  /** A session with at least one message. */
  predicate Talks(events: seq<Event>) { SessionOf(events).records != [] }

  lemma TakeHasSteps(st: State, m: Message, cfg: Config)
    requires Slotted(st)
    ensures TakeRecord(st, RecordOf(m), Build(cfg), cfg).steps != []
  {
    if IsAttached(st, RecordOf(m)) {
      assert st.steps != [];
    } else if !m.Outcome? {
      assert BuildStep(RecordOf(m), |st.steps| + 1, cfg).Some?;
    }
  }

  lemma TalksHasSteps(x: Context, events: seq<Event>)
    ensures StepsOf(x, events) != [] <==> Talks(events)
  {
    var messages := SessionOf(events).records;
    if messages != [] {
      var n := |messages| - 1;
      TakeHasSteps(Run(RecordsOf(messages)[..n], Build(x.cfg), x.cfg), messages[n], x.cfg);
    }
  }

  lemma SameId(x: Context, a: string, b: string)
    requires Id(x, a) == Id(x, b) && SafeId(a)
    ensures a == b
  {
    assert a != "" && (b == "" ==> |Id(x, b)| < |Id(x, a)|);
    if b != "" {
      IdentityIsInjective(x.session, a, b);
    }
  }

  /* ------------------------------------------------------------------ what the search visits */

  /** Only eligible subagents were met since. */
  ghost predicate OnlyEligible(x: Context, before: set<string>, after: set<string>) {
    before <= after && forall id | id in after - before :: exists b :: Eligible(x, b) && Id(x, b) == id
  }

  /** Whoever was met since has all eligible subagents met that its results name. */
  ghost predicate Closed(x: Context, before: set<string>, after: set<string>) {
    forall b | Eligible(x, b) && Id(x, b) in after && Id(x, b) !in before :: AllMet(x, x.files[b], after)
  }

  ghost predicate AllMet(x: Context, events: seq<Event>, met: set<string>) {
    forall c :: Names(x, events, c) && Eligible(x, c) ==> Id(x, c) in met
  }

  /** The ids are those of the subagents met since whose sessions say anything. */
  ghost predicate AreTalking(x: Context, ids: set<string>, before: set<string>, after: set<string>) {
    && (forall b | Eligible(x, b) && Id(x, b) in after && Id(x, b) !in before :: Talks(x.files[b]) <==> Id(x, b) in ids)
    && ids <= after - before
  }

  function ChildrenIds(children: seq<Conversion>): set<string> { set c, id | c in children && id in IdSet(c) :: id }

  lemma MetMore(x: Context, events: seq<Event>, met: set<string>, more: set<string>)
    requires AllMet(x, events, met) && met <= more
    ensures AllMet(x, events, more)
  {
  }

  /** Two searches one after the other. */
  lemma ClosedTwice(x: Context, a: set<string>, b: set<string>, c: set<string>)
    requires OnlyEligible(x, a, b) && OnlyEligible(x, b, c) && Closed(x, a, b) && Closed(x, b, c)
    ensures OnlyEligible(x, a, c) && Closed(x, a, c)
  {
    forall id | id in c - a
      ensures exists e :: Eligible(x, e) && Id(x, e) == id
    {
      assert id in b - a || id in c - b;
    }
    forall e | Eligible(x, e) && Id(x, e) in c && Id(x, e) !in a
      ensures AllMet(x, x.files[e], c)
    {
      if Id(x, e) in b {
        MetMore(x, x.files[e], b, c);
      }
    }
  }

  lemma TalkingTwice(x: Context, ids: set<string>, more: set<string>, a: set<string>, b: set<string>, c: set<string>)
    requires a <= b <= c && AreTalking(x, ids, a, b) && AreTalking(x, more, b, c)
    ensures AreTalking(x, ids + more, a, c)
  {
  }

  /** One subagent and all that it leads to. */
  lemma ClosedWithOwn(x: Context, child: string, before: set<string>, after: set<string>)
    requires Eligible(x, child) && Id(x, child) !in before
    requires OnlyEligible(x, before + {Id(x, child)}, after) && Closed(x, before + {Id(x, child)}, after) &&
          AllMet(x, x.files[child], after)
    ensures OnlyEligible(x, before, after) && Closed(x, before, after)
  {
    forall id | id in after - before
      ensures exists e :: Eligible(x, e) && Id(x, e) == id
    {
      if id == Id(x, child) {
        assert Eligible(x, child);
      } else {
        assert id in after - (before + {Id(x, child)});
      }
    }
    forall e | Eligible(x, e) && Id(x, e) in after && Id(x, e) !in before
      ensures AllMet(x, x.files[e], after)
    {
      if Id(x, e) == Id(x, child) {
        SameId(x, child, e);
      }
    }
  }

  lemma TalkingWithOwn(x: Context, child: string, ids: set<string>, before: set<string>, after: set<string>)
    requires Eligible(x, child) && Id(x, child) !in before && Id(x, child) in after
    requires AreTalking(x, ids, before + {Id(x, child)}, after)
    ensures AreTalking(x, if Talks(x.files[child]) then ids + {Id(x, child)} else ids, before, after)
  {
    var all := if Talks(x.files[child]) then ids + {Id(x, child)} else ids;
    forall b | Eligible(x, b) && Id(x, b) in after && Id(x, b) !in before
      ensures Talks(x.files[b]) <==> Id(x, b) in all
    {
      if Id(x, b) == Id(x, child) {
        SameId(x, child, b);
        assert Id(x, child) !in ids;
      }
    }
  }

  /** The links so far lead to subagents that were met, if they may be read. */
  ghost predicate LinksMet(x: Context, links: seq<Link>, met: set<string>) {
    forall i | 0 <= i < |links| && Eligible(x, links[i].child) :: Id(x, links[i].child) in met
  }

  /** What the loop over the links has found. */
  ghost predicate Found(x: Context, children: seq<Conversion>, met: set<string>, links: seq<Link>, before: set<string>) {
    && OnlyEligible(x, before, met) && Closed(x, before, met) && LinksMet(x, links, met)
    && AreTalking(x, ChildrenIds(children), before, met)
  }

  lemma FoundMore(x: Context, l: Linking, links: seq<Link>, before: set<string>, link: Link,
        children: seq<Conversion>, after: set<string>)
    requires Found(x, l.children, l.visited, links, before) && l.visited <= after
    requires OnlyEligible(x, l.visited, after) && Closed(x, l.visited, after)
    requires Eligible(x, link.child) ==> Id(x, link.child) in after
    requires exists ids :: AreTalking(x, ids, l.visited, after) && ChildrenIds(children) == ChildrenIds(l.children) + ids
    ensures Found(x, children, after, links + [link], before)
  {
    var ids :| AreTalking(x, ids, l.visited, after) && ChildrenIds(children) == ChildrenIds(l.children) + ids;
    ClosedTwice(x, before, l.visited, after);
    TalkingTwice(x, ChildrenIds(l.children), ids, before, l.visited, after);
  }

  /** What the search below one session has found. */
  ghost predicate FoundBelow(x: Context, events: seq<Event>, f: Family, before: set<string>) {
    && OnlyEligible(x, before, f.visited) && Closed(x, before, f.visited) && AllMet(x, events, f.visited)
    && (f.result.Some? <==> Talks(events))
    && AreTalking(x, if f.result.Some? then ChildrenIds(f.result.value.children) else {}, before, f.visited)
  }

  lemma IdsOfOne(c: Conversion)
    ensures ChildrenIds([c]) == IdSet(c)
    ensures c.trajectory.id.Some? ==> IdSet(c) == {c.trajectory.id.value} + ChildrenIds(c.children)
  {
    assert c in [c];
  }

  lemma ChildrenIdsMore(children: seq<Conversion>, child: Conversion)
    ensures ChildrenIds(children + [child]) == ChildrenIds(children) + IdSet(child)
  {
    assert forall c :: c in children + [child] <==> c in children || c == child;
  }

  /** One child and everything below it. */
  lemma ChildFound(x: Context, child: string, f: Family, before: set<string>)
    requires Eligible(x, child) && Id(x, child) !in before && FoundBelow(x, x.files[child], f, before + {Id(x, child)})
    requires f.result.Some? ==> f.result.value.trajectory.id == Some(Id(x, child))
    ensures OnlyEligible(x, before, f.visited) && Closed(x, before, f.visited)
    ensures AreTalking(x, if f.result.Some? then IdSet(f.result.value) else {}, before, f.visited)
  {
    ClosedWithOwn(x, child, before, f.visited);
    TalkingWithOwn(x, child, if f.result.Some? then ChildrenIds(f.result.value.children) else {}, before, f.visited);
    if f.result.Some? {
      IdsOfOne(f.result.value);
    }
  }

  lemma SameMet(x: Context, ids: set<string>)
    ensures OnlyEligible(x, ids, ids) && Closed(x, ids, ids) && AreTalking(x, {}, ids, ids)
  {
  }

  lemma LinksAreMet(x: Context, events: seq<Event>, links: seq<Link>, met: set<string>)
    requires LinksMet(x, links, met) && links == LinksOf(StepsOf(x, events), SessionOf(events).linked)
    ensures AllMet(x, events, met)
  {
    LinksExactly(StepsOf(x, events), SessionOf(events).linked);
    forall c | Names(x, events, c) && Eligible(x, c)
      ensures Id(x, c) in met
    {
      var link :| IsLink(StepsOf(x, events), SessionOf(events).linked, link) && link.child == c;
      assert link in links;
      var i :| 0 <= i < |links| && links[i] == link;
    }
  }

  lemma {:induction false} FamilyFound(x: Context, events: seq<Event>, agent: string, visited: set<string>,
        ancestors: set<string>)
    requires ancestors <= visited && Id(x, agent) !in visited
    ensures FoundBelow(x, events, ReadFamily(x, events, agent, visited, ancestors), visited + {Id(x, agent)})
    decreases |Unvisited(x, visited, Identity(x.session, agent))|, 1, 0
  {
    var identity, steps := Id(x, agent), StepsOf(x, events);
    var links := LinksOf(steps, SessionOf(events).linked);
    LinksWithin(steps, SessionOf(events).linked);
    LinksFound(x, agent, visited, ancestors + {identity}, steps, links);
    var l := FollowLinks(x, agent, visited, ancestors + {identity}, steps, links);
    LinksAreMet(x, events, links, l.visited);
    TalksHasSteps(x, events);
    if steps == [] {
      assert l == Linking(steps, [], visited + {identity});
    }
  }

  lemma {:induction false} LinksFound(x: Context, agent: string, visited: set<string>, ancestors: set<string>,
        steps: seq<Step>, links: seq<Link>)
    requires (forall i | 0 <= i < |links| :: Within(links[i], steps)) && ancestors <= visited + {Id(x, agent)}
    ensures var l := FollowLinks(x, agent, visited, ancestors, steps, links);
      Found(x, l.children, l.visited, links, visited + {Id(x, agent)})
    decreases |Unvisited(x, visited, Identity(x.session, agent))|, 0, 2 * |links|
  {
    var before := visited + {Id(x, agent)};
    if links == [] {
      SameMet(x, before);
    } else {
      var n := |links| - 1;
      LinksFound(x, agent, visited, ancestors, steps, links[..n]);
      var l := FollowLinks(x, agent, visited, ancestors, steps, links[..n]);
      WithinShape(links[n], steps, l.steps);
      var child := links[n].child;
      if !HasChild(l.children, Id(x, child)) && Follows(x, child, l.visited, ancestors) {
        NewLinkFound(x, agent, visited, ancestors, l, links[..n], links[n], before);
      } else {
        OldLinkFound(x, ancestors, l, links[..n], links[n], before);
      }
      assert links[..n] + [links[n]] == links;
    }
  }

  /** A link that is not followed leads to a child, or to what was met before, or may not be read. */
  lemma OldLinkFound(x: Context, ancestors: set<string>, l: Linking, links: seq<Link>, link: Link, before: set<string>)
    requires before <= l.visited && ancestors <= before && Found(x, l.children, l.visited, links, before)
    requires HasChild(l.children, Id(x, link.child)) || !Follows(x, link.child, l.visited, ancestors)
    ensures Found(x, l.children, l.visited, links + [link], before)
  {
    var identity := Id(x, link.child);
    if HasChild(l.children, identity) {
      var i :| 0 <= i < |l.children| && l.children[i].trajectory.id == Some(identity);
      assert identity in IdSet(l.children[i]) && l.children[i] in l.children;
      assert identity in ChildrenIds(l.children);
    }
    SameMet(x, l.visited);
    assert ChildrenIds(l.children) == ChildrenIds(l.children) + {};
    FoundMore(x, l, links, before, link, l.children, l.visited);
  }

  /** What a new link finds is added to what was found. */
  lemma {:induction false} NewLinkFound(x: Context, agent: string, visited: set<string>, ancestors: set<string>,
        l: Linking, links: seq<Link>, link: Link, before: set<string>)
    requires before == visited + {Id(x, agent)} && before <= l.visited && ancestors <= before &&
          Found(x, l.children, l.visited, links, before)
    requires Follows(x, link.child, l.visited, ancestors)
    ensures var f := ReadFamily(x, x.files[link.child], link.child, l.visited, ancestors);
      Found(x, if f.result.None? then l.children else l.children + [f.result.value], f.visited, links + [link], before)
    decreases |Unvisited(x, visited, Identity(x.session, agent))|, 0, 2 * |links| + 1
  {
    Smaller(x, link.child, l.visited, visited, Identity(x.session, agent), ancestors);
    FamilyFound(x, x.files[link.child], link.child, l.visited, ancestors);
    var f := ReadFamily(x, x.files[link.child], link.child, l.visited, ancestors);
    ChildFound(x, link.child, f, l.visited);
    if f.result.None? {
      assert ChildrenIds(l.children) == ChildrenIds(l.children) + {};
      FoundMore(x, l, links, before, link, l.children, f.visited);
    } else {
      ChildrenIdsMore(l.children, f.result.value);
      FoundMore(x, l, links, before, link, l.children + [f.result.value], f.visited);
    }
  }

  /* ------------------------------------------------------------------ what the members are */

  /** The subagent that a list of links names for a result. */
  function ChildAt(links: seq<Link>, i: nat, k: nat): Option<string> {
    if links == [] then None
    else
      var last := links[|links| - 1];
      if last.step == i && last.position == k then Some(last.child) else ChildAt(links[..|links| - 1], i, k)
  }

  lemma {:induction false} ChildAtExactly(links: seq<Link>, i: nat, k: nat)
    requires InOrder(links)
    ensures forall child :: ChildAt(links, i, k) == Some(child) <==> Link(i, k, child) in links
  {
    if links != [] {
      var n := |links| - 1;
      ChildAtExactly(links[..n], i, k);
      assert links[..n] + [links[n]] == links;
      assert forall j | 0 <= j < n :: Earlier(links[j], links[n]);
    }
  }

  /** A result refers to the subagent that it names, if that is a child, and to nothing else. */
  function RefsFor(x: Context, named: Option<string>, children: seq<Conversion>, refs: seq<Ref>): seq<Ref> {
    if named.Some? && HasChild(children, Id(x, named.value)) then [Ref(Some(Id(x, named.value)), None)] else refs
  }

  predicate SameButRefs(a: Step, b: Step) {
    a == b.(observation := a.observation) && (a.observation.Some? <==> b.observation.Some?) && |Results(a)| == |Results(b)|
  }

  ghost predicate Refd(x: Context, a: seq<Step>, b: seq<Step>, links: seq<Link>, children: seq<Conversion>) {
    && |a| == |b| && (forall i | 0 <= i < |a| :: SameButRefs(a[i], b[i]))
    && forall i, k | 0 <= i < |a| && 0 <= k < |Results(a[i])| :: RefdAt(x, a[i], b[i], i, k, links, children)
  }

  predicate RefdAt(x: Context, a: Step, b: Step, i: nat, k: nat, links: seq<Link>, children: seq<Conversion>) {
    k < |Results(a)| && k < |Results(b)| &&
    Results(a)[k] == Results(b)[k].(refs := RefsFor(x, ChildAt(links, i, k), children, Results(b)[k].refs))
  }

  /** A member of a family is the conversion of its own file, with references to its children; each child is a
      readable subagent that one of its results names, and is such a member itself. */
  ghost predicate Tree(x: Context, c: Conversion, agent: string, events: seq<Event>)
    decreases c, 0
  {
    var base := Converted(events, x.session, agent, x.info, x.cfg);
    && c == base.(trajectory := base.trajectory.(steps := c.trajectory.steps), children := c.children)
    && Refd(x, c.trajectory.steps, base.trajectory.steps, LinksOf(base.trajectory.steps, SessionOf(events).linked), c.children)
    && forall n | 0 <= n < |c.children| :: ChildTree(x, c.children[n], events)
  }

  ghost predicate ChildTree(x: Context, c: Conversion, events: seq<Event>)
    decreases c, 1
  {
    exists b :: IsChild(x, c, b, events) && Tree(x, c, b, x.files[b])
  }

  ghost predicate IsChild(x: Context, c: Conversion, b: string, events: seq<Event>) {
    Eligible(x, b) && Names(x, events, b) && c.trajectory.id == Some(Id(x, b))
  }

  /** The children so far. */
  ghost predicate AreTrees(x: Context, children: seq<Conversion>, events: seq<Event>) {
    forall n | 0 <= n < |children| :: ChildTree(x, children[n], events)
  }

  lemma RefdNothing(x: Context, steps: seq<Step>)
    ensures Refd(x, steps, steps, [], [])
  {
  }

  lemma ChildAtMore(links: seq<Link>, link: Link, i: nat, k: nat)
    ensures ChildAt(links + [link], i, k) == if link.step == i && link.position == k then Some(link.child) else ChildAt(links, i, k)
  {
    assert (links + [link])[..|links|] == links;
  }

  lemma NoneYet(links: seq<Link>, link: Link)
    requires InOrder(links + [link])
    ensures ChildAt(links, link.step, link.position).None?
  {
    var all := links + [link];
    assert forall i | 0 <= i < |links| :: all[i] == links[i] && Earlier(all[i], all[|links|]);
    ChildAtExactly(links, link.step, link.position);
    assert forall child :: Link(link.step, link.position, child) !in links;
  }

  /** A link that is not followed leaves its result as it was. */
  lemma RefdPassed(x: Context, a: seq<Step>, b: seq<Step>, links: seq<Link>, link: Link, children: seq<Conversion>)
    requires Refd(x, a, b, links, children) && InOrder(links + [link]) && !HasChild(children, Id(x, link.child))
    ensures Refd(x, a, b, links + [link], children)
  {
    NoneYet(links, link);
    forall i, k | 0 <= i < |a| && 0 <= k < |Results(a[i])|
      ensures RefdAt(x, a[i], b[i], i, k, links + [link], children)
    {
      ChildAtMore(links, link, i, k);
      assert RefdAt(x, a[i], b[i], i, k, links, children);
    }
  }

  /** More children matter to no earlier link, unless one of them is the child that it names. */
  lemma RefdWithMore(x: Context, a: seq<Step>, b: seq<Step>, links: seq<Link>, children: seq<Conversion>, child: Conversion)
    requires Refd(x, a, b, links, children)
    requires forall j | 0 <= j < |links| :: child.trajectory.id != Some(Id(x, links[j].child))
    ensures Refd(x, a, b, links, children + [child])
  {
    forall i, k | 0 <= i < |a| && 0 <= k < |Results(a[i])|
      ensures RefdAt(x, a[i], b[i], i, k, links, children + [child])
    {
      assert RefdAt(x, a[i], b[i], i, k, links, children);
      var named := ChildAt(links, i, k);
      if named.Some? {
        ChildAtFrom(links, i, k);
        HasChildMore(children, child, Id(x, named.value));
      }
    }
  }

  lemma {:induction false} ChildAtFrom(links: seq<Link>, i: nat, k: nat)
    requires ChildAt(links, i, k).Some?
    ensures exists j :: 0 <= j < |links| && links[j] == Link(i, k, ChildAt(links, i, k).value)
  {
    var n := |links| - 1;
    if !(links[n].step == i && links[n].position == k) {
      ChildAtFrom(links[..n], i, k);
      var j :| 0 <= j < n && links[..n][j] == Link(i, k, ChildAt(links[..n], i, k).value);
      assert links[j] == links[..n][j];
    }
  }

  lemma HasChildMore(children: seq<Conversion>, child: Conversion, identity: string)
    ensures HasChild(children + [child], identity) <==> HasChild(children, identity) || child.trajectory.id == Some(identity)
  {
    var all := children + [child];
    assert all[|children|] == child;
    if HasChild(children, identity) {
      var i :| 0 <= i < |children| && children[i].trajectory.id == Some(identity);
      assert all[i] == children[i];
    }
  }

  /** A link to a child refers to it. */
  lemma RefdAgain(x: Context, a: seq<Step>, b: seq<Step>, links: seq<Link>, link: Link, children: seq<Conversion>)
    requires Refd(x, a, b, links, children) && Within(link, a) && HasChild(children, Id(x, link.child))
    ensures Refd(x, ReferAt(a, link, Id(x, link.child)), b, links + [link], children)
  {
    var after := ReferAt(a, link, Id(x, link.child));
    forall i, k | 0 <= i < |after| && 0 <= k < |Results(after[i])|
      ensures RefdAt(x, after[i], b[i], i, k, links + [link], children)
    {
      ChildAtMore(links, link, i, k);
      assert RefdAt(x, a[i], b[i], i, k, links, children);
    }
  }

  /** What the loop over the links has made of children and references. */
  ghost predicate Growing(x: Context, l: Linking, steps: seq<Step>, links: seq<Link>, events: seq<Event>) {
    AreTrees(x, l.children, events) && Refd(x, l.steps, steps, links, l.children)
  }

  lemma {:induction false} FamilyIsTree(x: Context, events: seq<Event>, agent: string, visited: set<string>,
        ancestors: set<string>)
    requires ancestors <= visited && Id(x, agent) !in visited
    ensures var f := ReadFamily(x, events, agent, visited, ancestors);
      f.result.Some? ==> Tree(x, f.result.value, agent, events)
    decreases |Unvisited(x, visited, Identity(x.session, agent))|, 1, 0
  {
    var identity, steps := Id(x, agent), StepsOf(x, events);
    var links := LinksOf(steps, SessionOf(events).linked);
    LinksWithin(steps, SessionOf(events).linked);
    LinksExactly(steps, SessionOf(events).linked);
    forall i | 0 <= i < |links|
      ensures Names(x, events, links[i].child)
    {
      assert IsLink(steps, SessionOf(events).linked, links[i]);
    }
    LinksGrow(x, events, agent, visited, ancestors + {identity}, steps, links);
  }

  lemma {:induction false} LinksGrow(x: Context, events: seq<Event>, agent: string, visited: set<string>,
        ancestors: set<string>, steps: seq<Step>, links: seq<Link>)
    requires (forall i | 0 <= i < |links| :: Within(links[i], steps) && Names(x, events, links[i].child)) && InOrder(links)
    requires ancestors <= visited + {Id(x, agent)}
    ensures Growing(x, FollowLinks(x, agent, visited, ancestors, steps, links), steps, links, events)
    decreases |Unvisited(x, visited, Identity(x.session, agent))|, 0, 2 * |links|
  {
    var before := visited + {Id(x, agent)};
    if links == [] {
      RefdNothing(x, steps);
    } else {
      var n := |links| - 1;
      var init, link := links[..n], links[n];
      LinksGrow(x, events, agent, visited, ancestors, steps, init);
      LinksFound(x, agent, visited, ancestors, steps, init);
      var l := FollowLinks(x, agent, visited, ancestors, steps, init);
      WithinShape(link, steps, l.steps);
      assert init + [link] == links;
      if HasChild(l.children, Id(x, link.child)) {
        RefdAgain(x, l.steps, steps, init, link, l.children);
      } else if Follows(x, link.child, l.visited, ancestors) {
        NewLinkGrows(x, events, agent, visited, ancestors, steps, l, init, link);
      } else {
        RefdPassed(x, l.steps, steps, init, link, l.children);
      }
    }
  }

  lemma {:induction false} NewLinkGrows(x: Context, events: seq<Event>, agent: string, visited: set<string>,
        ancestors: set<string>, steps: seq<Step>,
                                        l: Linking, links: seq<Link>, link: Link)
    requires visited + {Id(x, agent)} <= l.visited && ancestors <= visited + {Id(x, agent)} &&
          Within(link, l.steps) && InOrder(links + [link])
    requires LinksMet(x, links, l.visited) && Growing(x, l, steps, links, events) && Names(x, events, link.child)
    requires !HasChild(l.children, Id(x, link.child)) && Follows(x, link.child, l.visited, ancestors)
    ensures var f := ReadFamily(x, x.files[link.child], link.child, l.visited, ancestors);
      Growing(x, if f.result.None? then l.(visited := f.visited)
                 else Linking(ReferAt(l.steps, link, Id(x, link.child)), l.children + [f.result.value], f.visited), steps, links + [link], events)
    decreases |Unvisited(x, visited, Identity(x.session, agent))|, 0, 2 * |links| + 1
  {
    var identity := Id(x, link.child);
    Smaller(x, link.child, l.visited, visited, Identity(x.session, agent), ancestors);
    FamilyIsTree(x, x.files[link.child], link.child, l.visited, ancestors);
    var f := ReadFamily(x, x.files[link.child], link.child, l.visited, ancestors);
    if f.result.None? {
      RefdPassed(x, l.steps, steps, links, link, l.children);
    } else {
      assert IsChild(x, f.result.value, link.child, events);
      NewChildGrows(x, events, steps, l, links, link, f.result.value, f.visited);
    }
  }

  lemma NewChildGrows(x: Context, events: seq<Event>, steps: seq<Step>, l: Linking, links: seq<Link>, link: Link,
        child: Conversion, after: set<string>)
    requires Within(link, l.steps) && LinksMet(x, links, l.visited) && Growing(x, l, steps, links, events)
    requires Eligible(x, link.child) && Id(x, link.child) !in l.visited
    requires child.trajectory.id == Some(Id(x, link.child)) && ChildTree(x, child, events)
    ensures Growing(x, Linking(ReferAt(l.steps, link, Id(x, link.child)), l.children + [child], after), steps, links + [link], events)
  {
    forall j | 0 <= j < |links|
      ensures child.trajectory.id != Some(Id(x, links[j].child))
    {
      if Id(x, links[j].child) == Id(x, link.child) {
        SameId(x, link.child, links[j].child);
      }
    }
    RefdWithMore(x, l.steps, steps, links, l.children, child);
    HasChildMore(l.children, child, Id(x, link.child));
    RefdAgain(x, l.steps, steps, links, link, l.children + [child]);
  }

  /* ------------------------------------------------------------------ the whole family */

  /** Who is in a family.  The root is; a subagent is in it if a readable session in it names it, it may be
      read, and it says anything; and everyone else in it is a child of someone in it. */
  lemma FamilyIsComplete(x: Context, events: seq<Event>)
    ensures var f := ReadFamily(x, events, "", {}, {});
      f.result.Some? ==>
        var ids := IdSet(f.result.value);
        && Tree(x, f.result.value, "", events) && Id(x, "") in ids
        && (forall b :: Names(x, events, b) && Eligible(x, b) && Talks(x.files[b]) ==> Id(x, b) in ids)
        && (forall a, b :: Eligible(x, a) && Id(x, a) in ids && Names(x, x.files[a], b) && Eligible(x, b) && Talks(x.files[b]) ==> Id(x, b) in ids)
        && (forall b :: Eligible(x, b) && Id(x, b) in ids ==> Talks(x.files[b]))
  {
    var f := ReadFamily(x, events, "", {}, {});
    var root := Id(x, "");
    FamilyFound(x, events, "", {}, {});
    FamilyIsTree(x, events, "", {}, {});
    if f.result.Some? {
      var ids := IdSet(f.result.value);
      IdsOfOne(f.result.value);
      assert {} + {root} == {root};
      forall b | Eligible(x, b)
        ensures Id(x, b) != root
        ensures Id(x, b) in f.visited ==> (Talks(x.files[b]) <==> Id(x, b) in ids)
        ensures Id(x, b) in ids ==> Id(x, b) in f.visited
      {
        if Id(x, b) == root {
          SameId(x, b, "");
        }
      }
      forall a, b | Eligible(x, a) && Id(x, a) in ids && Names(x, x.files[a], b) && Eligible(x, b) && Talks(x.files[b])
        ensures Id(x, b) in ids
      {
        assert AllMet(x, x.files[a], f.visited);
      }
    }
  }

  /** The conversion of one file before its links are followed: the steps of its events with their metadata,
      under the id of the session and of its subagent. */
  lemma ConvertedSays(x: Context, events: seq<Event>, agent: string)
    ensures var c := Converted(events, x.session, agent, x.info, x.cfg);
      && c.trajectory.steps == StepsOf(x, events) && |c.metas| == |c.trajectory.steps|
      && (forall i | 0 <= i < |c.metas| :: Paired(c.trajectory.steps[i], c.metas[i], i + 1))
      && c.trajectory.agent == x.info && c.trajectory.children == [] && c.children == [] &&
            c.trajectory.totals.None? && c.trajectory.extra == map[]
      && c.warnings == [] && c.semantics == ""
      && (agent == "" ==> c.trajectory.id == Some("claude:" + x.session) && c.trajectory.sessionId == Some(x.session))
      && (agent != "" ==> c.trajectory.id == Some("claude:" + x.session + ":agent:" + agent)
                          && c.trajectory.sessionId == Some(x.session + ":agent:" + agent))
  {
    ConvertedIsSound(events, x.session, agent, x.info, x.cfg);
    var tail := if agent == "" then "" else ":agent:" + agent;
    var c := Converted(events, x.session, agent, x.info, x.cfg);
    assert c.trajectory.sessionId == Some(x.session + tail) && c.trajectory.id == Some("claude:" + x.session + tail);
    if agent == "" {
      assert x.session + tail == x.session && "claude:" + x.session + tail == "claude:" + x.session;
    } else {
      assert x.session + tail == x.session + ":agent:" + agent;
      assert "claude:" + x.session + tail == "claude:" + x.session + ":agent:" + agent;
    }
  }
}
