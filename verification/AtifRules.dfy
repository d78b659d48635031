/** The ways in which a trajectory can violate ATIF-v1.7, one by one and at any depth. */
module AtifRules {
  import opened Atif

  /* ------------------------------------------------------------------ places */

  /** The positions of children that lead to an embedded trajectory. */
  predicate IsPlace(t: Trajectory, path: seq<nat>)
    decreases |path|
  {
    path == [] || (path[0] < |t.children| && IsPlace(t.children[path[0]], path[1..]))
  }

  function Place(t: Trajectory, path: seq<nat>): Trajectory
    requires IsPlace(t, path)
    decreases |path|
  {
    if path == [] then t else Place(t.children[path[0]], path[1..])
  }

  /* ------------------------------------------------------------------ offences */

  /** What is wrong, with the positions of step, call or result, and reference. */
  datatype Offence =
    | NoSteps
    | WrongNumber(i: nat)
    | BadMessage(i: nat)
    | NegativeCount(i: nat)
    | AgentOnly(i: nat)
    | WithoutModel(i: nat)
    | BadMetrics(i: nat)
    | RepeatedCall(i: nat, k: nat, n: nat)
    | BadContent(i: nat, k: nat)
    | StrayResult(i: nat, k: nat)
    | EmptyRef(i: nat, k: nat, n: nat)
    | DanglingRef(i: nat, k: nat, n: nat)
    | BadTotals
    | NamelessChild(i: nat)
    | RepeatedChild(i: nat, n: nat)

  /** A part of a message: a text, or an image of one of four types with its path. */
  predicate TextPart(d: Extra) {
    && d.Keys <= {"type", "text", "source"} && "text" in d && d["text"].Str?
    && "type" in d && d["type"] == Str("text") && ("source" in d ==> d["source"].Null?)
  }

  predicate ImagePart(d: Extra) {
    && d.Keys <= {"type", "text", "source"} && "type" in d && d["type"] == Str("image") && ("text" in d ==> d["text"].Null?)
    && "source" in d && d["source"].Obj?
    && var image := d["source"].fields;
       && image.Keys == {"media_type", "path"} && image["path"].Str?
       && image["media_type"] in [Str("image/jpeg"), Str("image/png"), Str("image/gif"), Str("image/webp")]
  }

  predicate Shown(j: Json) {
    j.Str? || (j.Arr? && forall i | 0 <= i < |j.items| :: j.items[i].Obj? && (TextPart(j.items[i].fields) || ImagePart(j.items[i].fields)))
  }

  predicate Negative(n: Option<int>) { n.Some? && n.value < 0 }

  /** More cached tokens than prompt tokens, or cached tokens without prompt tokens. */
  predicate OverCached(prompt: Option<int>, cached: Option<int>) { cached.Some? && (prompt.None? || cached.value > prompt.value) }

  predicate NegativeCost(cost: Option<real>) { cost.Some? && cost.value < 0.0 }

  predicate IsResult(t: Trajectory, i: nat, k: nat) { i < |t.steps| && t.steps[i].observation.Some? && k < |t.steps[i].observation.value| }

  predicate IsRef(t: Trajectory, i: nat, k: nat, n: nat) { IsResult(t, i, k) && n < |t.steps[i].observation.value[k].refs| }

  predicate Commits(t: Trajectory, o: Offence) {
    match o
    case NoSteps => t.steps == []
    case WrongNumber(i) => i < |t.steps| && t.steps[i].id != i + 1
    case BadMessage(i) => i < |t.steps| && !Shown(t.steps[i].message)
    case NegativeCount(i) => i < |t.steps| && Negative(t.steps[i].llmCalls)
    case AgentOnly(i) =>
      i < |t.steps| && var s := t.steps[i];
      s.source != Agent && (s.model.Some? || s.reasoning.Some? || s.calls != [] || s.metrics.Some?)
    case WithoutModel(i) =>
      i < |t.steps| && t.steps[i].source == Agent && t.steps[i].llmCalls == Some(0) && (t.steps[i].metrics.Some? || t.steps[i].reasoning.Some?)
    case BadMetrics(i) =>
      i < |t.steps| && t.steps[i].metrics.Some? && var m := t.steps[i].metrics.value;
      Negative(m.prompt) || Negative(m.completion) || Negative(m.cached) || NegativeCost(m.cost) || OverCached(m.prompt, m.cached)
    case RepeatedCall(i, k, n) => i < |t.steps| && k < n < |t.steps[i].calls| && t.steps[i].calls[k].id == t.steps[i].calls[n].id
    case BadContent(i, k) =>
      IsResult(t, i, k) && t.steps[i].observation.value[k].content.Some? && !Shown(t.steps[i].observation.value[k].content.value)
    case StrayResult(i, k) =>
      IsResult(t, i, k) && var source := t.steps[i].observation.value[k].source;
      source.Some? && forall n | 0 <= n < |t.steps[i].calls| :: t.steps[i].calls[n].id != source.value
    case EmptyRef(i, k, n) =>
      IsRef(t, i, k, n) && var ref := t.steps[i].observation.value[k].refs[n]; ref.trajectoryId.None? && ref.path.None?
    case DanglingRef(i, k, n) =>
      IsRef(t, i, k, n) && var ref := t.steps[i].observation.value[k].refs[n];
      ref.path.None? && ref.trajectoryId.Some? && forall c | 0 <= c < |t.children| :: t.children[c].id != ref.trajectoryId
    case BadTotals =>
      t.totals.Some? && var m := t.totals.value;
      Negative(m.prompt) || Negative(m.completion) || Negative(m.cached) || m.steps < 0 || NegativeCost(m.cost) || OverCached(m.prompt, m.cached)
    case NamelessChild(i) => i < |t.children| && t.children[i].id.None?
    case RepeatedChild(i, n) => i < n < |t.children| && t.children[i].id.Some? && t.children[i].id == t.children[n].id
  }

  ghost predicate Clean(t: Trajectory) { forall o :: !Commits(t, o) }

  lemma PartsShown(part: Json)
    ensures IsPart(part) <==> part.Obj? && (TextPart(part.fields) || ImagePart(part.fields))
  {
    if part.Obj? {
      var d := part.fields;
      assert Get(d, "source").Obj? && IsImage(Get(d, "source")) ==> Get(d, "source").fields.Keys == {"media_type", "path"};
    }
  }

  lemma ContentShown(j: Json)
    ensures IsContent(j) <==> Shown(j)
  {
    if j.Arr? {
      forall i | 0 <= i < |j.items|
        ensures IsPart(j.items[i]) <==> j.items[i].Obj? && (TextPart(j.items[i].fields) || ImagePart(j.items[i].fields))
      {
        PartsShown(j.items[i]);
      }
    }
  }

  /* ------------------------------------------------------------------ one trajectory */

  /** What the validator asks of a trajectory beside its children being valid. */
  predicate OwnValid(t: Trajectory) {
    DistinctIds(t.children) && ValidSteps(t.steps, ChildIds(t.children)) && (t.totals.Some? ==> ValidTotals(t.totals.value))
  }

  lemma IdsNamed(children: seq<Trajectory>, id: string)
    ensures id in ChildIds(children) <==> exists c | 0 <= c < |children| :: children[c].id == Some(id)
  {
    if id in ChildIds(children) {
      var c :| c in children && c.id == Some(id);
      var i :| 0 <= i < |children| && children[i] == c;
    }
  }

  lemma CallsNamed(calls: seq<ToolCall>, id: string)
    ensures id in CallIds(calls) <==> exists n | 0 <= n < |calls| :: calls[n].id == id
  {
    if id in CallIds(calls) {
      var c :| c in calls && c.id == id;
      var i :| 0 <= i < |calls| && calls[i] == c;
    }
  }

  predicate RefOffends(t: Trajectory, i: nat, k: nat, n: nat) { Commits(t, EmptyRef(i, k, n)) || Commits(t, DanglingRef(i, k, n)) }

  lemma RefExactly(t: Trajectory, i: nat, k: nat, n: nat)
    requires IsRef(t, i, k, n)
    ensures ValidRef(t.steps[i].observation.value[k].refs[n], ChildIds(t.children)) <==> !RefOffends(t, i, k, n)
  {
    var ref := t.steps[i].observation.value[k].refs[n];
    if ref.trajectoryId.Some? {
      IdsNamed(t.children, ref.trajectoryId.value);
    }
  }

  predicate ResultOffends(t: Trajectory, i: nat, k: nat) {
    Commits(t, BadContent(i, k)) || Commits(t, StrayResult(i, k)) || (IsResult(t, i, k) && exists n | 0 <= n < |t.steps[i].observation.value[k].refs| :: RefOffends(t, i, k, n))
  }

  lemma ResultExactly(t: Trajectory, i: nat, k: nat)
    requires IsResult(t, i, k)
    ensures ValidResult(t.steps[i].observation.value[k], CallIds(t.steps[i].calls), ChildIds(t.children)) <==>
          !ResultOffends(t, i, k)
  {
    var x := t.steps[i].observation.value[k];
    if x.content.Some? {
      ContentShown(x.content.value);
    }
    if x.source.Some? {
      CallsNamed(t.steps[i].calls, x.source.value);
    }
    forall n | 0 <= n < |x.refs|
      ensures ValidRef(x.refs[n], ChildIds(t.children)) <==> !RefOffends(t, i, k, n)
    {
      RefExactly(t, i, k, n);
    }
  }

  predicate FactsOffend(t: Trajectory, i: nat) {
    Commits(t, NegativeCount(i)) || Commits(t, AgentOnly(i)) || Commits(t, WithoutModel(i)) || Commits(t, BadMetrics(i))
  }

  lemma FactsExactly(t: Trajectory, i: nat)
    requires i < |t.steps|
    ensures ValidFacts(t.steps[i]) <==> !FactsOffend(t, i)
  {
  }

  predicate CallsOffend(t: Trajectory, i: nat)
    requires i < |t.steps|
  {
    exists k, n | 0 <= k < n < |t.steps[i].calls| :: Commits(t, RepeatedCall(i, k, n))
  }

  predicate ResultsOffend(t: Trajectory, i: nat)
    requires i < |t.steps|
  {
    exists k | 0 <= k < |Results(t.steps[i])| :: ResultOffends(t, i, k)
  }

  predicate StepOffends(t: Trajectory, i: nat) {
    i < |t.steps| &&
    (Commits(t, WrongNumber(i)) || Commits(t, BadMessage(i)) || FactsOffend(t, i) || CallsOffend(t, i) || ResultsOffend(t, i))
  }

  lemma CallsExactly(t: Trajectory, i: nat)
    requires i < |t.steps|
    ensures DistinctCalls(t.steps[i].calls) <==> !CallsOffend(t, i)
  {
    var calls := t.steps[i].calls;
    if !DistinctCalls(calls) {
      var k, n :| 0 <= k < n < |calls| && calls[k].id == calls[n].id;
      assert Commits(t, RepeatedCall(i, k, n));
    }
  }

  lemma ResultsExactly(t: Trajectory, i: nat)
    requires i < |t.steps|
    ensures ValidObservation(t.steps[i].observation, CallIds(t.steps[i].calls), ChildIds(t.children)) <==> !ResultsOffend(t, i)
  {
    var s := t.steps[i];
    forall k | 0 <= k < |Results(s)|
      ensures ValidResult(Results(s)[k], CallIds(s.calls), ChildIds(t.children)) <==> !ResultOffends(t, i, k)
    {
      ResultExactly(t, i, k);
    }
    if s.observation.Some? {
      assert Results(s) == s.observation.value;
      if !ResultsOffend(t, i) {
        forall k | 0 <= k < |s.observation.value|
          ensures ValidResult(s.observation.value[k], CallIds(s.calls), ChildIds(t.children))
        {
          assert !ResultOffends(t, i, k);
        }
      }
    }
  }

  lemma StepExactly(t: Trajectory, i: nat)
    requires i < |t.steps|
    ensures ValidStep(t.steps[i], i + 1, ChildIds(t.children)) <==> !StepOffends(t, i)
  {
    ContentShown(t.steps[i].message);
    FactsExactly(t, i);
    CallsExactly(t, i);
    ResultsExactly(t, i);
  }

  lemma ChildrenExactly(t: Trajectory)
    ensures DistinctIds(t.children) <==>
      (forall i: nat :: !Commits(t, NamelessChild(i))) && forall i: nat, n: nat :: !Commits(t, RepeatedChild(i, n))
  {
    if (forall i: nat :: !Commits(t, NamelessChild(i))) && forall i: nat, n: nat :: !Commits(t, RepeatedChild(i, n)) {
      forall i | 0 <= i < |t.children|
        ensures t.children[i].id.Some?
      {
        assert !Commits(t, NamelessChild(i));
      }
      forall i, n | 0 <= i < n < |t.children|
        ensures t.children[i].id != t.children[n].id
      {
        assert !Commits(t, RepeatedChild(i, n));
      }
    }
  }

  /** A step offends if and only if some offence is committed there. */
  lemma OffenceAtStep(t: Trajectory, o: Offence)
    requires Commits(t, o)
    ensures o.NoSteps? || o.BadTotals? || o.NamelessChild? || o.RepeatedChild? || exists i: nat :: StepOffends(t, i)
  {
    match o {
      case BadContent(i, k) => assert ResultOffends(t, i, k) && StepOffends(t, i);
      case StrayResult(i, k) => assert ResultOffends(t, i, k) && StepOffends(t, i);
      case EmptyRef(i, k, n) => assert RefOffends(t, i, k, n) && ResultOffends(t, i, k) && StepOffends(t, i);
      case DanglingRef(i, k, n) => assert RefOffends(t, i, k, n) && ResultOffends(t, i, k) && StepOffends(t, i);
      case WrongNumber(i) => assert StepOffends(t, i);
      case BadMessage(i) => assert StepOffends(t, i);
      case NegativeCount(i) => assert FactsOffend(t, i) && StepOffends(t, i);
      case AgentOnly(i) => assert FactsOffend(t, i) && StepOffends(t, i);
      case WithoutModel(i) => assert FactsOffend(t, i) && StepOffends(t, i);
      case BadMetrics(i) => assert FactsOffend(t, i) && StepOffends(t, i);
      case RepeatedCall(i, k, n) => assert StepOffends(t, i);
      case _ =>
    }
  }

  lemma StepOffenceCommitted(t: Trajectory, i: nat)
    requires StepOffends(t, i)
    ensures !Clean(t)
  {
    if ResultsOffend(t, i) {
      var k :| 0 <= k < |Results(t.steps[i])| && ResultOffends(t, i, k);
    }
  }

  predicate TotalsOffend(t: Trajectory) { Commits(t, BadTotals) }

  lemma TotalsExactly(t: Trajectory)
    ensures (t.totals.Some? ==> ValidTotals(t.totals.value)) <==> !TotalsOffend(t)
  {
  }

  lemma StepsExactly(t: Trajectory)
    ensures ValidSteps(t.steps, ChildIds(t.children)) <==> !Commits(t, NoSteps) && forall i: nat :: !StepOffends(t, i)
  {
    forall i | 0 <= i < |t.steps|
      ensures ValidStep(t.steps[i], i + 1, ChildIds(t.children)) <==> !StepOffends(t, i)
    {
      StepExactly(t, i);
    }
  }

  lemma OwnExactly(t: Trajectory)
    ensures OwnValid(t) <==> Clean(t)
  {
    ChildrenExactly(t);
    StepsExactly(t);
    TotalsExactly(t);
    if OwnValid(t) {
      forall o
        ensures !Commits(t, o)
      {
        if Commits(t, o) {
          OffenceAtStep(t, o);
        }
      }
    } else if exists i: nat :: StepOffends(t, i) {
      var i: nat :| StepOffends(t, i);
      StepOffenceCommitted(t, i);
    }
  }

  /* ------------------------------------------------------------------ every depth */

  /** No offence at any place. */
  ghost predicate CleanThroughout(t: Trajectory) { forall path :: IsPlace(t, path) ==> Clean(Place(t, path)) }

  lemma {:induction false} ValidIsClean(t: Trajectory)
    requires Valid(t)
    ensures CleanThroughout(t)
    decreases t
  {
    OwnExactly(t);
    forall path | IsPlace(t, path)
      ensures Clean(Place(t, path))
    {
      if path != [] {
        var child := t.children[path[0]];
        assert child in t.children;
        ValidIsClean(child);
        assert IsPlace(child, path[1..]);
      }
    }
  }

  lemma {:induction false} CleanIsValid(t: Trajectory)
    requires CleanThroughout(t)
    ensures Valid(t)
    decreases t
  {
    assert IsPlace(t, []) && Place(t, []) == t;
    OwnExactly(t);
    forall c | c in t.children
      ensures Valid(c)
    {
      var i :| 0 <= i < |t.children| && t.children[i] == c;
      forall path | IsPlace(c, path)
        ensures Clean(Place(c, path))
      {
        var longer := [i] + path;
        assert longer[1..] == path && IsPlace(t, longer) && Place(t, longer) == Place(c, path);
      }
      CleanIsValid(c);
    }
  }

  /** A trajectory is valid if and only if no offence is committed anywhere in it. */
  lemma ValidExactly(t: Trajectory)
    ensures Valid(t) <==> CleanThroughout(t)
  {
    if Valid(t) {
      ValidIsClean(t);
    } else if CleanThroughout(t) {
      CleanIsValid(t);
    }
  }
}
