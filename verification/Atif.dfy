/** Trajectories in the ATIF-v1.7 form and their strict validation. */
module Atif {
  datatype Option<+T> = None | Some(value: T)

  datatype Json = Null | Bool(b: bool) | Number(n: real) | Str(s: string) | Arr(items: seq<Json>) | Obj(fields: map<string, Json>)

  /** An absent object and an empty one are not told apart. */
  type Extra = map<string, Json>

  datatype Source = System | User | Agent
  datatype ToolCall = ToolCall(id: string, name: string, arguments: Extra, extra: Extra)
  datatype Ref = Ref(trajectoryId: Option<string>, path: Option<string>)
  datatype Result = Result(source: Option<string>, content: Option<Json>, refs: seq<Ref>, extra: Extra)
  datatype Metrics = Metrics(prompt: Option<int>, completion: Option<int>, cached: Option<int>, cost: Option<real>)
  datatype Totals = Totals(prompt: Option<int>, completion: Option<int>, cached: Option<int>, cost: Option<real>, steps: int)
  datatype Step = Step(id: int, source: Source, message: Json, timestamp: Option<int>, model: Option<string>,
                       reasoning: Option<string>, calls: seq<ToolCall>, observation: Option<seq<Result>>,
                       metrics: Option<Metrics>, llmCalls: Option<int>, extra: Extra)
  datatype AgentInfo = AgentInfo(name: string, version: string, model: Option<string>)
  datatype Trajectory = Trajectory(sessionId: Option<string>, id: Option<string>, agent: AgentInfo, steps: seq<Step>,
                                   children: seq<Trajectory>, totals: Option<Totals>, extra: Extra)

  /* ------------------------------------------------------------------ what validity means */

  function Get(d: Extra, key: string): Json { if key in d then d[key] else Null }

  predicate Only(d: Extra, keys: set<string>) { d.Keys <= keys }

  const MEDIA_TYPES := {Str("image/jpeg"), Str("image/png"), Str("image/gif"), Str("image/webp")}

  predicate IsImage(d: Json) {
    d.Obj? && Only(d.fields, {"media_type", "path"}) && Get(d.fields, "media_type") in MEDIA_TYPES && Get(d.fields, "path").Str?
  }

  predicate IsPart(part: Json) {
    part.Obj? && Only(part.fields, {"type", "text", "source"}) &&
    var d := part.fields;
    if Get(d, "type") == Str("text") then Get(d, "text").Str? && Get(d, "source").Null?
    else Get(d, "type") == Str("image") && Get(d, "text").Null? && IsImage(Get(d, "source"))
  }

  /** A text, or parts of text and images. */
  predicate IsContent(j: Json) { j.Str? || (j.Arr? && forall i | 0 <= i < |j.items| :: IsPart(j.items[i])) }

  predicate Natural(n: Option<int>) { n.Some? ==> n.value >= 0 }

  predicate Ordered(prompt: Option<int>, cached: Option<int>) { cached.Some? ==> prompt.Some? && cached.value <= prompt.value }

  predicate ValidMetrics(m: Metrics) {
    Natural(m.prompt) && Natural(m.completion) && Natural(m.cached) && (m.cost.Some? ==> m.cost.value >= 0.0) && Ordered(m.prompt, m.cached)
  }

  predicate ValidTotals(m: Totals) {
    && Natural(m.prompt) && Natural(m.completion) && Natural(m.cached) && m.steps >= 0
    && (m.cost.Some? ==> m.cost.value >= 0.0) && Ordered(m.prompt, m.cached)
  }

  predicate DistinctCalls(calls: seq<ToolCall>) { forall i, j | 0 <= i < j < |calls| :: calls[i].id != calls[j].id }

  function Results(s: Step): seq<Result> { if s.observation.Some? then s.observation.value else [] }

  function CallIds(calls: seq<ToolCall>): set<string> { set c | c in calls :: c.id }

  predicate ValidRef(ref: Ref, embedded: set<string>) {
    (ref.trajectoryId.Some? || ref.path.Some?) && (ref.path.None? ==> ref.trajectoryId.Some? && ref.trajectoryId.value in embedded)
  }

  predicate ValidResult(result: Result, calls: set<string>, embedded: set<string>) {
    && (result.content.Some? ==> IsContent(result.content.value))
    && (result.source.Some? ==> result.source.value in calls)
    && (forall i | 0 <= i < |result.refs| :: ValidRef(result.refs[i], embedded))
  }

  predicate ValidObservation(o: Option<seq<Result>>, calls: set<string>, embedded: set<string>) {
    o.Some? ==> forall i | 0 <= i < |o.value| :: ValidResult(o.value[i], calls, embedded)
  }

  /** What only an agent may carry, and what a step without a model call may not. */
  predicate ValidFacts(s: Step) {
    && Natural(s.llmCalls)
    && (!s.source.Agent? ==> s.model.None? && s.reasoning.None? && s.calls == [] && s.metrics.None?)
    && (s.source.Agent? && s.llmCalls == Some(0) ==> s.metrics.None? && s.reasoning.None?)
    && (s.metrics.Some? ==> ValidMetrics(s.metrics.value))
  }

  predicate ValidStep(s: Step, id: int, embedded: set<string>) {
    && s.id == id && IsContent(s.message) && ValidFacts(s) && DistinctCalls(s.calls)
    && ValidObservation(s.observation, CallIds(s.calls), embedded)
  }

  function ChildIds(children: seq<Trajectory>): set<string> { set c | c in children && c.id.Some? :: c.id.value }

  predicate DistinctIds(children: seq<Trajectory>) {
    && (forall i | 0 <= i < |children| :: children[i].id.Some?)
    && (forall i, j | 0 <= i < j < |children| :: children[i].id != children[j].id)
  }

  predicate ValidSteps(steps: seq<Step>, embedded: set<string>) {
    steps != [] && forall i | 0 <= i < |steps| :: ValidStep(steps[i], i + 1, embedded)
  }

  predicate Valid(t: Trajectory) {
    && DistinctIds(t.children) && (forall c | c in t.children :: Valid(c))
    && ValidSteps(t.steps, ChildIds(t.children))
    && (t.totals.Some? ==> ValidTotals(t.totals.value))
  }

  /* ------------------------------------------------------------------ the validator */

  /** One pass over the calls with the ids seen so far. */
  method ValidateCalls(calls: seq<ToolCall>) returns (ok: bool, toolIds: set<string>)
    ensures ok <==> DistinctCalls(calls)
    ensures ok ==> toolIds == CallIds(calls)
  {
    toolIds := {};
    for i := 0 to |calls|
      invariant DistinctCalls(calls[..i]) && toolIds == CallIds(calls[..i])
    {
      assert calls[..i + 1] == calls[..i] + [calls[i]];
      if calls[i].id in toolIds {
        var c :| c in calls[..i] && c.id == calls[i].id;
        var j :| 0 <= j < i && calls[j] == c;
        return false, toolIds;
      }
      forall j | 0 <= j < i
        ensures calls[j].id != calls[i].id
      {
        assert calls[..i][j] in calls[..i];
      }
      toolIds := toolIds + {calls[i].id};
    }
    assert calls[..|calls|] == calls;
    ok := true;
  }

  method ValidateStep(s: Step, id: int, embedded: set<string>) returns (ok: bool)
    ensures ok <==> ValidStep(s, id, embedded)
  {
    if s.id != id || !IsContent(s.message) || !ValidFacts(s) {
      return false;
    }
    var distinct, toolIds := ValidateCalls(s.calls);
    if !distinct {
      return false;
    }
    if s.observation.Some? {
      var results := s.observation.value;
      for i := 0 to |results|
        invariant forall j | 0 <= j < i :: ValidResult(results[j], toolIds, embedded)
      {
        if !ValidResult(results[i], toolIds, embedded) {
          return false;
        }
      }
    }
    ok := true;
  }

  /** The recursive validator: the embedded ids are collected first, then the steps may refer to them. */
  method Validate(t: Trajectory) returns (ok: bool)
    ensures ok <==> Valid(t)
    decreases t
  {
    if t.steps == [] {
      return false;
    }
    var embedded: set<string> := {};
    for i := 0 to |t.children|
      invariant DistinctIds(t.children[..i]) && embedded == ChildIds(t.children[..i])
      invariant forall c | c in t.children[..i] :: Valid(c)
    {
      var child := t.children[i];
      assert t.children[..i + 1] == t.children[..i] + [child];
      if child.id.None? || child.id.value in embedded {
        return false;
      }
      embedded := embedded + {child.id.value};
      var fine := Validate(child);
      if !fine {
        return false;
      }
    }
    assert t.children[..|t.children|] == t.children;
    for i := 0 to |t.steps|
      invariant forall j | 0 <= j < i :: ValidStep(t.steps[j], j + 1, embedded)
    {
      var fine := ValidateStep(t.steps[i], i + 1, embedded);
      if !fine {
        return false;
      }
    }
    ok := t.totals.None? || ValidTotals(t.totals.value);
  }

}
