/** Projecting adapter output into canonical ATIF: the only place where trajectories are repaired. */
module Finalize {
  import opened Atif

  /* ------------------------------------------------------------------ runtime facts beside a trajectory */

  datatype ToolMeta = ToolMeta(id: string, started: Option<int>, generation: Option<int>, execution: Option<int>,
                               executionSource: Option<string>, truncated: bool)
  datatype ObservationMeta = ObservationMeta(source: Option<string>, status: Option<string>, finished: Option<int>, isError: bool, truncated: bool)
  datatype StepMeta = StepMeta(id: int, tools: seq<ToolMeta>, observations: seq<ObservationMeta>, toolError: bool,
                               timestamp: Option<int>, duration: Option<int>, durationSource: Option<string>, truncated: bool)

  /** `semantics` is what the timestamps mean, if the source says so. */
  datatype Conversion = Conversion(trajectory: Trajectory, metas: seq<StepMeta>, warnings: seq<string>, semantics: string,
                                   children: seq<Conversion>)

  /** Texts whose form does not matter here: times, JSON, warnings; and how costs are rounded. */
  datatype Rules = Rules(iso: int -> string, json: Json -> string, estimate: string -> bool, orderOnly: string -> bool,
                         round: real -> real, unmatched: (nat, nat, string) -> string, subagent: nat -> string)

  ghost predicate Lawful(r: Rules) { forall x: real | x >= 0.0 :: r.round(x) >= 0.0 }

  function NotNegative(n: int): Json { Number((if n < 0 then 0 else n) as real) }

  function TextFact(key: string, text: Option<string>): Extra {
    if text.Some? && text.value != "" then map[key := Str(text.value)] else map[]
  }

  function DurationFacts(m: StepMeta, r: Rules): Extra {
    (if m.duration.None? || (m.durationSource.Some? && r.estimate(m.durationSource.value)) then map[]
     else map["duration_ms" := NotNegative(m.duration.value)] + TextFact("duration_source", m.durationSource))
    + if m.truncated then map["truncated" := Bool(true)] else map[]
  }

  function ToolFacts(m: ToolMeta, portable: bool, r: Rules): Extra {
    (if m.started.Some? && portable then map["started_at" := Str(r.iso(m.started.value))] else map[])
    + (if m.generation.Some? then map["generation_duration_ms" := NotNegative(m.generation.value)] else map[])
    + if m.truncated then map["arguments_truncated" := Bool(true)] else map[]
  }

  function ExecutionFacts(m: Option<ToolMeta>): Extra {
    if m.None? || m.value.execution.None? then map[]
    else map["execution_duration_ms" := NotNegative(m.value.execution.value)] + TextFact("execution_duration_source", m.value.executionSource)
  }

  function OwnFacts(m: ObservationMeta, portable: bool, r: Rules): Extra {
    (if m.status.Some? then map["status" := Str(m.status.value)] else map[])
    + map["is_error" := Bool(m.isError)]
    + (if m.finished.Some? && portable then map["finished_at" := Str(r.iso(m.finished.value))] else map[])
    + if m.truncated then map["truncated" := Bool(true)] else map[]
  }

  /** The last tool with that id, as in a dictionary built from the list. */
  function ToolOf(tools: seq<ToolMeta>, id: string): Option<ToolMeta> {
    if tools == [] then None
    else if tools[|tools| - 1].id == id then Some(tools[|tools| - 1])
    else ToolOf(tools[..|tools| - 1], id)
  }

  function OrEmpty(s: Option<string>): string { if s.Some? then s.value else "" }

  /* ------------------------------------------------------------------ one step */

  function ProjectCall(call: ToolCall, m: StepMeta, portable: bool, r: Rules): ToolCall {
    var tool := ToolOf(m.tools, call.id);
    if tool.None? then call else call.(extra := call.extra + ToolFacts(tool.value, portable, r))
  }

  function ProjectCalls(calls: seq<ToolCall>, m: StepMeta, portable: bool, r: Rules): (p: seq<ToolCall>)
    ensures |p| == |calls|
    ensures forall i | 0 <= i < |calls| :: p[i] == ProjectCall(calls[i], m, portable, r)
  {
    seq(|calls|, i requires 0 <= i < |calls| => ProjectCall(calls[i], m, portable, r))
  }

  /** The facts of one observation, with the execution of the tool its metadata names. */
  function ResultFacts(m: StepMeta, i: nat, portable: bool, r: Rules): Extra {
    if i < |m.observations| then OwnFacts(m.observations[i], portable, r) + ExecutionFacts(ToolOf(m.tools, OrEmpty(m.observations[i].source)))
    else map[]
  }

  function ProjectResults(results: seq<Result>, m: StepMeta, portable: bool, r: Rules): (p: seq<Result>)
    ensures |p| == |results|
    ensures forall i | 0 <= i < |results| :: p[i] == results[i].(extra := results[i].extra + ResultFacts(m, i, portable, r))
  {
    seq(|results|, i requires 0 <= i < |results| => results[i].(extra := results[i].extra + ResultFacts(m, i, portable, r)))
  }

  function ProjectStep(s: Step, m: StepMeta, portable: bool, r: Rules): Step {
    s.(timestamp := if m.timestamp.Some? && portable then m.timestamp else s.timestamp,
       extra := s.extra + DurationFacts(m, r),
       calls := ProjectCalls(s.calls, m, portable, r),
       observation := if s.observation.Some? then Some(ProjectResults(s.observation.value, m, portable, r)) else None)
  }

  /** An agent step counts one model call, or none when it only reports a result. */
  function ModelCalls(s: Step): Option<int> {
    if s.source.Agent? && s.llmCalls.None? then Some(if s.observation.Some? && s.calls == [] then 0 else 1) else s.llmCalls
  }

  predicate Unmatched(x: Result, calls: set<string>) { x.source.Some? && x.source.value !in calls }

  function NormalizeResult(x: Result, calls: set<string>, r: Rules): Result {
    var content := if x.content.Some? && !IsContent(x.content.value) then Some(Str(r.json(x.content.value))) else x.content;
    if Unmatched(x, calls) then x.(content := content, source := None, extra := x.extra["unmatched_source_call_id" := Str(x.source.value)])
    else x.(content := content)
  }

  function NormalizeResults(results: seq<Result>, calls: set<string>, r: Rules): (p: seq<Result>)
    ensures |p| == |results|
    ensures forall i | 0 <= i < |results| :: p[i] == NormalizeResult(results[i], calls, r)
  {
    seq(|results|, i requires 0 <= i < |results| => NormalizeResult(results[i], calls, r))
  }

  function NormalizeStep(s: Step, r: Rules): Step {
    s.(llmCalls := ModelCalls(s),
       observation := if s.observation.Some? then Some(NormalizeResults(s.observation.value, CallIds(s.calls), r)) else None)
  }

  predicate Contains(text: string, part: string) { exists k | 0 <= k <= |text| :: part <= text[k..] }

  predicate Mentioned(warnings: seq<string>, id: string) { exists i | 0 <= i < |warnings| :: Contains(warnings[i], id) }

  /** A warning for each result whose call is not in its step, unless the id is already mentioned. */
  function ResultWarnings(results: seq<Result>, calls: set<string>, warnings: seq<string>, step: nat, n: nat,
        r: Rules): seq<string>
    requires n <= |results|
  {
    if n == 0 then warnings
    else
      var before := ResultWarnings(results, calls, warnings, step, n - 1, r);
      var x := results[n - 1];
      if Unmatched(x, calls) && !Mentioned(before, x.source.value) then before + [r.unmatched(step, n - 1, x.source.value)] else before
  }

  function StepWarnings(s: Step, warnings: seq<string>, step: nat, r: Rules): seq<string> {
    if s.observation.None? then warnings
    else ResultWarnings(s.observation.value, CallIds(s.calls), warnings, step, |s.observation.value|, r)
  }

  /** The metadata of the results follow the repaired ids. */
  function Align(m: StepMeta, s: Step): StepMeta {
    var results := if s.observation.Some? then s.observation.value else [];
    m.(observations := seq(|m.observations|, i requires 0 <= i < |m.observations| =>
      if i < |results| then m.observations[i].(source := results[i].source) else m.observations[i]))
  }

  function FinalStep(s: Step, m: Option<StepMeta>, portable: bool, r: Rules): Step {
    NormalizeStep(if m.Some? then ProjectStep(s, m.value, portable, r) else s, r)
  }

  /* ------------------------------------------------------------------ which steps can be repaired */

  /** What repair does not touch must be valid already. */
  predicate RepairableStep(s: Step, id: int, embedded: set<string>) {
    && s.id == id && IsContent(s.message) && DistinctCalls(s.calls)
    && ValidFacts(s.(llmCalls := ModelCalls(s)))
    && (s.observation.Some? ==> forall i, k | 0 <= i < |s.observation.value| && 0 <= k < |s.observation.value[i].refs| ::
          ValidRef(s.observation.value[i].refs[k], embedded))
  }

  lemma ProjectedCallIds(s: Step, m: StepMeta, portable: bool, r: Rules)
    ensures var p := ProjectStep(s, m, portable, r);
      CallIds(p.calls) == CallIds(s.calls) && (DistinctCalls(p.calls) <==> DistinctCalls(s.calls))
  {
  }

  lemma NormalizedResultIsValid(x: Result, calls: set<string>, embedded: set<string>, r: Rules)
    ensures ValidResult(NormalizeResult(x, calls, r), calls, embedded) <==> forall k | 0 <= k < |x.refs| ::
          ValidRef(x.refs[k], embedded)
  {
  }

  lemma NormalizedStepIsValid(s: Step, id: int, embedded: set<string>, r: Rules)
    ensures ValidStep(NormalizeStep(s, r), id, embedded) <==> RepairableStep(s, id, embedded)
  {
    if s.observation.Some? {
      var results, calls := s.observation.value, CallIds(s.calls);
      forall i | 0 <= i < |results|
        ensures ValidResult(NormalizeResult(results[i], calls, r), calls, embedded)
          <==> forall k | 0 <= k < |results[i].refs| :: ValidRef(results[i].refs[k], embedded)
      {
        NormalizedResultIsValid(results[i], calls, embedded, r);
      }
    }
  }

  /** Repair makes a step valid exactly when it is repairable: ids of results are resolved or set aside, and
      contents become texts, whatever they were. */
  lemma FinalStepIsValid(s: Step, m: Option<StepMeta>, portable: bool, r: Rules, id: int, embedded: set<string>)
    ensures ValidStep(FinalStep(s, m, portable, r), id, embedded) <==> RepairableStep(s, id, embedded)
  {
    if m.Some? {
      NormalizedStepIsValid(ProjectStep(s, m.value, portable, r), id, embedded, r);
    } else {
      NormalizedStepIsValid(s, id, embedded, r);
    }
  }

  /* ------------------------------------------------------------------ totals */

  datatype Amount = Prompt | Completion | Cached

  function AmountOf(m: Metrics, a: Amount): Option<int> {
    match a
    case Prompt => m.prompt
    case Completion => m.completion
    case Cached => m.cached
  }

  function Plus(a: Option<int>, b: Option<int>): Option<int> {
    if a.None? then b else if b.None? then a else Some(a.value + b.value)
  }

  /** The sum over the steps that report the amount; none when no step does. */
  function Total(steps: seq<Step>, a: Amount): Option<int> {
    if steps == [] then None
    else
      var last := steps[|steps| - 1];
      Plus(Total(steps[..|steps| - 1], a), if last.metrics.Some? then AmountOf(last.metrics.value, a) else None)
  }

  function TotalCost(steps: seq<Step>): Option<real> {
    if steps == [] then None
    else
      var before, last := TotalCost(steps[..|steps| - 1]), steps[|steps| - 1];
      if last.metrics.None? || last.metrics.value.cost.None? then before
      else Some((if before.Some? then before.value else 0.0) + last.metrics.value.cost.value)
  }

  function Aggregate(steps: seq<Step>, r: Rules): Totals {
    var cost := TotalCost(steps);
    Totals(Total(steps, Prompt), Total(steps, Completion), Total(steps, Cached),
           if cost.Some? then Some(r.round(cost.value)) else None, |steps|)
  }

  predicate MetricsValid(steps: seq<Step>) { forall i | 0 <= i < |steps| && steps[i].metrics.Some? :: ValidMetrics(steps[i].metrics.value) }

  /** Step by step the cached tokens are among the prompt tokens, and so they are in the totals. */
  lemma {:induction false} TotalsOrdered(steps: seq<Step>)
    requires MetricsValid(steps)
    ensures forall a :: Natural(Total(steps, a))
    ensures Ordered(Total(steps, Prompt), Total(steps, Cached))
    ensures TotalCost(steps).Some? ==> TotalCost(steps).value >= 0.0
  {
    if steps != [] {
      TotalsOrdered(steps[..|steps| - 1]);
    }
  }

  lemma AggregateIsValid(steps: seq<Step>, r: Rules)
    requires Lawful(r) && MetricsValid(steps)
    ensures ValidTotals(Aggregate(steps, r))
  {
    TotalsOrdered(steps);
  }

  /* ------------------------------------------------------------------ all steps */

  /** The last metadata with that step id, as in a dictionary built from the list. */
  function MetaIndex(metas: seq<StepMeta>, id: int): (i: Option<nat>)
    ensures i.Some? ==> i.value < |metas| && metas[i.value].id == id
  {
    if metas == [] then None
    else if metas[|metas| - 1].id == id then Some(|metas| - 1)
    else MetaIndex(metas[..|metas| - 1], id)
  }

  /** What the loop has done: the steps so far, the metadata with those it aligned, the warnings, and whether
      a step got a timestamp. */
  datatype Pass = Pass(steps: seq<Step>, metas: seq<StepMeta>, warnings: seq<string>, stamped: bool)

  function Stamps(m: StepMeta, portable: bool): bool { m.timestamp.Some? && portable }

  /** The metadata of a step: by id among the copies, or else the original at the same position. */
  function MetaFor(original: seq<StepMeta>, metas: seq<StepMeta>, s: Step, index: nat): Option<StepMeta>
    requires |metas| == |original|
  {
    var found := MetaIndex(original, s.id);
    if found.Some? then Some(metas[found.value]) else if index < |original| then Some(original[index]) else None
  }

  /** One step: only a copy found by id is aligned in what is returned. */
  function TakeStep(p: Pass, original: seq<StepMeta>, s: Step, index: nat, portable: bool, r: Rules): (q: Pass)
    requires |p.metas| == |original|
    ensures |q.metas| == |original|
  {
    var m := MetaFor(original, p.metas, s, index);
    var projected := if m.Some? then ProjectStep(s, m.value, portable, r) else s;
    var final := NormalizeStep(projected, r);
    var found := MetaIndex(original, s.id);
    Pass(p.steps + [final],
         if found.Some? then p.metas[found.value := Align(p.metas[found.value], final)] else p.metas,
         StepWarnings(projected, p.warnings, index, r),
         p.stamped || (m.Some? && Stamps(m.value, portable)))
  }

  function Passes(steps: seq<Step>, original: seq<StepMeta>, warnings: seq<string>, portable: bool, r: Rules): (p: Pass)
    ensures |p.metas| == |original| && |p.steps| == |steps|
  {
    if steps == [] then Pass([], original, warnings, false)
    else
      var n := |steps| - 1;
      TakeStep(Passes(steps[..n], original, warnings, portable, r), original, steps[n], n, portable, r)
  }

  /* ------------------------------------------------------------------ a whole conversion */

  function IdOf(t: Trajectory): Option<string> {
    if t.id.None? && t.sessionId.Some? && t.sessionId.value != "" then Some(t.agent.name + ":" + t.sessionId.value) else t.id
  }

  /** The warnings of a child under its id, each once. */
  function Adopt(warnings: seq<string>, identifier: string, from: seq<string>): seq<string> {
    if from == [] then warnings
    else
      var before := Adopt(warnings, identifier, from[..|from| - 1]);
      var qualified := identifier + ": " + from[|from| - 1];
      if qualified in before then before else before + [qualified]
  }

  function AdoptAll(warnings: seq<string>, children: seq<Conversion>, r: Rules): seq<string> {
    if children == [] then warnings
    else
      var n := |children| - 1;
      var child := children[n];
      Adopt(AdoptAll(warnings, children[..n], r), if child.trajectory.id.Some? then child.trajectory.id.value else r.subagent(n), child.warnings)
  }

  function RootExtra(extra: Extra, semantics: string, stamped: bool): Extra {
    if semantics != "" then extra["timestamp_semantics" := Str(semantics)]
    else if stamped then extra["timestamp_semantics" := Str("utc_epoch_milliseconds")]
    else extra
  }

  function Trajectories(children: seq<Conversion>): (ts: seq<Trajectory>)
    ensures |ts| == |children| && forall i | 0 <= i < |children| :: ts[i] == children[i].trajectory
  {
    seq(|children|, i requires 0 <= i < |children| => children[i].trajectory)
  }

  /** The repaired conversion, before validation. */
  function Assemble(c: Conversion, children: seq<Conversion>, r: Rules): Conversion {
    var p := Passes(c.trajectory.steps, c.metas, AdoptAll(c.warnings, children, r), !r.orderOnly(c.semantics), r);
    var t := c.trajectory.(id := IdOf(c.trajectory), steps := p.steps,
                           children := if children == [] then c.trajectory.children else Trajectories(children),
                           totals := Some(Aggregate(p.steps, r)),
                           extra := RootExtra(c.trajectory.extra, c.semantics, p.stamped));
    Conversion(t, p.metas, p.warnings, c.semantics, children)
  }

  /** All values, when there is none missing. */
  function All<T>(xs: seq<Option<T>>): (r: Option<seq<T>>)
    ensures r.Some? <==> forall i | 0 <= i < |xs| :: xs[i].Some?
    ensures r.Some? ==> |r.value| == |xs| && forall i | 0 <= i < |xs| :: xs[i] == Some(r.value[i])
  {
    if xs == [] then Some([])
    else
      var before, last := All(xs[..|xs| - 1]), xs[|xs| - 1];
      if before.None? || last.None? then None else Some(before.value + [last.value])
  }

  /** `None` when validation fails, here or in a child. */
  function Finalized(c: Conversion, r: Rules): Option<Conversion>
    decreases c
  {
    var children := All(seq(|c.children|, i requires 0 <= i < |c.children| => Finalized(c.children[i], r)));
    if children.None? then None else Checked(Assemble(c, children.value, r))
  }

  function Checked(final: Conversion): Option<Conversion> { if Valid(final.trajectory) then Some(final) else None }

  /** The finalized children, one for one. */
  ghost predicate AreFinalized(children: seq<Conversion>, from: seq<Conversion>, r: Rules) {
    |children| == |from| && forall i | 0 <= i < |from| :: Finalized(from[i], r) == Some(children[i])
  }

  lemma FinalizedChildren(c: Conversion, r: Rules) returns (children: seq<Conversion>)
    ensures (forall i | 0 <= i < |c.children| :: Finalized(c.children[i], r).Some?) ==>
      AreFinalized(children, c.children, r) && Finalized(c, r) == Checked(Assemble(c, children, r))
    ensures !(forall i | 0 <= i < |c.children| :: Finalized(c.children[i], r).Some?) ==> Finalized(c, r).None?
  {
    var results := seq(|c.children|, i requires 0 <= i < |c.children| => Finalized(c.children[i], r));
    var all := All(results);
    assert forall i | 0 <= i < |c.children| :: results[i] == Finalized(c.children[i], r);
    children := if all.Some? then all.value else [];
  }

  lemma SameChildren(a: seq<Conversion>, b: seq<Conversion>, from: seq<Conversion>, r: Rules)
    requires AreFinalized(a, from, r) && AreFinalized(b, from, r)
    ensures a == b
  {
  }

  /* ------------------------------------------------------------------ the program */

  method FinalizeSteps(steps: seq<Step>, original: seq<StepMeta>, warnings: seq<string>, portable: bool,
        r: Rules) returns (p: Pass)
    ensures p == Passes(steps, original, warnings, portable, r)
  {
    p := Pass([], original, warnings, false);
    assert steps[..0] == [];
    for index := 0 to |steps|
      invariant p == Passes(steps[..index], original, warnings, portable, r)
    {
      assert steps[..index + 1][..index] == steps[..index];
      p := TakeStep(p, original, steps[index], index, portable, r);
    }
    assert steps[..|steps|] == steps;
  }

  method AdoptWarnings(warnings: seq<string>, children: seq<Conversion>, r: Rules) returns (all: seq<string>)
    ensures all == AdoptAll(warnings, children, r)
  {
    all := warnings;
    assert children[..0] == [];
    for index := 0 to |children|
      invariant all == AdoptAll(warnings, children[..index], r)
    {
      assert children[..index + 1][..index] == children[..index];
      var child := children[index];
      var identifier := if child.trajectory.id.Some? then child.trajectory.id.value else r.subagent(index);
      ghost var before := all;
      assert child.warnings[..0] == [];
      for k := 0 to |child.warnings|
        invariant all == Adopt(before, identifier, child.warnings[..k])
      {
        assert child.warnings[..k + 1][..k] == child.warnings[..k];
        var qualified := identifier + ": " + child.warnings[k];
        if qualified !in all {
          all := all + [qualified];
        }
      }
      assert child.warnings[..|child.warnings|] == child.warnings;
    }
    assert children[..|children|] == children;
  }

  method AssembleConversion(c: Conversion, children: seq<Conversion>, r: Rules) returns (f: Conversion)
    ensures f == Assemble(c, children, r)
  {
    var warnings := AdoptWarnings(c.warnings, children, r);
    var p := FinalizeSteps(c.trajectory.steps, c.metas, warnings, !r.orderOnly(c.semantics), r);
    var t := c.trajectory.(id := IdOf(c.trajectory), steps := p.steps,
                           children := if children == [] then c.trajectory.children else Trajectories(children),
                           totals := Some(Aggregate(p.steps, r)),
                           extra := RootExtra(c.trajectory.extra, c.semantics, p.stamped));
    f := Conversion(t, p.metas, p.warnings, c.semantics, children);
  }

  lemma OneMoreFinalized(done: seq<Conversion>, child: Conversion, from: seq<Conversion>, r: Rules)
    requires |done| < |from| && AreFinalized(done, from[..|done|], r) && Finalized(from[|done|], r) == Some(child)
    ensures AreFinalized(done + [child], from[..|done| + 1], r)
  {
    var before, after, n := from[..|done|], from[..|done| + 1], |done|;
    forall i | 0 <= i < n + 1
      ensures Finalized(after[i], r) == Some((done + [child])[i])
    {
      if i < n {
        assert Finalized(before[i], r) == Some(done[i]) && after[i] == before[i];
      }
    }
  }

  method FinalizeChildren(from: seq<Conversion>, ghost parent: Conversion, r: Rules)
    returns (children: Option<seq<Conversion>>, ghost bad: nat)
    requires from == parent.children
    ensures children.Some? ==> AreFinalized(children.value, from, r)
    ensures children.None? ==> bad < |from| && Finalized(from[bad], r).None?
    decreases parent, 0
  {
    var done: seq<Conversion> := [];
    bad := 0;
    for i := 0 to |from|
      invariant |done| == i && AreFinalized(done, from[..i], r)
    {
      var child := FinalizeConversion(from[i], r);
      if child.None? {
        return None, i;
      }
      OneMoreFinalized(done, child.value, from, r);
      done := done + [child.value];
    }
    assert from[..|from|] == from;
    return Some(done), bad;
  }

  /** Children first, then the steps, then the totals, then the validator. */
  method FinalizeConversion(c: Conversion, r: Rules) returns (f: Option<Conversion>)
    ensures f == Finalized(c, r)
    decreases c, 1
  {
    ghost var expected := FinalizedChildren(c, r);
    var children;
    ghost var bad: nat;
    children, bad := FinalizeChildren(c.children, c, r);
    if children.None? {
      return None;
    }
    SameChildren(children.value, expected, c.children, r);
    var final := AssembleConversion(c, children.value, r);
    var valid := Validate(final.trajectory);
    return if valid then Some(final) else None;
  }

  /* ------------------------------------------------------------------ which conversions can be repaired */

  function FinalIds(children: seq<Conversion>): set<string> { set c | c in children && IdOf(c.trajectory).Some? :: IdOf(c.trajectory).value }

  predicate DistinctFinalIds(children: seq<Conversion>) {
    && (forall i | 0 <= i < |children| :: IdOf(children[i].trajectory).Some?)
    && (forall i, j | 0 <= i < j < |children| :: IdOf(children[i].trajectory) != IdOf(children[j].trajectory))
  }

  /** The ids that references may name after the repair. */
  function Embedded(c: Conversion): set<string> { if c.children == [] then ChildIds(c.trajectory.children) else FinalIds(c.children) }

  /** What the adapters owe: steps numbered from one that are repairable, at least one, and children that are
      repairable and have distinct ids. */
  predicate Repairable(c: Conversion) {
    && (forall child | child in c.children :: Repairable(child))
    && (if c.children == [] then DistinctIds(c.trajectory.children) && forall t | t in c.trajectory.children :: Valid(t)
        else DistinctFinalIds(c.children))
    && c.trajectory.steps != []
    && forall i | 0 <= i < |c.trajectory.steps| :: RepairableStep(c.trajectory.steps[i], i + 1, Embedded(c))
  }

  lemma {:induction false} PassesValid(steps: seq<Step>, original: seq<StepMeta>, warnings: seq<string>,
        portable: bool, r: Rules, i: nat,
                                       embedded: set<string>)
    requires i < |steps|
    ensures ValidStep(Passes(steps, original, warnings, portable, r).steps[i], i + 1, embedded) <==>
          RepairableStep(steps[i], i + 1, embedded)
  {
    var n := |steps| - 1;
    var before := Passes(steps[..n], original, warnings, portable, r);
    if i < n {
      PassesValid(steps[..n], original, warnings, portable, r, i, embedded);
    } else {
      FinalStepIsValid(steps[n], MetaFor(original, before.metas, steps[n], n), portable, r, n + 1, embedded);
    }
  }

  lemma FinalizedId(c: Conversion, r: Rules)
    requires Finalized(c, r).Some?
    ensures Finalized(c, r).value.trajectory.id == IdOf(c.trajectory) && Valid(Finalized(c, r).value.trajectory)
  {
  }

  lemma StepsRepaired(c: Conversion, children: seq<Conversion>, r: Rules, embedded: set<string>)
    requires Lawful(r)
    ensures var t := Assemble(c, children, r).trajectory;
      ValidSteps(t.steps, embedded) <==>
      c.trajectory.steps != [] && forall i | 0 <= i < |c.trajectory.steps| :: RepairableStep(c.trajectory.steps[i], i + 1, embedded)
    ensures var t := Assemble(c, children, r).trajectory;
      ValidSteps(t.steps, embedded) ==> ValidTotals(t.totals.value)
  {
    var warnings, portable := AdoptAll(c.warnings, children, r), !r.orderOnly(c.semantics);
    var p := Passes(c.trajectory.steps, c.metas, warnings, portable, r);
    forall i | 0 <= i < |c.trajectory.steps|
      ensures ValidStep(p.steps[i], i + 1, embedded) <==> RepairableStep(c.trajectory.steps[i], i + 1, embedded)
    {
      PassesValid(c.trajectory.steps, c.metas, warnings, portable, r, i, embedded);
    }
    if ValidSteps(p.steps, embedded) {
      assert MetricsValid(p.steps) by {
        forall i | 0 <= i < |p.steps| && p.steps[i].metrics.Some?
          ensures ValidMetrics(p.steps[i].metrics.value)
        {
          assert ValidStep(p.steps[i], i + 1, embedded);
        }
      }
      AggregateIsValid(p.steps, r);
    }
  }

  /** The ids and validity of finalized children. */
  ghost predicate Delivered(ts: seq<Trajectory>, from: seq<Conversion>) {
    |ts| == |from| && forall i | 0 <= i < |from| :: ts[i].id == IdOf(from[i].trajectory) && Valid(ts[i])
  }

  lemma ChildrenDelivered(children: seq<Conversion>, from: seq<Conversion>, r: Rules)
    requires AreFinalized(children, from, r)
    ensures Delivered(Trajectories(children), from)
  {
    forall i | 0 <= i < |from|
      ensures children[i].trajectory.id == IdOf(from[i].trajectory) && Valid(children[i].trajectory)
    {
      FinalizedId(from[i], r);
    }
  }

  lemma EmbeddedIds(ts: seq<Trajectory>, from: seq<Conversion>)
    requires Delivered(ts, from)
    ensures ChildIds(ts) == FinalIds(from) && (DistinctIds(ts) <==> DistinctFinalIds(from)) && forall t | t in ts :: Valid(t)
  {
  }

  lemma AssembledIsValid(c: Conversion, children: seq<Conversion>, r: Rules)
    requires Lawful(r) && |children| == |c.children| && Delivered(Trajectories(children), c.children)
    requires forall x | x in c.children :: Repairable(x)
    ensures Valid(Assemble(c, children, r).trajectory) <==> Repairable(c)
  {
    StepsRepaired(c, children, r, Embedded(c));
    if c.children != [] {
      EmbeddedIds(Trajectories(children), c.children);
    }
  }

  /** Finalization succeeds exactly on repairable conversions, and what it returns is valid. */
  lemma {:induction false} FinalizationSucceeds(c: Conversion, r: Rules)
    requires Lawful(r)
    ensures Finalized(c, r).Some? <==> Repairable(c)
    ensures Finalized(c, r).Some? ==> Valid(Finalized(c, r).value.trajectory)
    decreases c
  {
    forall x | x in c.children
      ensures Finalized(x, r).Some? <==> Repairable(x)
    {
      FinalizationSucceeds(x, r);
    }
    var children := FinalizedChildren(c, r);
    if forall i | 0 <= i < |c.children| :: Finalized(c.children[i], r).Some? {
      ChildrenDelivered(children, c.children, r);
      AssembledIsValid(c, children, r);
    } else {
      var i :| 0 <= i < |c.children| && Finalized(c.children[i], r).None?;
      assert c.children[i] in c.children;
    }
  }
}
