/** What a finalized conversion says, read off what was passed in: its totals, the facts of its steps, calls and
    results key by key, its metadata, and its warnings. */
module FinalizedFacts {
  import opened Atif
  import opened Finalize
  import opened FinalizeTwice

  /* ------------------------------------------------------------------ totals */

  /** The values that the steps report, in order. */
  function Values<T>(steps: seq<Step>, field: Metrics -> Option<T>): seq<T> {
    if steps == [] then []
    else
      var last := steps[|steps| - 1].metrics;
      var before := Values(steps[..|steps| - 1], field);
      if last.Some? && field(last.value).Some? then before + [field(last.value).value] else before
  }

  function PromptTokens(m: Metrics): Option<int> { m.prompt }

  function CompletionTokens(m: Metrics): Option<int> { m.completion }

  function CachedTokens(m: Metrics): Option<int> { m.cached }

  function Cost(m: Metrics): Option<real> { m.cost }

  function Sum(values: seq<int>): int { if values == [] then 0 else Sum(values[..|values| - 1]) + values[|values| - 1] }

  function SumOfCosts(values: seq<real>): real {
    if values == [] then 0.0 else SumOfCosts(values[..|values| - 1]) + values[|values| - 1]
  }

  function SumIfAny(values: seq<int>): Option<int> { if values == [] then None else Some(Sum(values)) }

  lemma {:induction false} TotalIsSum(steps: seq<Step>, a: Amount, field: Metrics -> Option<int>)
    requires forall m :: field(m) == AmountOf(m, a)
    ensures Total(steps, a) == SumIfAny(Values(steps, field))
  {
    if steps != [] {
      var init, last := steps[..|steps| - 1], steps[|steps| - 1].metrics;
      assert last.Some? ==> field(last.value) == AmountOf(last.value, a);
      TotalIsSum(init, a, field);
      if last.Some? && field(last.value).Some? {
        SumSnoc(Values(init, field), field(last.value).value);
      }
    }
  }

  lemma SumSnoc(values: seq<int>, x: int)
    ensures Sum(values + [x]) == Sum(values) + x
  {
    assert (values + [x])[..|values|] == values;
  }

  lemma {:induction false} CostIsSum(steps: seq<Step>)
    ensures var costs := Values(steps, Cost);
      TotalCost(steps) == if costs == [] then None else Some(SumOfCosts(costs))
  {
    if steps != [] {
      var init, last := steps[..|steps| - 1], steps[|steps| - 1].metrics;
      CostIsSum(init);
      if last.Some? && last.value.cost.Some? {
        assert Values(steps, Cost)[..|Values(init, Cost)|] == Values(init, Cost);
      }
    }
  }

  /** Each total is the sum of what the steps report of its own field, absent when none does, and the cost is
      rounded once, behind the sum. */
  lemma TotalsAreSums(steps: seq<Step>, r: Rules)
    ensures var t := Aggregate(steps, r);
      var costs := Values(steps, Cost);
      && t.prompt == SumIfAny(Values(steps, PromptTokens))
      && t.completion == SumIfAny(Values(steps, CompletionTokens))
      && t.cached == SumIfAny(Values(steps, CachedTokens))
      && t.cost == (if costs == [] then None else Some(r.round(SumOfCosts(costs))))
      && t.steps == |steps|
  {
    TotalIsSum(steps, Prompt, PromptTokens);
    TotalIsSum(steps, Completion, CompletionTokens);
    TotalIsSum(steps, Cached, CachedTokens);
    CostIsSum(steps);
  }

  lemma {:induction false} TotalSplits(a: seq<Step>, b: seq<Step>, x: Amount)
    ensures Total(a + b, x) == Plus(Total(a, x), Total(b, x))
  {
    if b == [] {
      assert a + b == a;
    } else {
      TotalSplits(a, b[..|b| - 1], x);
      assert (a + b)[..|a + b| - 1] == a + b[..|b| - 1];
    }
  }

  lemma {:induction false} CostSplits(a: seq<Step>, b: seq<Step>)
    ensures TotalCost(a + b) ==
      if TotalCost(a).None? then TotalCost(b)
      else if TotalCost(b).None? then TotalCost(a) else Some(TotalCost(a).value + TotalCost(b).value)
  {
    if b == [] {
      assert a + b == a;
    } else {
      CostSplits(a, b[..|b| - 1]);
      assert (a + b)[..|a + b| - 1] == a + b[..|b| - 1];
    }
  }

  /** The totals of a single step are its own metrics. */
  lemma TotalsOfOne(s: Step, r: Rules)
    requires s.metrics.Some?
    ensures Aggregate([s], r) ==
      Totals(s.metrics.value.prompt, s.metrics.value.completion, s.metrics.value.cached,
             if s.metrics.value.cost.Some? then Some(r.round(s.metrics.value.cost.value)) else None, 1)
  {
    assert [s][..0] == [];
    forall a
      ensures Total([s], a) == AmountOf(s.metrics.value, a)
    {
      assert Total([s][..0], a).None?;
    }
    assert TotalCost([s][..0]).None?;
  }

  /* ------------------------------------------------------------------ facts, key by key */

  /** The facts hold a key, with its value, under a condition. */
  predicate Gives(facts: Extra, key: string, sets: bool, value: Json) { (key in facts <==> sets) && (sets ==> Get(facts, key) == value) }

  function AtLeastZero(n: Option<int>): Json { if n.Some? && n.value > 0 then Number(n.value as real) else Number(0.0) }

  function TextOf(text: Option<string>): Json { if text.Some? then Str(text.value) else Null }

  function TimeOf(time: Option<int>, r: Rules): Json { if time.Some? then Str(r.iso(time.value)) else Null }

  predicate HasText(text: Option<string>) { text.Some? && text.value != "" }

  /** A measured duration: one that is known, and not an estimate. */
  predicate Measured(m: StepMeta, r: Rules) {
    m.duration.Some? && (m.durationSource.Some? ==> !r.estimate(m.durationSource.value))
  }

  predicate StepSays(facts: Extra, m: StepMeta, r: Rules) {
    && Gives(facts, "duration_ms", Measured(m, r), AtLeastZero(m.duration))
    && Gives(facts, "duration_source", Measured(m, r) && HasText(m.durationSource), TextOf(m.durationSource))
    && Gives(facts, "truncated", m.truncated, Bool(true))
    && facts.Keys <= {"duration_ms", "duration_source", "truncated"}
  }

  predicate CallSays(facts: Extra, m: ToolMeta, portable: bool, r: Rules) {
    && Gives(facts, "started_at", m.started.Some? && portable, TimeOf(m.started, r))
    && Gives(facts, "generation_duration_ms", m.generation.Some?, AtLeastZero(m.generation))
    && Gives(facts, "arguments_truncated", m.truncated, Bool(true))
    && facts.Keys <= {"started_at", "generation_duration_ms", "arguments_truncated"}
  }

  predicate OwnSays(facts: Extra, m: ObservationMeta, portable: bool, r: Rules) {
    && Gives(facts, "status", m.status.Some?, TextOf(m.status))
    && Gives(facts, "is_error", true, Bool(m.isError))
    && Gives(facts, "finished_at", m.finished.Some? && portable, TimeOf(m.finished, r))
    && Gives(facts, "truncated", m.truncated, Bool(true))
  }

  predicate ExecutionSays(facts: Extra, tool: Option<ToolMeta>) {
    var execution := if tool.Some? then tool.value.execution else None;
    && Gives(facts, "execution_duration_ms", execution.Some?, AtLeastZero(execution))
    && Gives(facts, "execution_duration_source", execution.Some? && HasText(tool.value.executionSource),
             if tool.Some? then TextOf(tool.value.executionSource) else Null)
  }

  const OWN_KEYS := {"status", "is_error", "finished_at", "truncated"}
  const EXECUTION_KEYS := {"execution_duration_ms", "execution_duration_source"}

  lemma StepFactsSay(m: StepMeta, r: Rules)
    ensures StepSays(DurationFacts(m, r), m, r)
  {
  }

  lemma CallFactsSay(m: ToolMeta, portable: bool, r: Rules)
    ensures CallSays(ToolFacts(m, portable, r), m, portable, r)
  {
  }

  lemma OwnFactsSay(m: ObservationMeta, portable: bool, r: Rules)
    ensures OwnSays(OwnFacts(m, portable, r), m, portable, r) && OwnFacts(m, portable, r).Keys <= OWN_KEYS
  {
  }

  lemma ExecutionFactsSay(tool: Option<ToolMeta>)
    ensures ExecutionSays(ExecutionFacts(tool), tool) && ExecutionFacts(tool).Keys <= EXECUTION_KEYS
  {
  }

  lemma ApartFromEachOther(a: Extra, b: Extra, key: string, sets: bool, value: Json)
    requires key !in b.Keys
    ensures Gives(a + b, key, sets, value) <==> Gives(a, key, sets, value)
    ensures Gives(b + a, key, sets, value) <==> Gives(a, key, sets, value)
  {
  }

  /** The facts of one result: its own, and the execution of the tool that its metadata name. */
  lemma ResultFactsSay(m: StepMeta, k: nat, portable: bool, r: Rules)
    requires k < |m.observations|
    ensures var facts, tool := ResultFacts(m, k, portable, r), ToolOf(m.tools, OrEmpty(m.observations[k].source));
      OwnSays(facts, m.observations[k], portable, r) && ExecutionSays(facts, tool) && facts.Keys <= OWN_KEYS + EXECUTION_KEYS
  {
    var x, tool := m.observations[k], ToolOf(m.tools, OrEmpty(m.observations[k].source));
    var own, execution := OwnFacts(x, portable, r), ExecutionFacts(tool);
    OwnFactsSay(x, portable, r);
    ExecutionFactsSay(tool);
    KeysApart();
    forall key, sets, value | key in OWN_KEYS
      ensures Gives(own + execution, key, sets, value) <==> Gives(own, key, sets, value)
    {
      ApartFromEachOther(own, execution, key, sets, value);
    }
    forall key, sets, value | key in EXECUTION_KEYS
      ensures Gives(own + execution, key, sets, value) <==> Gives(execution, key, sets, value)
    {
      ApartFromEachOther(execution, own, key, sets, value);
    }
  }

  lemma KeysApart()
    ensures OWN_KEYS !! EXECUTION_KEYS
  {
    assert forall key | key in EXECUTION_KEYS :: |key| > 11 && key[1] == 'x';
  }

  /** A tool is found by its id, the last one if there are several. */
  lemma {:induction false} LastToolOf(tools: seq<ToolMeta>, id: string) returns (k: nat)
    ensures ToolOf(tools, id).Some? ==> k < |tools| && tools[k] == ToolOf(tools, id).value && tools[k].id == id
    ensures ToolOf(tools, id).Some? ==> forall j | k < j < |tools| :: tools[j].id != id
    ensures ToolOf(tools, id).None? ==> forall j | 0 <= j < |tools| :: tools[j].id != id
  {
    if tools == [] || tools[|tools| - 1].id == id {
      k := if tools == [] then 0 else |tools| - 1;
    } else {
      k := LastToolOf(tools[..|tools| - 1], id);
    }
  }

  /** Metadata are found by the number of their step, the last if there are several, and otherwise by position. */
  lemma {:induction false} MetadataOf(metas: seq<StepMeta>, i: nat)
    ensures SecondMeta(metas, i).None? <==> i >= |metas| && forall j | 0 <= j < |metas| :: metas[j].id != i + 1
    ensures (exists j :: 0 <= j < |metas| && metas[j].id == i + 1) ==>
      exists k :: 0 <= k < |metas| && SecondMeta(metas, i) == Some(metas[k]) && metas[k].id == i + 1 &&
                  (forall j | k < j < |metas| :: metas[j].id != i + 1)
    ensures (forall j | 0 <= j < |metas| :: metas[j].id != i + 1) && i < |metas| ==> SecondMeta(metas, i) == Some(metas[i])
  {
    LastMetadata(metas, i + 1);
  }

  lemma {:induction false} LastMetadata(metas: seq<StepMeta>, id: int)
    ensures MetaIndex(metas, id).None? <==> forall j | 0 <= j < |metas| :: metas[j].id != id
    ensures MetaIndex(metas, id).Some? ==> forall j | MetaIndex(metas, id).value < j < |metas| :: metas[j].id != id
  {
    if metas != [] && metas[|metas| - 1].id != id {
      LastMetadata(metas[..|metas| - 1], id);
    }
  }

  /* ------------------------------------------------------------------ steps */

  /** The last tool with the id of the call adds its facts. */
  predicate CallReads(call: ToolCall, f: ToolCall, m: Option<StepMeta>, portable: bool, r: Rules) {
    var tool := if m.Some? then ToolOf(m.value.tools, call.id) else None;
    f == call.(extra := call.extra + if tool.Some? then ToolFacts(tool.value, portable, r) else map[])
  }

  /** A result keeps its references, its content becomes a text if it is no content, and its call is set aside
      if the step has no such call. */
  predicate ResultReads(x: Result, f: Result, k: nat, calls: seq<ToolCall>, m: Option<StepMeta>, portable: bool, r: Rules) {
    var facts := if m.Some? then ResultFacts(m.value, k, portable, r) else map[];
    var stray := x.source.Some? && forall c | c in calls :: c.id != x.source.value;
    && f.refs == x.refs
    && f.content == (if x.content.Some? && !IsContent(x.content.value) then Some(Str(r.json(x.content.value))) else x.content)
    && f.source == (if stray then None else x.source)
    && f.extra == if stray then (x.extra + facts)["unmatched_source_call_id" := Str(x.source.value)] else x.extra + facts
  }

  /** What a finalized step is, apart from what its metadata add: itself, with the time of its metadata if times
      are portable, and a count of model calls. */
  predicate StepReads(s: Step, f: Step, m: Option<StepMeta>, portable: bool, r: Rules) {
    && f == s.(timestamp := f.timestamp, extra := f.extra, calls := f.calls, observation := f.observation, llmCalls := f.llmCalls)
    && f.timestamp == (if m.Some? && m.value.timestamp.Some? && portable then m.value.timestamp else s.timestamp)
    && f.extra == s.extra + (if m.Some? then DurationFacts(m.value, r) else map[])
    && f.llmCalls == (if !s.source.Agent? || s.llmCalls.Some? then s.llmCalls
                      else if s.observation.Some? && s.calls == [] then Some(0) else Some(1))
    && |f.calls| == |s.calls| && (forall i | 0 <= i < |s.calls| :: CallReads(s.calls[i], f.calls[i], m, portable, r))
    && (f.observation.Some? <==> s.observation.Some?) && |Results(f)| == |Results(s)|
    && forall k | 0 <= k < |Results(s)| :: ResultReads(Results(s)[k], Results(f)[k], k, s.calls, m, portable, r)
  }

  lemma ResultReadsAt(s: Step, m: Option<StepMeta>, k: nat, portable: bool, r: Rules)
    requires k < |Results(s)|
    ensures |Results(FinalStep(s, m, portable, r))| == |Results(s)|
    ensures ResultReads(Results(s)[k], Results(FinalStep(s, m, portable, r))[k], k, s.calls, m, portable, r)
  {
    FinalSource(s, m, k, portable, r);
    if m.Some? {
      ProjectedCallIds(s, m.value, portable, r);
      FinalExtra(s, m.value, k, portable, r);
    }
    StrayExactly(Results(s)[k], s.calls);
  }

  lemma StrayExactly(x: Result, calls: seq<ToolCall>)
    ensures Unmatched(x, CallIds(calls)) <==> x.source.Some? && forall c | c in calls :: c.id != x.source.value
  {
  }

  lemma FinalStepReads(s: Step, m: Option<StepMeta>, portable: bool, r: Rules)
    ensures StepReads(s, FinalStep(s, m, portable, r), m, portable, r)
  {
    var f := FinalStep(s, m, portable, r);
    var projected := if m.Some? then ProjectStep(s, m.value, portable, r) else s;
    assert f == projected.(llmCalls := f.llmCalls, observation := f.observation);
    forall i | 0 <= i < |s.calls|
      ensures i < |f.calls| && CallReads(s.calls[i], f.calls[i], m, portable, r)
    {
      assert f.calls == projected.calls;
    }
    forall k | 0 <= k < |Results(s)|
      ensures k < |Results(f)| && ResultReads(Results(s)[k], Results(f)[k], k, s.calls, m, portable, r)
    {
      ResultReadsAt(s, m, k, portable, r);
    }
    NumberOfResults(s, m, portable, r);
  }

  /** Metadata that a step found by its number take over the calls of its results; nothing else changes. */
  predicate MetaReads(metas: seq<StepMeta>, left: seq<StepMeta>, steps: seq<Step>, j: nat)
    requires j < |metas| == |left|
  {
    var n := metas[j].id - 1;
    var follows := 0 <= n < |steps| && forall i | j < i < |metas| :: metas[i].id != metas[j].id;
    && left[j] == metas[j].(observations := left[j].observations) && |left[j].observations| == |metas[j].observations|
    && forall k | 0 <= k < |metas[j].observations| ::
         left[j].observations[k] ==
           if follows && k < |Results(steps[n])| then metas[j].observations[k].(source := Results(steps[n])[k].source)
           else metas[j].observations[k]
  }

  lemma AlignedReads(metas: seq<StepMeta>, left: seq<StepMeta>, steps: seq<Step>, j: nat)
    requires j < |metas| == |left| && left[j] == AlignedMeta(metas, steps, j)
    ensures MetaReads(metas, left, steps, j)
  {
    LastMetadata(metas, metas[j].id);
    assert MetaIndex(metas, metas[j].id) == Some(j) <==> forall i | j < i < |metas| :: metas[i].id != metas[j].id;
  }

  /* ------------------------------------------------------------------ a whole conversion */

  predicate HasTime(metas: seq<StepMeta>, i: nat) { SecondMeta(metas, i).Some? && SecondMeta(metas, i).value.timestamp.Some? }

  /** A step has a time in its metadata. */
  predicate AnyTime(metas: seq<StepMeta>, n: nat) { exists i | 0 <= i < n :: HasTime(metas, i) }

  lemma {:induction false} StampedExactly(metas: seq<StepMeta>, n: nat, portable: bool)
    ensures Stamped(metas, n, portable) <==> portable && AnyTime(metas, n)
  {
    if n > 0 {
      StampedExactly(metas, n - 1, portable);
      assert HasTime(metas, n - 1) ==> AnyTime(metas, n);
    }
  }

  /** All steps and all metadata, before and after. */
  predicate AllRead(steps: seq<Step>, metas: seq<StepMeta>, done: seq<Step>, left: seq<StepMeta>, portable: bool, r: Rules) {
    && |done| == |steps| && (forall i | 0 <= i < |steps| :: StepReads(steps[i], done[i], SecondMeta(metas, i), portable, r))
    && |left| == |metas| && (forall j | 0 <= j < |metas| :: MetaReads(metas, left, done, j))
  }

  lemma PassesRead(steps: seq<Step>, metas: seq<StepMeta>, warnings: seq<string>, portable: bool, r: Rules)
    requires forall i | 0 <= i < |steps| :: steps[i].id == i + 1
    ensures var p := Passes(steps, metas, warnings, portable, r);
      AllRead(steps, metas, p.steps, p.metas, portable, r) && (p.stamped <==> portable && AnyTime(metas, |steps|))
  {
    var p := Passes(steps, metas, warnings, portable, r);
    PassesTrace(steps, metas, warnings, portable, r);
    PassesStamp(steps, metas, warnings, portable, r);
    StampedExactly(metas, |steps|, portable);
    forall i | 0 <= i < |steps|
      ensures StepReads(steps[i], p.steps[i], SecondMeta(metas, i), portable, r)
    {
      FinalStepReads(steps[i], SecondMeta(metas, i), portable, r);
    }
    forall j | 0 <= j < |metas|
      ensures MetaReads(metas, p.metas, p.steps, j)
    {
      AlignedReads(metas, p.metas, p.steps, j);
    }
  }

  /** The parts of what finalization returns, against what it was given. */
  ghost predicate Reads(c: Conversion, f: Conversion, r: Rules) {
    var portable, t, g := !r.orderOnly(c.semantics), c.trajectory, f.trajectory;
    && g.sessionId == t.sessionId && g.agent == t.agent && f.semantics == c.semantics
    && g.id == (if t.id.None? && t.sessionId.Some? &&
          t.sessionId.value != "" then Some(t.agent.name + ":" + t.sessionId.value) else t.id)
    && AllRead(t.steps, c.metas, g.steps, f.metas, portable, r)
    && g.extra == (if c.semantics != "" then t.extra["timestamp_semantics" := Str(c.semantics)]
                   else if portable && AnyTime(c.metas, |t.steps|) then t.extra["timestamp_semantics" := Str("utc_epoch_milliseconds")]
                   else t.extra)
    && AreFinalized(f.children, c.children, r)
    && g.children == if c.children == [] then t.children else Trajectories(f.children)
  }

  lemma AssembledReads(c: Conversion, children: seq<Conversion>, r: Rules)
    requires AreFinalized(children, c.children, r) && forall i | 0 <= i < |c.trajectory.steps| ::
          c.trajectory.steps[i].id == i + 1
    ensures Reads(c, Assemble(c, children, r), r)
  {
    PassesRead(c.trajectory.steps, c.metas, AdoptAll(c.warnings, children, r), !r.orderOnly(c.semantics), r);
  }

  /** What finalization returns: its parts as above, at every depth because the children are finalized
      themselves, and totals that are the sums of its own steps. */
  lemma FinalizedReads(c: Conversion, r: Rules)
    requires Finalized(c, r).Some?
    ensures var f := Finalized(c, r).value;
      var steps := f.trajectory.steps;
      var costs := Values(steps, Cost);
      && Reads(c, f, r)
      && f.trajectory.totals == Some(Totals(
           SumIfAny(Values(steps, PromptTokens)), SumIfAny(Values(steps, CompletionTokens)), SumIfAny(Values(steps, CachedTokens)),
           if costs == [] then None else Some(r.round(SumOfCosts(costs))), |steps|))
  {
    var children := FinalizedParts(c, r);
    NumberedSteps(c, children, r);
    AssembledReads(c, children, r);
    TotalsAreSums(Assemble(c, children, r).trajectory.steps, r);
  }

  /* ------------------------------------------------------------------ warnings */

  /** A warning of a child, under its id. */
  ghost predicate Adopted(w: string, children: seq<Conversion>, r: Rules) {
    exists i, k | 0 <= i < |children| && 0 <= k < |children[i].warnings| :: w == Qualified(children, i, k, r)
  }

  function Qualified(children: seq<Conversion>, i: nat, k: nat, r: Rules): string
    requires i < |children| && k < |children[i].warnings|
  {
    NameOf(children, i, r) + ": " + children[i].warnings[k]
  }

  /** A result whose call is not in its step. */
  predicate Stray(steps: seq<Step>, i: nat, k: nat) {
    i < |steps| && k < |Results(steps[i])| && Unmatched(Results(steps[i])[k], CallIds(steps[i].calls))
  }

  /** A warning about such a result. */
  ghost predicate Reported(w: string, steps: seq<Step>, r: Rules) {
    exists i: nat, k: nat :: Stray(steps, i, k) && w == r.unmatched(i, k, Results(steps[i])[k].source.value)
  }

  lemma {:induction false} AdoptAdds(warnings: seq<string>, identifier: string, from: seq<string>)
    ensures var all := Adopt(warnings, identifier, from);
      warnings <= all && forall n | |warnings| <= n < |all| :: exists k | 0 <= k < |from| :: all[n] == identifier + ": " + from[k]
    ensures Distinct(warnings) ==> Distinct(Adopt(warnings, identifier, from))
  {
    if from != [] {
      var init := from[..|from| - 1];
      AdoptAdds(warnings, identifier, init);
      var before, all := Adopt(warnings, identifier, init), Adopt(warnings, identifier, from);
      forall n | |warnings| <= n < |all|
        ensures exists k | 0 <= k < |from| :: all[n] == identifier + ": " + from[k]
      {
        if n < |before| {
          var k :| 0 <= k < |init| && before[n] == identifier + ": " + init[k];
          assert from[k] == init[k];
        } else {
          assert all[n] == identifier + ": " + from[|init|];
        }
      }
    }
  }

  predicate Distinct(warnings: seq<string>) { forall i, j | 0 <= i < j < |warnings| :: warnings[i] != warnings[j] }

  lemma AdoptedMore(w: string, children: seq<Conversion>, r: Rules)
    requires children != [] && Adopted(w, children[..|children| - 1], r)
    ensures Adopted(w, children, r)
  {
    var init := children[..|children| - 1];
    var i, k :| 0 <= i < |init| && 0 <= k < |init[i].warnings| && w == Qualified(init, i, k, r);
    assert w == Qualified(children, i, k, r);
  }

  lemma {:induction false} AdoptAllAdds(warnings: seq<string>, children: seq<Conversion>, r: Rules)
    ensures var all := AdoptAll(warnings, children, r);
      warnings <= all && forall n | |warnings| <= n < |all| :: Adopted(all[n], children, r)
    ensures Distinct(warnings) ==> Distinct(AdoptAll(warnings, children, r))
  {
    if children != [] {
      var last := |children| - 1;
      var before, all := AdoptAll(warnings, children[..last], r), AdoptAll(warnings, children, r);
      AdoptAllAdds(warnings, children[..last], r);
      AdoptAdds(before, NameOf(children, last, r), children[last].warnings);
      forall n | |warnings| <= n < |all|
        ensures Adopted(all[n], children, r)
      {
        if n < |before| {
          assert all[n] == before[n];
          AdoptedMore(all[n], children, r);
        } else {
          var k :| 0 <= k < |children[last].warnings| && all[n] == NameOf(children, last, r) + ": " + children[last].warnings[k];
          assert all[n] == Qualified(children, last, k, r);
        }
      }
    }
  }

  lemma MentionedMore(warnings: seq<string>, more: seq<string>, id: string)
    requires warnings <= more && Mentioned(warnings, id)
    ensures Mentioned(more, id)
  {
    var i :| 0 <= i < |warnings| && Contains(warnings[i], id);
    assert more[i] == warnings[i];
  }

  /** A warning about a result names its call. */
  ghost predicate Naming(r: Rules) { forall i: nat, k: nat, id :: Contains(r.unmatched(i, k, id), id) }

  /** A warning about this result. */
  predicate Tells(w: string, results: seq<Result>, calls: set<string>, step: nat, k: nat, r: Rules)
    requires k < |results|
  {
    Unmatched(results[k], calls) && w == r.unmatched(step, k, results[k].source.value)
  }

  predicate Told(w: string, results: seq<Result>, calls: set<string>, step: nat, n: nat, r: Rules)
    requires n <= |results|
  {
    exists k | 0 <= k < n :: Tells(w, results, calls, step, k, r)
  }

  lemma {:induction false} ResultsWarn(results: seq<Result>, calls: set<string>, warnings: seq<string>, step: nat,
        n: nat, r: Rules)
    requires n <= |results|
    ensures var all := ResultWarnings(results, calls, warnings, step, n, r);
      && warnings <= all
      && (forall j | |warnings| <= j < |all| :: Told(all[j], results, calls, step, n, r))
      && (Naming(r) ==> forall k | 0 <= k < n && Unmatched(results[k], calls) :: Mentioned(all, results[k].source.value))
  {
    if n > 0 {
      ResultsWarn(results, calls, warnings, step, n - 1, r);
      var before, all := ResultWarnings(results, calls, warnings, step, n - 1, r), ResultWarnings(results, calls, warnings, step, n, r);
      forall j | |warnings| <= j < |all|
        ensures Told(all[j], results, calls, step, n, r)
      {
        if j < |before| {
          assert Told(before[j], results, calls, step, n - 1, r);
          var k :| 0 <= k < n - 1 && Tells(before[j], results, calls, step, k, r);
          assert Tells(all[j], results, calls, step, k, r);
        } else {
          assert Tells(all[j], results, calls, step, n - 1, r);
        }
      }
      if Naming(r) {
        forall k | 0 <= k < n && Unmatched(results[k], calls)
          ensures Mentioned(all, results[k].source.value)
        {
          if k < n - 1 {
            MentionedMore(before, all, results[k].source.value);
          } else if !Mentioned(before, results[k].source.value) {
            assert Contains(all[|before|], results[k].source.value);
          }
        }
      }
    }
  }

  ghost predicate AllReported(warnings: seq<string>, all: seq<string>, steps: seq<Step>, r: Rules) {
    warnings <= all && forall n | |warnings| <= n < |all| :: Reported(all[n], steps, r)
  }

  ghost predicate StraysMentioned(all: seq<string>, steps: seq<Step>) {
    forall i: nat, k: nat :: Stray(steps, i, k) ==> Mentioned(all, Results(steps[i])[k].source.value)
  }

  lemma StepWarns(s: Step, m: Option<StepMeta>, warnings: seq<string>, i: nat, steps: seq<Step>, portable: bool, r: Rules)
    requires i < |steps| && steps[i] == s
    ensures var all := StepWarnings(if m.Some? then ProjectStep(s, m.value, portable, r) else s, warnings, i, r);
      && AllReported(warnings, all, steps, r)
      && (Naming(r) ==> forall k: nat :: Stray(steps, i, k) ==> Mentioned(all, Results(s)[k].source.value))
  {
    var projected := if m.Some? then ProjectStep(s, m.value, portable, r) else s;
    var all := StepWarnings(projected, warnings, i, r);
    if m.Some? {
      ProjectedCallIds(s, m.value, portable, r);
    }
    if s.observation.Some? {
      var results, calls := Results(projected), CallIds(projected.calls);
      ResultsWarn(results, calls, warnings, i, |results|, r);
      assert forall k | 0 <= k < |results| :: results[k].source == Results(s)[k].source;
      forall n | |warnings| <= n < |all|
        ensures Reported(all[n], steps, r)
      {
        assert Told(all[n], results, calls, i, |results|, r);
        var k :| 0 <= k < |results| && Tells(all[n], results, calls, i, k, r);
        assert Stray(steps, i, k);
      }
      forall k: nat | Naming(r) && Stray(steps, i, k)
        ensures Mentioned(all, Results(s)[k].source.value)
      {
        assert Unmatched(results[k], calls);
      }
    }
  }

  lemma ReportedMore(w: string, init: seq<Step>, steps: seq<Step>, r: Rules)
    requires init <= steps && Reported(w, init, r)
    ensures Reported(w, steps, r)
  {
    var i: nat, k: nat :| Stray(init, i, k) && w == r.unmatched(i, k, Results(init[i])[k].source.value);
    assert Stray(steps, i, k);
  }

  lemma {:induction false} PassesWarn(steps: seq<Step>, metas: seq<StepMeta>, warnings: seq<string>, portable: bool, r: Rules)
    ensures var all := Passes(steps, metas, warnings, portable, r).warnings;
      AllReported(warnings, all, steps, r) && (Naming(r) ==> StraysMentioned(all, steps))
  {
    if steps != [] {
      var n := |steps| - 1;
      var init := steps[..n];
      var p := Passes(init, metas, warnings, portable, r);
      PassesWarn(init, metas, warnings, portable, r);
      StepWarns(steps[n], MetaFor(metas, p.metas, steps[n], n), p.warnings, n, steps, portable, r);
      JoinWarnings(warnings, p.warnings, Passes(steps, metas, warnings, portable, r).warnings, steps, n, r);
    }
  }

  lemma JoinWarnings(warnings: seq<string>, before: seq<string>, all: seq<string>, steps: seq<Step>, last: nat, r: Rules)
    requires |steps| == last + 1 && AllReported(warnings, before, steps[..last], r) && AllReported(before, all, steps, r)
    requires Naming(r) ==> StraysMentioned(before, steps[..last])
    requires Naming(r) ==> forall k: nat :: Stray(steps, last, k) ==> Mentioned(all, Results(steps[last])[k].source.value)
    ensures AllReported(warnings, all, steps, r) && (Naming(r) ==> StraysMentioned(all, steps))
  {
    var init := steps[..last];
    forall n | |warnings| <= n < |all|
      ensures Reported(all[n], steps, r)
    {
      if n < |before| {
        assert all[n] == before[n];
        ReportedMore(all[n], init, steps, r);
      }
    }
    forall i: nat, k: nat | Naming(r) && Stray(steps, i, k)
      ensures Mentioned(all, Results(steps[i])[k].source.value)
    {
      if i < |init| {
        assert Stray(init, i, k);
        MentionedMore(before, all, Results(steps[i])[k].source.value);
      }
    }
  }

  /** The warnings behind those that were passed in are exactly the warnings of the children under their ids,
      each once, and then warnings about results whose call is not in their step; every warning of a child is
      there, and the id of every such result is mentioned. */
  lemma WarningsTell(c: Conversion, r: Rules)
    requires Finalized(c, r).Some?
    ensures var f := Finalized(c, r).value;
      && c.warnings <= f.warnings && HoldsAll(f.warnings, f.children, r)
      && (forall n | |c.warnings| <= n < |f.warnings| ::
            Adopted(f.warnings[n], f.children, r) || Reported(f.warnings[n], c.trajectory.steps, r))
      && (Naming(r) ==> StraysMentioned(f.warnings, c.trajectory.steps))
    ensures Distinct(c.warnings) ==> Distinct(AdoptAll(c.warnings, Finalized(c, r).value.children, r))
  {
    var children := FinalizedParts(c, r);
    var f, portable := Assemble(c, children, r), !r.orderOnly(c.semantics);
    var adopted := AdoptAll(c.warnings, children, r);
    AssembledWarnings(c, children, r);
    AdoptAllAdds(c.warnings, children, r);
    PassesWarn(c.trajectory.steps, c.metas, adopted, portable, r);
    assert f.warnings == Passes(c.trajectory.steps, c.metas, adopted, portable, r).warnings;
    forall n | |c.warnings| <= n < |f.warnings|
      ensures Adopted(f.warnings[n], children, r) || Reported(f.warnings[n], c.trajectory.steps, r)
    {
      if n < |adopted| {
        assert f.warnings[n] == adopted[n];
      }
    }
  }
}
