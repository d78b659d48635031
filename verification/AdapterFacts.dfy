/** What the shared adapter makes of each record, after all records were taken: the steps and results say what
    their records said, and metadata tell the same. */
module AdapterFacts {
  import opened Atif
  import opened Finalize
  import opened MessageAdapter

  /* ------------------------------------------------------------------ what never changes once it is made */

  /** Results may have been attached, and nothing else was changed. */
  predicate SameButResults(before: Step, after: Step) { after == before.(observation := after.observation) }

  predicate SameButFacts(before: StepMeta, after: StepMeta) {
    && after == before.(observations := after.observations, toolError := after.toolError, truncated := after.truncated, tools := after.tools)
    && |after.tools| == |before.tools|
    && (forall t | 0 <= t < |before.tools| :: SameButTimes(before.tools[t], after.tools[t]))
    && before.observations <= after.observations
    && (after.truncated <==> before.truncated || AnyTruncated(after.observations[|before.observations|..]))
  }

  predicate AnyTruncated(observations: seq<ObservationMeta>) { exists k | 0 <= k < |observations| :: observations[k].truncated }

  lemma AnyTruncatedSplits(a: seq<ObservationMeta>, b: seq<ObservationMeta>)
    ensures AnyTruncated(a + b) <==> AnyTruncated(a) || AnyTruncated(b)
  {
    if AnyTruncated(a) {
      var k :| 0 <= k < |a| && a[k].truncated;
      assert (a + b)[k].truncated;
    }
    if AnyTruncated(b) {
      var k :| 0 <= k < |b| && b[k].truncated;
      assert (a + b)[|a| + k].truncated;
    }
  }

  predicate SameButTimes(before: ToolMeta, after: ToolMeta) {
    after == before.(started := after.started, execution := after.execution, executionSource := after.executionSource)
  }

  ghost predicate Kept(before: State, after: State) {
    && |before.steps| == |before.metas| <= |after.steps| == |after.metas|
    && (forall k | 0 <= k < |before.steps| :: SameButResults(before.steps[k], after.steps[k]))
    && (forall k | 0 <= k < |before.metas| :: SameButFacts(before.metas[k], after.metas[k]))
  }

  lemma KeptItself(st: State)
    requires Slotted(st)
    ensures Kept(st, st)
  {
  }

  lemma TakeKeeps(st: State, rec: Record, build: Builder, cfg: Config)
    requires Slotted(st)
    ensures Kept(st, TakeRecord(st, rec, build, cfg))
  {
    KeptItself(st);
    if IsAttached(st, rec) {
      AttachKeeps(st.metas[st.pending[rec.callId].step], st.pending[rec.callId].tool, rec, cfg);
    }
  }

  lemma AttachKeeps(m: StepMeta, tool: nat, rec: Record, cfg: Config)
    requires rec.ToolResult? && tool < |m.tools|
    ensures SameButFacts(m, AttachMeta(m, tool, rec, cfg))
  {
    var n := AttachMeta(m, tool, rec, cfg);
    var added := n.observations[|m.observations|..];
    assert added == [ObservationMetaOf(rec, cfg)];
    assert AnyTruncated(added) <==> added[0].truncated;
  }

  lemma SameFactsTwice(a: StepMeta, b: StepMeta, c: StepMeta)
    requires SameButFacts(a, b) && SameButFacts(b, c)
    ensures SameButFacts(a, c)
  {
    forall t | 0 <= t < |a.tools|
      ensures SameButTimes(a.tools[t], c.tools[t])
    {
      assert SameButTimes(a.tools[t], b.tools[t]) && SameButTimes(b.tools[t], c.tools[t]);
    }
    var n := |a.observations|;
    assert c.observations[n..] == b.observations[n..] + c.observations[|b.observations|..];
    AnyTruncatedSplits(b.observations[n..], c.observations[|b.observations|..]);
  }

  lemma KeptTwice(a: State, b: State, c: State)
    requires Kept(a, b) && Kept(b, c)
    ensures Kept(a, c)
  {
    forall k | 0 <= k < |a.metas|
      ensures SameButFacts(a.metas[k], c.metas[k])
    {
      SameFactsTwice(a.metas[k], b.metas[k], c.metas[k]);
    }
  }

  lemma {:induction false} RunKeeps(records: seq<Record>, n: nat, build: Builder, cfg: Config)
    requires n <= |records|
    ensures Kept(Run(records[..n], build, cfg), Run(records, build, cfg))
    decreases |records|
  {
    if n == |records| {
      assert records[..n] == records;
    } else {
      var init := records[..|records| - 1];
      assert init[..n] == records[..n];
      RunKeeps(init, n, build, cfg);
      TakeKeeps(Run(init, build, cfg), records[|records| - 1], build, cfg);
      KeptTwice(Run(init[..n], build, cfg), Run(init, build, cfg), Run(records, build, cfg));
    }
  }

  /* ------------------------------------------------------------------ steps and their records */

  /** A record that is no tool result and has a step: the step of the hook is there, but for results that were
      attached later, and so are its metadata. */
  lemma StepSaysRecord(records: seq<Record>, i: nat, build: Builder, cfg: Config)
    requires i < |records| && !records[i].ToolResult? && Became(records, i, build, cfg).NewStep?
    ensures var st, k := Run(records, build, cfg), Became(records, i, build, cfg).step;
      && k < |st.steps| == |st.metas| && build(records[i], k + 1).Some?
      && SameButResults(build(records[i], k + 1).value.step, st.steps[k])
      && SameButFacts(build(records[i], k + 1).value.meta, st.metas[k])
  {
    var before := Run(records[..i], build, cfg);
    RunMore(records, i, build, cfg);
    RunKeeps(records, i + 1, build, cfg);
    var after, k := Run(records[..i + 1], build, cfg), |before.steps|;
    assert after.steps[k] == build(records[i], k + 1).value.step && after.metas[k] == build(records[i], k + 1).value.meta;
    assert SameButResults(after.steps[k], Run(records, build, cfg).steps[k]);
    assert SameButFacts(after.metas[k], Run(records, build, cfg).metas[k]);
  }

  /** A tool result without a known call has a step of its own that says nothing else. */
  lemma ResultStepSaysRecord(records: seq<Record>, i: nat, build: Builder, cfg: Config)
    requires i < |records| && records[i].ToolResult? && Became(records, i, build, cfg).NewStep?
    ensures var st, k := Run(records, build, cfg), Became(records, i, build, cfg).step;
      && k < |st.steps| == |st.metas|
      && st.steps[k] == Step(k + 1, Agent, Str(""), None, None, None, [], st.steps[k].observation, None, None, map[])
      && st.metas[k].timestamp == records[i].times.at && st.metas[k].tools == [] && st.metas[k].duration.None?
      && Results(st.steps[k]) != [] && Results(st.steps[k])[0] == ObservationOf(records[i], cfg)
  {
    var before := Run(records[..i], build, cfg);
    RunMore(records, i, build, cfg);
    RunKeeps(records, i + 1, build, cfg);
    ResultsGrow(records, i + 1, build, cfg);
    var after, last, k := Run(records[..i + 1], build, cfg), Run(records, build, cfg), |before.steps|;
    assert SameButResults(after.steps[k], last.steps[k]) && SameButFacts(after.metas[k], last.metas[k]);
    assert Results(after.steps[k]) <= Results(last.steps[k]);
  }

  /* ------------------------------------------------------------------ results and their metadata */

  /** What the metadata of a result say: its call, whether it was an error, and when it was finished. */
  predicate ObservedAs(om: ObservationMeta, rec: Record, cfg: Config)
    requires rec.ToolResult?
  {
    && om.source == (if rec.callId == "" then None else Some(rec.callId))
    && om.isError == rec.isError && om.status == Some(if rec.isError then "error" else "completed")
    && om.finished == (if rec.times.finished.Some? then rec.times.finished else rec.times.at)
    && om.truncated == TooLong(rec.content, cfg)
  }

  /** What a result says: the redacted, bounded content under its call, without references. */
  predicate ResultAs(x: Result, rec: Record, cfg: Config)
    requires rec.ToolResult?
  {
    && x.source == (if rec.callId == "" then None else Some(rec.callId))
    && x.content == Some(cfg.redactJson(BoundedValue(rec.content, cfg))) && x.refs == [] && x.extra == map[]
  }

  /** The result and the metadata at one place are those of the record that stands there. */
  lemma {:induction false} PlaceSaysRecord(records: seq<Record>, i: nat, step: nat, k: nat, build: Builder, cfg: Config)
    requires BuildsSteps(build) && Owns(records, i, step, k, build, cfg)
    ensures var st := Run(records, build, cfg);
      && step < |st.steps| == |st.metas| && k < |Results(st.steps[step])| == |st.metas[step].observations|
      && ResultAs(Results(st.steps[step])[k], records[i], cfg)
      && ObservedAs(st.metas[step].observations[k], records[i], cfg)
    decreases |records|
  {
    var before := Run(records[..i], build, cfg);
    var after := Run(records[..i + 1], build, cfg);
    var last := Run(records, build, cfg);
    RunMore(records, i, build, cfg);
    RunInStep(records[..i], build, cfg);
    RunInStep(records[..i + 1], build, cfg);
    RunInStep(records, build, cfg);
    PlacedNow(before, records[i], step, k, build, cfg);
    RunKeeps(records, i + 1, build, cfg);
    ResultsGrow(records, i + 1, build, cfg);
    assert Results(after.steps[step]) <= Results(last.steps[step]);
    assert SameButFacts(after.metas[step], last.metas[step]);
    assert Paired(last.steps[step], last.metas[step], step + 1);
  }

  lemma PlacedNow(st: State, rec: Record, step: nat, k: nat, build: Builder, cfg: Config)
    requires InStep(st) && rec.ToolResult?
    requires FateOf(st, rec, build) == Attached(step, k) || (FateOf(st, rec, build) == NewStep(step) && k == 0)
    ensures var after := TakeRecord(st, rec, build, cfg);
      && step < |after.steps| == |after.metas| && k < |Results(after.steps[step])| && k < |after.metas[step].observations|
      && ResultAs(Results(after.steps[step])[k], rec, cfg) && ObservedAs(after.metas[step].observations[k], rec, cfg)
  {
    if step < |st.steps| {
      assert Paired(st.steps[step], st.metas[step], step + 1);
    }
  }

  /* ------------------------------------------------------------------ what a record says */

  lemma BoundedSays(s: string, cfg: Config)
    ensures Bounded(s, cfg) <= s && |Bounded(s, cfg)| == (if |s| < cfg.limit then |s| else cfg.limit)
  {
  }

  /** The step of a reply: its text and reasoning, redacted and bounded, and its calls in order. */
  lemma ReplySays(rec: Record, id: int, cfg: Config)
    requires rec.Assistant?
    ensures var made := AssistantStep(rec, id, cfg);
      && made.step.id == made.meta.id == id && made.step.source.Agent? && made.step.extra == map[] &&
            made.step.observation.None?
      && made.step.timestamp.None? && made.step.llmCalls.None? && made.step.model.None?
      && made.step.message == Str(cfg.redact(Bounded(rec.text, cfg)))
      && made.step.reasoning == (if rec.reasoning == "" then None else Some(cfg.redact(Bounded(rec.reasoning, cfg))))
      && |made.step.calls| == |made.meta.tools| == |rec.calls|
      && (forall i | 0 <= i < |rec.calls| :: CallSaysRecord(rec.calls[i], made.step.calls[i], made.meta.tools[i], rec.times.at, cfg))
      && made.meta.timestamp == (if rec.times.started.Some? then rec.times.started else rec.times.at)
      && made.meta.duration == rec.times.elapsed && (made.meta.durationSource.Some? <==> rec.times.elapsedBy != "")
      && (made.meta.durationSource.Some? ==> made.meta.durationSource.value == rec.times.elapsedBy)
      && (made.meta.truncated <==> |rec.text| > cfg.limit || |rec.reasoning| > cfg.limit)
      && made.meta.observations == [] && !made.meta.toolError
  {
  }

  /** One call and the tool beside it: name and redacted arguments, and the time of the call or else of the reply. */
  predicate CallSaysRecord(call: Call, made: ToolCall, tool: ToolMeta, at: Option<int>, cfg: Config) {
    var arguments := cfg.redactArguments(call.arguments);
    && made.id == tool.id == call.id && made.name == call.name && made.extra == map[]
    && (|cfg.dumpArguments(arguments)| <= cfg.limit ==> made.arguments == arguments && !tool.truncated)
    && (|cfg.dumpArguments(arguments)| > cfg.limit ==> made.arguments != arguments || tool.truncated)
    && (tool.truncated <==> |cfg.dumpArguments(arguments)| > cfg.limit)
    && (tool.truncated ==> made.arguments == map["_peval_truncated_json" := Str(cfg.dumpArguments(arguments)[..cfg.limit])])
    && tool.started == (if call.started.Some? then call.started else at)
    && (tool.generation.None? <==> call.generation.None?)
    && (call.generation.Some? ==> tool.generation.value == if call.generation.value > 0 then call.generation.value else 0)
    && tool.execution.None? && tool.executionSource.None?
  }

  lemma PlainSays(rec: Record, id: int, cfg: Config)
    requires rec.Plain?
    ensures PlainStep(rec, id, cfg) ==
      Made(Step(id, rec.source, Str(cfg.redact(Bounded(rec.text, cfg))), None, None, None, [], None, None, None, map[]),
           StepMeta(id, [], [], false, rec.times.at, None, None, |rec.text| > cfg.limit))
  {
  }

  /* ------------------------------------------------------------------ metrics */

  /** The value of the first key that is there. */
  lemma {:induction false} FirstExactly(n: Numbers, keys: seq<string>, i: nat)
    requires i < |keys| && keys[i] in n && forall j | 0 <= j < i :: keys[j] !in n
    ensures First(n, keys) == Some(n[keys[i]])
  {
    if i > 0 {
      FirstExactly(n, keys[1..], i - 1);
    }
  }

  lemma {:induction false} FirstNone(n: Numbers, keys: seq<string>)
    ensures First(n, keys).None? <==> forall j | 0 <= j < |keys| :: keys[j] !in n
  {
    if keys != [] {
      FirstNone(n, keys[1..]);
      assert forall j | 0 < j < |keys| :: keys[j] == keys[1..][j - 1];
    }
  }

  /** A count is rounded toward zero. */
  lemma TruncTowardZero(x: real)
    ensures x >= 0.0 ==> 0.0 <= Trunc(x) as real <= x < Trunc(x) as real + 1.0
    ensures x < 0.0 ==> Trunc(x) as real - 1.0 < x <= Trunc(x) as real <= 0.0
  {
  }

  lemma FirstOfKeys(n: Numbers, a: string, b: string, c: string)
    ensures First(n, [a, b, c]) == if a in n then Some(n[a]) else if b in n then Some(n[b]) else if c in n then Some(n[c]) else None
    ensures First(n, [a, b]) == if a in n then Some(n[a]) else if b in n then Some(n[b]) else None
    ensures First(n, [a]) == if a in n then Some(n[a]) else None
  {
    FirstNone(n, [a, b, c]);
    FirstNone(n, [a, b]);
    FirstNone(n, [a]);
    if a in n {
      FirstExactly(n, [a, b, c], 0);
      FirstExactly(n, [a, b], 0);
      FirstExactly(n, [a], 0);
    } else if b in n {
      FirstExactly(n, [a, b, c], 1);
      FirstExactly(n, [a, b], 1);
    } else if c in n {
      FirstExactly(n, [a, b, c], 2);
    }
  }

  function At(n: Numbers, key: string): real { if key in n then n[key] else 0.0 }

  /** Where each metric comes from: the usage under its first name that is there, or else the accounting; the
      prompt may be the sum of the parts that are there. */
  lemma MetricsSay(usage: Numbers, accounting: Numbers)
    ensures var m := MetricsOf(usage, accounting);
      && ("prompt_tokens" in usage ==> m.prompt == Some(Trunc(usage["prompt_tokens"])))
      && ("prompt_tokens" !in usage && "total_prompt_tokens" in usage ==> m.prompt == Some(Trunc(usage["total_prompt_tokens"])))
      && (usage.Keys !! {"prompt_tokens", "total_prompt_tokens"} && "input_tokens" in usage ==>
            m.prompt == Some(Trunc(usage["input_tokens"])))
      && (usage.Keys !! {"prompt_tokens", "total_prompt_tokens", "input_tokens"} ==>
            m.prompt ==
              if "context_input_tokens" in accounting then Some(Trunc(accounting["context_input_tokens"]))
              else if accounting.Keys !! {"billable_input_tokens", "cache_read_tokens", "cache_write_tokens"} then None
              else Some(Trunc(At(accounting, "billable_input_tokens") + At(accounting, "cache_read_tokens") + At(accounting, "cache_write_tokens"))))
  {
    FirstOfKeys(usage, "prompt_tokens", "total_prompt_tokens", "input_tokens");
    FirstOfKeys(accounting, "context_input_tokens", "", "");
    FirstOfKeys(accounting, "billable_input_tokens", "", "");
    FirstOfKeys(accounting, "cache_read_tokens", "", "");
    FirstOfKeys(accounting, "cache_write_tokens", "", "");
    var parts := [First(accounting, ["billable_input_tokens"]), First(accounting, ["cache_read_tokens"]), First(accounting, ["cache_write_tokens"])];
    SumOfThree(parts);
  }

  lemma SumOfThree(parts: seq<Option<real>>)
    requires |parts| == 3
    ensures SumPresent(parts) ==
      if parts[0].None? && parts[1].None? && parts[2].None? then None
      else Some((if parts[0].Some? then parts[0].value else 0.0) + (if parts[1].Some? then parts[1].value else 0.0)
                + if parts[2].Some? then parts[2].value else 0.0)
  {
    var two, one := parts[1..], parts[2..];
    assert two[1..] == one && one[1..] == [] && two[0] == parts[1] && one[0] == parts[2];
    assert SumPresent([]).None?;
    assert SumPresent(one) == parts[2];
    assert SumPresent(two) == if two[0].None? then SumPresent(one)
                              else Some(two[0].value + if SumPresent(one).Some? then SumPresent(one).value else 0.0);
  }

  lemma OtherMetricsSay(usage: Numbers, accounting: Numbers)
    ensures var m := MetricsOf(usage, accounting);
      && m.completion ==
           (if "completion_tokens" in usage then Some(Trunc(usage["completion_tokens"]))
            else if "output_tokens" in usage then Some(Trunc(usage["output_tokens"]))
            else if "total_completion_tokens" in usage then Some(Trunc(usage["total_completion_tokens"]))
            else if "billable_output_tokens" in accounting then Some(Trunc(accounting["billable_output_tokens"])) else None)
      && m.cached ==
           (if "cached_tokens" in usage then Some(Trunc(usage["cached_tokens"]))
            else if "cache_read_tokens" in usage then Some(Trunc(usage["cache_read_tokens"]))
            else if "cache_read_tokens" in accounting then Some(Trunc(accounting["cache_read_tokens"])) else None)
      && m.cost ==
           (if "cost_usd" in usage then Some(usage["cost_usd"])
            else if "total_cost_usd" in usage then Some(usage["total_cost_usd"])
            else if "estimated_cost_nanodollars" in accounting then Some(accounting["estimated_cost_nanodollars"] / 1000000000.0) else None)
  {
    FirstOfKeys(usage, "completion_tokens", "output_tokens", "total_completion_tokens");
    FirstOfKeys(accounting, "billable_output_tokens", "", "");
    FirstOfKeys(usage, "cached_tokens", "cache_read_tokens", "");
    FirstOfKeys(accounting, "cache_read_tokens", "", "");
    FirstOfKeys(usage, "cost_usd", "total_cost_usd", "");
    FirstOfKeys(accounting, "estimated_cost_nanodollars", "", "");
  }

  /* ------------------------------------------------------------------ how long a tool ran */

  /** A result times its tool: by its own measure, or by its timestamps if these may be compared and are at
      most ten minutes apart.  The start is the one it reports, or else so far before its end as the tool ran. */
  predicate Timed(tool: ToolMeta, rec: Record, om: ObservationMeta, after: ToolMeta) {
    var start := if rec.ToolResult? && rec.times.started.Some? then rec.times.started else tool.started;
    var compared := rec.ToolResult? && !rec.times.orderOnly && start.Some? && om.finished.Some?
                    && start.value <= om.finished.value <= start.value + 600000;
    && SameButTimes(tool, after)
    && (rec.ToolResult? && rec.times.elapsed.Some? ==>
          && after.execution == Some(if rec.times.elapsed.value > 0 then rec.times.elapsed.value else 0)
          && after.executionSource == Some(if rec.times.elapsedBy != "" then rec.times.elapsedBy else "message_metadata"))
    && (rec.ToolResult? && rec.times.elapsed.None? && compared ==>
          after.execution == Some(om.finished.value - start.value) && after.executionSource == Some("event_timestamps"))
    && (rec.ToolResult? && rec.times.elapsed.None? && !compared ==>
          after.execution == tool.execution && after.executionSource == tool.executionSource && after.started == start)
    && (rec.ToolResult? && rec.times.started.Some? ==> after.started == rec.times.started)
    && (rec.ToolResult? && rec.times.started.None? && om.finished.Some? && (rec.times.elapsed.Some? || compared) ==>
          after.started == Some(if om.finished.value > after.execution.value then om.finished.value - after.execution.value else 0))
    && (rec.ToolResult? && om.finished.None? ==> after.started == start)
  }

  lemma ToolIsTimed(tool: ToolMeta, rec: Record, om: ObservationMeta)
    requires rec.ToolResult?
    ensures Timed(tool, rec, om, TimedTool(tool, rec, om))
  {
  }

  /** Where a tool was timed by timestamps, its start stays where it was. */
  lemma ComparedKeepsStart(tool: ToolMeta, rec: Record, om: ObservationMeta)
    requires rec.ToolResult? && rec.times.elapsed.None? && rec.times.started.None? && tool.started.Some? &&
          tool.started.value >= 0
    ensures TimedTool(tool, rec, om).started == tool.started
  {
  }

  /** An attached result times the one tool that its slot names and leaves the others alone. */
  lemma AttachTimesOne(m: StepMeta, tool: nat, rec: Record, cfg: Config)
    requires rec.ToolResult? && tool < |m.tools|
    ensures var after := AttachMeta(m, tool, rec, cfg);
      && Timed(m.tools[tool], rec, ObservationMetaOf(rec, cfg), after.tools[tool])
      && |after.tools| == |m.tools| && forall t | 0 <= t < |m.tools| && t != tool :: after.tools[t] == m.tools[t]
  {
    ToolIsTimed(m.tools[tool], rec, ObservationMetaOf(rec, cfg));
  }
}
