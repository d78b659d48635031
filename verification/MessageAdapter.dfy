/** From messages to steps: the adapter that the message-based formats share. */
module MessageAdapter {
  import opened Atif
  import opened Finalize

  /* ------------------------------------------------------------------ records */

  datatype Call = Call(id: string, name: string, arguments: Extra, started: Option<int>, generation: Option<int>)

  /** When something happened, how long it took, and who measured that; `orderOnly` forbids guessing durations
      from timestamps. */
  datatype Times = Times(at: Option<int>, started: Option<int>, finished: Option<int>, elapsed: Option<int>, elapsedBy: string, orderOnly: bool)

  type Numbers = map<string, real>

  datatype Record =
    | Plain(source: Source, text: string, times: Times)
    | Assistant(text: string, reasoning: string, calls: seq<Call>, times: Times,
                usage: Numbers, hasUsage: bool, accounting: Numbers, model: string, synthetic: bool)
    | ToolResult(callId: string, content: Json, isError: bool, times: Times)
    | Unknown(role: string)

  /** Redaction and size limits of the workspace. */
  datatype Config = Config(limit: nat, redact: string -> string, redactJson: Json -> Json, redactArguments: Extra -> Extra,
                           dump: Json -> string, dumpArguments: Extra -> string)

  function Bounded(s: string, cfg: Config): string { if |s| <= cfg.limit then s else s[..cfg.limit] }

  function BoundedValue(j: Json, cfg: Config): Json {
    if j.Str? then Str(Bounded(j.s, cfg)) else if |cfg.dump(j)| <= cfg.limit then j else Str(cfg.dump(j)[..cfg.limit])
  }

  predicate TooLong(j: Json, cfg: Config) { if j.Str? then |j.s| > cfg.limit else |cfg.dump(j)| > cfg.limit }

  function BoundedArguments(a: Extra, cfg: Config): Extra {
    if |cfg.dumpArguments(a)| <= cfg.limit then a else map["_peval_truncated_json" := Str(cfg.dumpArguments(a)[..cfg.limit])]
  }

  /* ------------------------------------------------------------------ metrics */

  function First(n: Numbers, keys: seq<string>): Option<real> {
    if keys == [] then None else if keys[0] in n then Some(n[keys[0]]) else First(n, keys[1..])
  }

  function OrElse(a: Option<real>, b: Option<real>): Option<real> { if a.Some? then a else b }

  function SumPresent(values: seq<Option<real>>): Option<real> {
    if values == [] then None
    else
      var rest := SumPresent(values[1..]);
      if values[0].None? then rest else Some(values[0].value + if rest.Some? then rest.value else 0.0)
  }

  /** Truncation toward zero, as `int` does. */
  function Trunc(x: real): int { if x >= 0.0 then x.Floor else -(-x).Floor }

  function TruncOpt(x: Option<real>): Option<int> { if x.Some? then Some(Trunc(x.value)) else None }

  function MetricsOf(usage: Numbers, accounting: Numbers): Metrics {
    var prompt := OrElse(First(usage, ["prompt_tokens", "total_prompt_tokens", "input_tokens"]),
                         OrElse(First(accounting, ["context_input_tokens"]),
                                SumPresent([First(accounting, ["billable_input_tokens"]), First(accounting, ["cache_read_tokens"]),
                                            First(accounting, ["cache_write_tokens"])])));
    var completion := OrElse(First(usage, ["completion_tokens", "output_tokens", "total_completion_tokens"]),
                             First(accounting, ["billable_output_tokens"]));
    var cached := OrElse(First(usage, ["cached_tokens", "cache_read_tokens"]), First(accounting, ["cache_read_tokens"]));
    var nano := First(accounting, ["estimated_cost_nanodollars"]);
    var cost := OrElse(First(usage, ["cost_usd", "total_cost_usd"]), if nano.Some? then Some(nano.value / 1000000000.0) else None);
    Metrics(TruncOpt(prompt), TruncOpt(completion), TruncOpt(cached), cost)
  }

  /* ------------------------------------------------------------------ steps from records */

  function BlankStep(id: int, source: Source, message: string): Step {
    Step(id, source, Str(message), None, None, None, [], None, None, None, map[])
  }

  function BlankMeta(id: int, at: Option<int>): StepMeta { StepMeta(id, [], [], false, at, None, None, false) }

  function OrTime(a: Option<int>, b: Option<int>): Option<int> { if a.Some? then a else b }

  function ClampOpt(n: Option<int>): Option<int> { if n.Some? && n.value < 0 then Some(0) else n }

  function CallsOf(calls: seq<Call>, cfg: Config): (r: seq<ToolCall>)
    ensures |r| == |calls|
    ensures forall i | 0 <= i < |calls| :: r[i] ==
                                           ToolCall(calls[i].id, calls[i].name, BoundedArguments(cfg.redactArguments(calls[i].arguments), cfg), map[])
  {
    seq(|calls|, i requires 0 <= i < |calls| =>
      ToolCall(calls[i].id, calls[i].name, BoundedArguments(cfg.redactArguments(calls[i].arguments), cfg), map[]))
  }

  function ToolsOf(calls: seq<Call>, at: Option<int>, cfg: Config): (r: seq<ToolMeta>)
    ensures |r| == |calls| && forall i | 0 <= i < |calls| :: r[i].id == calls[i].id
  {
    seq(|calls|, i requires 0 <= i < |calls| =>
      ToolMeta(calls[i].id, OrTime(calls[i].started, at), ClampOpt(calls[i].generation), None, None,
               |cfg.dumpArguments(cfg.redactArguments(calls[i].arguments))| > cfg.limit))
  }

  /** A step and what is known beside it. */
  datatype Made = Made(step: Step, meta: StepMeta)

  function PlainStep(rec: Record, id: int, cfg: Config): Made
    requires rec.Plain?
  {
    Made(BlankStep(id, rec.source, cfg.redact(Bounded(rec.text, cfg))), BlankMeta(id, rec.times.at).(truncated := |rec.text| > cfg.limit))
  }

  function AssistantStep(rec: Record, id: int, cfg: Config): Made
    requires rec.Assistant?
  {
    var metrics := MetricsOf(rec.usage, rec.accounting);
    var step := BlankStep(id, Agent, cfg.redact(Bounded(rec.text, cfg))).(
      reasoning := if rec.reasoning == "" then None else Some(cfg.redact(Bounded(rec.reasoning, cfg))),
      calls := CallsOf(rec.calls, cfg),
      metrics := if metrics == Metrics(None, None, None, None) && !rec.hasUsage && rec.accounting == map[] then None else Some(metrics));
    Made(step, StepMeta(id, ToolsOf(rec.calls, rec.times.at, cfg), [], false, OrTime(rec.times.started, rec.times.at), rec.times.elapsed,
                        if rec.times.elapsedBy == "" then None else Some(rec.times.elapsedBy),
                        |rec.text| > cfg.limit || |rec.reasoning| > cfg.limit))
  }

  function ObservationOf(rec: Record, cfg: Config): Result
    requires rec.ToolResult?
  {
    Result(if rec.callId == "" then None else Some(rec.callId), Some(cfg.redactJson(BoundedValue(rec.content, cfg))), [], map[])
  }

  function ObservationMetaOf(rec: Record, cfg: Config): ObservationMeta
    requires rec.ToolResult?
  {
    ObservationMeta(if rec.callId == "" then None else Some(rec.callId), Some(if rec.isError then "error" else "completed"),
                    OrTime(rec.times.finished, rec.times.at), rec.isError, TooLong(rec.content, cfg))
  }

  /** A result whose call is unknown gets a step of its own. */
  function ResultStep(rec: Record, id: int, cfg: Config): Made
    requires rec.ToolResult?
  {
    var om := ObservationMetaOf(rec, cfg);
    Made(BlankStep(id, Agent, "").(observation := Some([ObservationOf(rec, cfg)])),
         StepMeta(id, [], [om], om.isError, rec.times.at, None, None, om.truncated))
  }

  /** How a format turns a record that is no tool result into a step; `None` for an unknown role. */
  type Builder = (Record, int) -> Option<Made>

  /* ------------------------------------------------------------------ attaching results */

  const DURATION_CAP := 600000

  /** How long a tool ran: measured, or the time between its timestamps when that may be guessed. */
  function ExecutionTime(times: Times, start: Option<int>, end: Option<int>): Option<(int, string)> {
    if times.elapsed.Some? then
      Some((if times.elapsed.value < 0 then 0 else times.elapsed.value, if times.elapsedBy == "" then "message_metadata" else times.elapsedBy))
    else if times.orderOnly || start.None? || end.None? || !(0 <= end.value - start.value <= DURATION_CAP) then None
    else Some((end.value - start.value, "event_timestamps"))
  }

  function TimedTool(tool: ToolMeta, rec: Record, om: ObservationMeta): ToolMeta
    requires rec.ToolResult?
  {
    var started := OrTime(rec.times.started, tool.started);
    var took := ExecutionTime(rec.times, started, om.finished);
    if took.None? then tool.(started := started)
    else
      var back := if rec.times.started.None? && om.finished.Some?
                  then Some(if om.finished.value < took.value.0 then 0 else om.finished.value - took.value.0) else started;
      tool.(started := back, execution := Some(took.value.0), executionSource := Some(took.value.1))
  }

  function AttachStep(s: Step, rec: Record, cfg: Config): Step
    requires rec.ToolResult?
  {
    s.(observation := Some((if s.observation.Some? then s.observation.value else []) + [ObservationOf(rec, cfg)]))
  }

  function AttachMeta(m: StepMeta, tool: nat, rec: Record, cfg: Config): StepMeta
    requires rec.ToolResult? && tool < |m.tools|
  {
    var om := ObservationMetaOf(rec, cfg);
    m.(observations := m.observations + [om], toolError := m.toolError || om.isError, truncated := m.truncated || om.truncated,
       tools := m.tools[tool := TimedTool(m.tools[tool], rec, om)])
  }

  /* ------------------------------------------------------------------ the conversion */

  /** What became of a record. */
  datatype Fate = NewStep(step: nat) | Attached(to: nat, position: nat) | Unmapped

  datatype Slot = Slot(step: nat, tool: nat)

  /** The local variables of the loop; `pending` says where the latest call with an id is. */
  datatype State = State(steps: seq<Step>, metas: seq<StepMeta>, pending: map<string, Slot>, unmapped: nat)

  const START := State([], [], map[], 0)

  function AddPending(pending: map<string, Slot>, tools: seq<ToolMeta>, step: nat): map<string, Slot> {
    if tools == [] then pending
    else
      var t := |tools| - 1;
      AddPending(pending, tools[..t], step)[tools[t].id := Slot(step, t)]
  }

  predicate IsAttached(st: State, rec: Record) { rec.ToolResult? && rec.callId != "" && rec.callId in st.pending }

  /** Every slot is a tool of a step. */
  predicate Slotted(st: State) {
    && |st.metas| == |st.steps|
    && forall id | id in st.pending :: st.pending[id].step < |st.metas| && st.pending[id].tool < |st.metas[st.pending[id].step].tools|
  }

  function TakeRecord(st: State, rec: Record, build: Builder, cfg: Config): State
    requires Slotted(st)
  {
    if IsAttached(st, rec) then
      var slot := st.pending[rec.callId];
      st.(steps := st.steps[slot.step := AttachStep(st.steps[slot.step], rec, cfg)],
          metas := st.metas[slot.step := AttachMeta(st.metas[slot.step], slot.tool, rec, cfg)])
    else if rec.ToolResult? then
      var made := ResultStep(rec, |st.steps| + 1, cfg);
      st.(steps := st.steps + [made.step], metas := st.metas + [made.meta])
    else
      var made := build(rec, |st.steps| + 1);
      if made.None? then st.(unmapped := st.unmapped + 1)
      else State(st.steps + [made.value.step], st.metas + [made.value.meta],
                 AddPending(st.pending, made.value.meta.tools, |st.steps|), st.unmapped)
  }

  function FateOf(st: State, rec: Record, build: Builder): Fate
    requires Slotted(st)
  {
    if IsAttached(st, rec) then Attached(st.pending[rec.callId].step, |Results(st.steps[st.pending[rec.callId].step])|)
    else if !rec.ToolResult? && build(rec, |st.steps| + 1).None? then Unmapped
    else NewStep(|st.steps|)
  }

  predicate HasTool(tools: seq<ToolMeta>, id: string) { exists t | 0 <= t < |tools| :: tools[t].id == id }

  /** The slots of the new tools take the place of earlier ones with the same id. */
  lemma {:induction false} PendingAt(pending: map<string, Slot>, tools: seq<ToolMeta>, step: nat, id: string)
    ensures var after := AddPending(pending, tools, step);
      if HasTool(tools, id) then id in after && after[id].step == step && after[id].tool < |tools| && tools[after[id].tool].id == id
      else (id in after <==> id in pending) && (id in pending ==> after[id] == pending[id])
  {
    if tools != [] {
      var n := |tools| - 1;
      PendingAt(pending, tools[..n], step, id);
      if HasTool(tools, id) && tools[n].id != id {
        var t :| 0 <= t < |tools| && tools[t].id == id;
        assert tools[..n][t].id == id;
      }
      if HasTool(tools[..n], id) {
        var t :| 0 <= t < n && tools[..n][t].id == id;
        assert tools[t].id == id;
      }
    }
  }

  lemma TakeKeepsSlotted(st: State, rec: Record, build: Builder, cfg: Config)
    requires Slotted(st)
    ensures Slotted(TakeRecord(st, rec, build, cfg))
  {
    if !IsAttached(st, rec) && !rec.ToolResult? && build(rec, |st.steps| + 1).Some? {
      var after := TakeRecord(st, rec, build, cfg);
      forall id | id in after.pending
        ensures after.pending[id].step < |after.metas| && after.pending[id].tool < |after.metas[after.pending[id].step].tools|
      {
        PendingAt(st.pending, build(rec, |st.steps| + 1).value.meta.tools, |st.steps|, id);
      }
    }
  }

  function Run(records: seq<Record>, build: Builder, cfg: Config): (st: State)
    ensures Slotted(st)
  {
    if records == [] then START
    else
      var n := |records| - 1;
      var before := Run(records[..n], build, cfg);
      TakeKeepsSlotted(before, records[n], build, cfg);
      TakeRecord(before, records[n], build, cfg)
  }

  /** What became of the record at a position. */
  function Became(records: seq<Record>, i: nat, build: Builder, cfg: Config): Fate
    requires i < |records|
  {
    FateOf(Run(records[..i], build, cfg), records[i], build)
  }

  lemma RunMore(records: seq<Record>, i: nat, build: Builder, cfg: Config)
    requires i < |records|
    ensures Run(records[..i + 1], build, cfg) == TakeRecord(Run(records[..i], build, cfg), records[i], build, cfg)
  {
    assert records[..i + 1][..i] == records[..i];
  }

  method KeepPending(known: map<string, Slot>, tools: seq<ToolMeta>, at: nat) returns (pending: map<string, Slot>)
    ensures pending == AddPending(known, tools, at)
  {
    pending := known;
    assert tools[..0] == [];
    for t := 0 to |tools|
      invariant pending == AddPending(known, tools[..t], at)
    {
      assert tools[..t + 1][..t] == tools[..t];
      pending := pending[tools[t].id := Slot(at, t)];
    }
    assert tools[..|tools|] == tools;
  }

  /** The loop of the adapter. */
  method ConvertRecords(records: seq<Record>, build: Builder, cfg: Config) returns (st: State)
    ensures st == Run(records, build, cfg)
  {
    var steps: seq<Step>, metas: seq<StepMeta>, pending: map<string, Slot>, unmapped: nat := [], [], map[], 0;
    assert records[..0] == [];
    for i := 0 to |records|
      invariant State(steps, metas, pending, unmapped) == Run(records[..i], build, cfg)
    {
      var rec := records[i];
      RunMore(records, i, build, cfg);
      if rec.ToolResult? {
        if rec.callId != "" && rec.callId in pending {
          var slot := pending[rec.callId];
          steps := steps[slot.step := AttachStep(steps[slot.step], rec, cfg)];
          metas := metas[slot.step := AttachMeta(metas[slot.step], slot.tool, rec, cfg)];
          continue;
        }
        var made := ResultStep(rec, |steps| + 1, cfg);
        steps, metas := steps + [made.step], metas + [made.meta];
        continue;
      }
      var made := build(rec, |steps| + 1);
      if made.None? {
        unmapped := unmapped + 1;
        continue;
      }
      var tools := made.value.meta.tools;
      var at := |steps|;
      steps, metas := steps + [made.value.step], metas + [made.value.meta];
      pending := KeepPending(pending, tools, at);
    }
    assert records[..|records|] == records;
    st := State(steps, metas, pending, unmapped);
  }

  /* ------------------------------------------------------------------ steps and metadata stay in step */

  /** What the hook of a format owes: the number it is given, no results, and one tool for each call. */
  ghost predicate BuildsSteps(build: Builder) {
    forall rec: Record, id | !rec.ToolResult? && build(rec, id).Some? :: BuiltStep(build(rec, id).value, id)
  }

  predicate BuiltStep(made: Made, id: int) {
    && made.step.id == id && made.meta.id == id && made.step.observation.None? && made.meta.observations == [] &&
          !made.meta.toolError
    && SameTools(made.step, made.meta)
  }

  predicate SameTools(s: Step, m: StepMeta) {
    |m.tools| == |s.calls| && forall i | 0 <= i < |s.calls| :: m.tools[i].id == s.calls[i].id
  }

  predicate AnyError(observations: seq<ObservationMeta>) { exists k | 0 <= k < |observations| :: observations[k].isError }

  /** One step and its metadata: the same number, tools, and results, and an error exactly when a result is one. */
  predicate Paired(s: Step, m: StepMeta, id: int) {
    && s.id == id && m.id == id && SameTools(s, m)
    && |m.observations| == |Results(s)| && (forall k | 0 <= k < |m.observations| ::
          m.observations[k].source == Results(s)[k].source)
    && (m.toolError <==> AnyError(m.observations))
  }

  predicate HoldsCall(s: Step, id: string) { exists i | 0 <= i < |s.calls| :: s.calls[i].id == id }

  /** Steps are numbered from one and paired with their metadata, and a pending id leads to the latest step
      that holds the call. */
  ghost predicate InStep(st: State) {
    && Slotted(st)
    && (forall i | 0 <= i < |st.steps| :: Paired(st.steps[i], st.metas[i], i + 1))
    && (forall id | id in st.pending :: IsLatest(st, id, st.pending[id].step))
    && (forall i, id | 0 <= i < |st.steps| && HoldsCall(st.steps[i], id) :: id in st.pending)
  }

  predicate IsLatest(st: State, id: string, step: nat) {
    step < |st.steps| && HoldsCall(st.steps[step], id) && forall j | step < j < |st.steps| :: !HoldsCall(st.steps[j], id)
  }

  lemma AttachKeepsPaired(s: Step, m: StepMeta, id: int, tool: nat, rec: Record, cfg: Config)
    requires rec.ToolResult? && tool < |m.tools| && Paired(s, m, id)
    ensures Paired(AttachStep(s, rec, cfg), AttachMeta(m, tool, rec, cfg), id)
    ensures forall x :: HoldsCall(AttachStep(s, rec, cfg), x) <==> HoldsCall(s, x)
  {
    var n := AttachMeta(m, tool, rec, cfg);
    assert n.observations[|m.observations|] == ObservationMetaOf(rec, cfg);
    if AnyError(m.observations) {
      var k :| 0 <= k < |m.observations| && m.observations[k].isError;
      assert n.observations[k].isError;
    }
    if AnyError(n.observations) {
      var k :| 0 <= k < |n.observations| && n.observations[k].isError;
      assert k < |m.observations| ==> m.observations[k].isError;
    }
  }

  lemma ResultStepPaired(rec: Record, id: int, cfg: Config)
    requires rec.ToolResult?
    ensures var made := ResultStep(rec, id, cfg);
      Paired(made.step, made.meta, id) && forall x :: !HoldsCall(made.step, x)
  {
    var made := ResultStep(rec, id, cfg);
    assert made.meta.observations[0].isError == made.meta.toolError;
  }

  lemma BuiltPaired(made: Made, id: int)
    requires BuiltStep(made, id)
    ensures Paired(made.step, made.meta, id)
    ensures forall x :: HoldsCall(made.step, x) <==> HasTool(made.meta.tools, x)
  {
  }

  ghost predicate SameCalls(a: State, b: State) {
    |a.steps| == |b.steps| && forall i, x | 0 <= i < |a.steps| :: HoldsCall(a.steps[i], x) <==> HoldsCall(b.steps[i], x)
  }

  lemma LatestWithSameCalls(a: State, b: State, id: string, step: nat)
    requires SameCalls(a, b) && IsLatest(a, id, step)
    ensures IsLatest(b, id, step)
  {
  }

  /** One step and its metadata are replaced. */
  lemma ReplaceKeepsInStep(st: State, after: State, at: nat, s: Step, m: StepMeta)
    requires InStep(st) && at < |st.steps| && Paired(s, m, at + 1) && |m.tools| == |st.metas[at].tools|
    requires forall x :: HoldsCall(s, x) <==> HoldsCall(st.steps[at], x)
    requires after == st.(steps := st.steps[at := s], metas := st.metas[at := m])
    ensures InStep(after)
  {
    assert SameCalls(st, after);
    forall id | id in after.pending
      ensures IsLatest(after, id, after.pending[id].step)
    {
      LatestWithSameCalls(st, after, id, st.pending[id].step);
    }
    forall i, id | 0 <= i < |after.steps| && HoldsCall(after.steps[i], id)
      ensures id in after.pending
    {
      assert HoldsCall(st.steps[i], id);
    }
  }

  lemma AttachKeepsInStep(st: State, rec: Record, build: Builder, cfg: Config)
    requires InStep(st) && IsAttached(st, rec)
    ensures InStep(TakeRecord(st, rec, build, cfg))
  {
    var slot := st.pending[rec.callId];
    var s, m := st.steps[slot.step], st.metas[slot.step];
    AttachKeepsPaired(s, m, slot.step + 1, slot.tool, rec, cfg);
    ReplaceKeepsInStep(st, TakeRecord(st, rec, build, cfg), slot.step, AttachStep(s, rec, cfg), AttachMeta(m, slot.tool, rec, cfg));
  }

  lemma ResultKeepsInStep(st: State, rec: Record, build: Builder, cfg: Config)
    requires InStep(st) && rec.ToolResult? && !IsAttached(st, rec)
    ensures InStep(TakeRecord(st, rec, build, cfg))
  {
    var after := TakeRecord(st, rec, build, cfg);
    TakeKeepsSlotted(st, rec, build, cfg);
    ResultStepPaired(rec, |st.steps| + 1, cfg);
    forall id | id in after.pending
      ensures IsLatest(after, id, after.pending[id].step)
    {
      assert IsLatest(st, id, st.pending[id].step);
    }
  }

  lemma BuildKeepsInStep(st: State, rec: Record, build: Builder, cfg: Config)
    requires InStep(st) && BuildsSteps(build) && !rec.ToolResult? && build(rec, |st.steps| + 1).Some?
    ensures InStep(TakeRecord(st, rec, build, cfg))
  {
    var after, n := TakeRecord(st, rec, build, cfg), |st.steps|;
    var made := build(rec, n + 1).value;
    TakeKeepsSlotted(st, rec, build, cfg);
    BuiltPaired(made, n + 1);
    forall id | id in after.pending
      ensures IsLatest(after, id, after.pending[id].step)
    {
      PendingAt(st.pending, made.meta.tools, n, id);
      if !HasTool(made.meta.tools, id) {
        assert IsLatest(st, id, st.pending[id].step);
      }
    }
    forall i, id | 0 <= i < |after.steps| && HoldsCall(after.steps[i], id)
      ensures id in after.pending
    {
      PendingAt(st.pending, made.meta.tools, n, id);
    }
  }

  lemma {:induction false} RunInStep(records: seq<Record>, build: Builder, cfg: Config)
    requires BuildsSteps(build)
    ensures InStep(Run(records, build, cfg))
  {
    if records != [] {
      var n := |records| - 1;
      var before, rec := Run(records[..n], build, cfg), records[n];
      RunInStep(records[..n], build, cfg);
      if IsAttached(before, rec) {
        AttachKeepsInStep(before, rec, build, cfg);
      } else if rec.ToolResult? {
        ResultKeepsInStep(before, rec, build, cfg);
      } else if build(rec, |before.steps| + 1).Some? {
        BuildKeepsInStep(before, rec, build, cfg);
      }
    }
  }

  /* ------------------------------------------------------------------ every record is accounted for */

  datatype Counts = Counts(made: nat, attached: nat, unmapped: nat)

  function Tally(records: seq<Record>, build: Builder, cfg: Config): Counts {
    if records == [] then Counts(0, 0, 0)
    else
      var n := |records| - 1;
      var c := Tally(records[..n], build, cfg);
      match FateOf(Run(records[..n], build, cfg), records[n], build)
      case NewStep(_) => c.(made := c.made + 1)
      case Attached(_, _) => c.(attached := c.attached + 1)
      case Unmapped => c.(unmapped := c.unmapped + 1)
  }

  function ResultCount(steps: seq<Step>): nat {
    if steps == [] then 0 else ResultCount(steps[..|steps| - 1]) + |Results(steps[|steps| - 1])|
  }

  lemma {:induction false} ResultCountUpdate(steps: seq<Step>, i: nat, s: Step)
    requires i < |steps|
    ensures ResultCount(steps[i := s]) + |Results(steps[i])| == ResultCount(steps) + |Results(s)|
  {
    var n := |steps| - 1;
    if i < n {
      assert steps[i := s][..n] == steps[..n][i := s];
      ResultCountUpdate(steps[..n], i, s);
    } else {
      assert steps[i := s][..n] == steps[..n];
    }
  }

  function ToolResults(records: seq<Record>): nat {
    if records == [] then 0 else ToolResults(records[..|records| - 1]) + if records[|records| - 1].ToolResult? then 1 else 0
  }

  /** Each record became one new step, one attached result or one unmapped record, and each tool result is a
      result of some step. */
  lemma {:induction false} RecordsAreCounted(records: seq<Record>, build: Builder, cfg: Config)
    requires BuildsSteps(build)
    ensures var st, c := Run(records, build, cfg), Tally(records, build, cfg);
      && c.made == |st.steps| && c.unmapped == st.unmapped && c.made + c.attached + c.unmapped == |records|
      && ResultCount(st.steps) == ToolResults(records)
  {
    if records != [] {
      var n := |records| - 1;
      var before, rec := Run(records[..n], build, cfg), records[n];
      RecordsAreCounted(records[..n], build, cfg);
      CountedStep(before, rec, build, cfg);
    }
  }

  lemma CountedStep(st: State, rec: Record, build: Builder, cfg: Config)
    requires Slotted(st) && BuildsSteps(build)
    ensures ResultCount(TakeRecord(st, rec, build, cfg).steps) == ResultCount(st.steps) + if rec.ToolResult? then 1 else 0
  {
    var after := TakeRecord(st, rec, build, cfg);
    if IsAttached(st, rec) {
      var slot := st.pending[rec.callId];
      ResultCountUpdate(st.steps, slot.step, AttachStep(st.steps[slot.step], rec, cfg));
    } else if |after.steps| > |st.steps| {
      assert after.steps[..|st.steps|] == st.steps;
    } else {
      assert after.steps == st.steps;
    }
  }

  /** The record whose result stands at a place. */
  predicate Owns(records: seq<Record>, i: nat, step: nat, k: nat, build: Builder, cfg: Config) {
    && i < |records| && records[i].ToolResult?
    && (Became(records, i, build, cfg) == Attached(step, k) || (Became(records, i, build, cfg) == NewStep(step) && k == 0))
  }

  lemma OwnsEarlier(records: seq<Record>, n: nat, i: nat, step: nat, k: nat, build: Builder, cfg: Config)
    requires i < n <= |records|
    ensures Owns(records[..n], i, step, k, build, cfg) <==> Owns(records, i, step, k, build, cfg)
  {
    assert records[..n][..i] == records[..i];
  }

  predicate Grown(before: seq<Step>, after: seq<Step>) {
    |before| <= |after| && forall s | 0 <= s < |before| :: Results(before[s]) <= Results(after[s])
  }

  lemma GrownTwice(a: seq<Step>, b: seq<Step>, c: seq<Step>)
    requires Grown(a, b) && Grown(b, c)
    ensures Grown(a, c)
  {
  }

  lemma TakeGrows(st: State, rec: Record, build: Builder, cfg: Config)
    requires Slotted(st)
    ensures Grown(st.steps, TakeRecord(st, rec, build, cfg).steps)
  {
  }

  /** The results of each step only grow, in place. */
  lemma GrowsOnce(records: seq<Record>, build: Builder, cfg: Config)
    requires records != []
    ensures Grown(Run(records[..|records| - 1], build, cfg).steps, Run(records, build, cfg).steps)
  {
    TakeGrows(Run(records[..|records| - 1], build, cfg), records[|records| - 1], build, cfg);
  }

  lemma {:induction false} ResultsGrow(records: seq<Record>, n: nat, build: Builder, cfg: Config)
    requires n <= |records|
    ensures Grown(Run(records[..n], build, cfg).steps, Run(records, build, cfg).steps)
    decreases |records|
  {
    if n == |records| {
      assert records[..n] == records;
    } else {
      var init := records[..|records| - 1];
      assert init[..n] == records[..n];
      ResultsGrow(init, n, build, cfg);
      GrowsOnce(records, build, cfg);
      GrownTwice(Run(init[..n], build, cfg).steps, Run(init, build, cfg).steps, Run(records, build, cfg).steps);
    }
  }

  /** Each result of each step comes from a record, and is that record's observation. */
  lemma {:induction false} ResultHasOwner(records: seq<Record>, step: nat, k: nat, build: Builder, cfg: Config) returns (i: nat)
    requires BuildsSteps(build)
    requires step < |Run(records, build, cfg).steps| && k < |Results(Run(records, build, cfg).steps[step])|
    ensures Owns(records, i, step, k, build, cfg)
    ensures Results(Run(records, build, cfg).steps[step])[k] == ObservationOf(records[i], cfg)
    decreases |records|
  {
    var n := |records| - 1;
    var before, rec := Run(records[..n], build, cfg), records[n];
    if step < |before.steps| && k < |Results(before.steps[step])| {
      i := ResultHasOwner(records[..n], step, k, build, cfg);
      OwnsEarlier(records, n, i, step, k, build, cfg);
      ResultsGrow(records, n, build, cfg);
    } else {
      i := n;
      LastResultOwned(before, rec, step, k, build, cfg);
    }
  }

  lemma LastResultOwned(st: State, rec: Record, step: nat, k: nat, build: Builder, cfg: Config)
    requires Slotted(st) && BuildsSteps(build)
    requires var after := TakeRecord(st, rec, build, cfg);
      step < |after.steps| && k < |Results(after.steps[step])| && (step < |st.steps| ==> k >= |Results(st.steps[step])|)
    ensures rec.ToolResult? && Results(TakeRecord(st, rec, build, cfg).steps[step])[k] == ObservationOf(rec, cfg)
    ensures FateOf(st, rec, build) == Attached(step, k) || (FateOf(st, rec, build) == NewStep(step) && k == 0)
  {
  }

  predicate Taken(st: State, step: nat, k: nat) { step < |st.steps| && k < |Results(st.steps[step])| }

  lemma TakesPlace(st: State, rec: Record, step: nat, k: nat, build: Builder, cfg: Config)
    requires Slotted(st) && rec.ToolResult?
    requires FateOf(st, rec, build) == Attached(step, k) || (FateOf(st, rec, build) == NewStep(step) && k == 0)
    ensures !Taken(st, step, k) && Taken(TakeRecord(st, rec, build, cfg), step, k)
  {
  }

  /** No two records stand at one place. */
  lemma OwnerIsUnique(records: seq<Record>, i: nat, j: nat, step: nat, k: nat, build: Builder, cfg: Config)
    requires i < j < |records|
    ensures !(Owns(records, i, step, k, build, cfg) && Owns(records, j, step, k, build, cfg))
  {
    assert records[..j][..i + 1] == records[..i + 1] && records[..i + 1][..i] == records[..i];
    ResultsGrow(records[..j], i + 1, build, cfg);
    if Owns(records, i, step, k, build, cfg) {
      TakesPlace(Run(records[..i], build, cfg), records[i], step, k, build, cfg);
      assert Taken(Run(records[..j], build, cfg), step, k);
      TakenIsNotNew(Run(records[..j], build, cfg), records[j], step, k, build);
    }
  }

  lemma TakenIsNotNew(st: State, rec: Record, step: nat, k: nat, build: Builder)
    requires Slotted(st) && Taken(st, step, k)
    ensures FateOf(st, rec, build) != Attached(step, k) && FateOf(st, rec, build) != NewStep(step)
  {
  }

  /** A result that was attached went to the latest step, at that time, that holds its call. */
  lemma AttachedToLatest(records: seq<Record>, i: nat, build: Builder, cfg: Config)
    requires BuildsSteps(build) && i < |records| && Became(records, i, build, cfg).Attached?
    ensures records[i].ToolResult? && IsLatest(Run(records[..i], build, cfg), records[i].callId, Became(records, i, build, cfg).to)
  {
    RunInStep(records[..i], build, cfg);
  }

  /** A result that got a step of its own has no call in any step so far. */
  lemma UnmatchedHasNoCall(records: seq<Record>, i: nat, build: Builder, cfg: Config)
    requires BuildsSteps(build) && i < |records| && records[i].ToolResult? &&
          Became(records, i, build, cfg).NewStep? && records[i].callId != ""
    ensures forall s | s in Run(records[..i], build, cfg).steps :: !HoldsCall(s, records[i].callId)
  {
    RunInStep(records[..i], build, cfg);
    var st, id := Run(records[..i], build, cfg), records[i].callId;
    assert id !in st.pending;
    forall s | s in st.steps
      ensures !HoldsCall(s, id)
    {
      var k :| 0 <= k < |st.steps| && st.steps[k] == s;
    }
  }

  /** A record that made a step: the step is there from then on. */
  lemma MadeStays(records: seq<Record>, i: nat, build: Builder, cfg: Config)
    requires i < |records| && Became(records, i, build, cfg).NewStep?
    ensures Became(records, i, build, cfg).step == |Run(records[..i], build, cfg).steps| < |Run(records, build, cfg).steps|
  {
    assert records[..i + 1][..i] == records[..i];
    ResultsGrow(records, i + 1, build, cfg);
  }

  /** The steps are made one by one, in the order of their records. */
  lemma NewStepsInOrder(records: seq<Record>, i: nat, j: nat, build: Builder, cfg: Config)
    requires i < j < |records| && Became(records, i, build, cfg).NewStep? && Became(records, j, build, cfg).NewStep?
    ensures Became(records, i, build, cfg).step < Became(records, j, build, cfg).step < |Run(records, build, cfg).steps|
  {
    assert records[..j][..i] == records[..i];
    MadeStays(records[..j], i, build, cfg);
    MadeStays(records, j, build, cfg);
  }
}
