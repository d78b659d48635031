/** Retained Claude Code sessions: events to messages to steps. */
module ClaudeSession {
  import opened Atif
  import opened Finalize
  import opened MessageAdapter

  /* ------------------------------------------------------------------ events */

  /** Token counts as reported; a negative one is not accepted. */
  datatype RawUsage = RawUsage(input: Option<int>, output: Option<int>, read: Option<int>, write: Option<int>)

  /** Whether a tool result carries metadata, and the subagent that they name. */
  datatype Note = Absent | Present(agent: Option<string>)

  datatype Block =
    | TextBlock(text: string)
    | Thinking(text: string)
    | ToolUse(id: string, name: string, arguments: Extra)
    | ToolOutcome(callId: string, content: Json, isError: bool, note: Note)
    | OtherBlock

  datatype Body =
    | AssistantEvent(messageId: string, model: string, apiError: bool, usage: Option<RawUsage>, blocks: seq<Block>)
    | UserEvent(blocks: seq<Block>, batch: Note, system: bool)
    | SystemEvent(text: string)
    | OtherEvent(kind: string)
    | Bookkeeping

  datatype Event = Event(uuid: Option<string>, at: Option<int>, body: Body)

  /* ------------------------------------------------------------------ usage */

  datatype Usage = Usage(uncached: Option<nat>, output: Option<nat>, read: Option<nat>, write: Option<nat>, prompt: Option<nat>, given: bool)

  const NO_USAGE := Usage(None, None, None, None, None, false)

  function Accepted(n: Option<int>): Option<nat> { if n.Some? && n.value >= 0 then Some(n.value as nat) else None }

  function UsageOf(raw: Option<RawUsage>): Usage {
    if raw.None? then NO_USAGE
    else Usage(Accepted(raw.value.input), Accepted(raw.value.output), Accepted(raw.value.read), Accepted(raw.value.write), None, true)
  }

  function Later(before: Option<nat>, after: Option<nat>): Option<nat> { if after.Some? then after else before }

  /** Newer counts replace older ones; the prompt is counted when all its parts are known. */
  function MergeUsage(u: Usage, v: Usage): Usage {
    var uncached, read, write := Later(u.uncached, v.uncached), Later(u.read, v.read), Later(u.write, v.write);
    Usage(uncached, Later(u.output, v.output), read, write,
          if uncached.Some? && read.Some? && write.Some? then Some(uncached.value + read.value + write.value) else Later(u.prompt, v.prompt),
          u.given || v.given)
  }

  /** The prompt is the sum of its three parts. */
  predicate Summed(u: Usage) {
    u.prompt.Some? ==> u.uncached.Some? && u.read.Some? && u.write.Some? && u.prompt.value == u.uncached.value + u.read.value + u.write.value
  }

  lemma MergeKeepsSum(u: Usage, raw: Option<RawUsage>)
    requires Summed(u)
    ensures Summed(MergeUsage(u, UsageOf(raw)))
  {
  }

  function Entry(key: string, n: Option<nat>): Numbers { if n.Some? then map[key := n.value as real] else map[] }

  function NumbersOf(u: Usage): Numbers {
    Entry("uncached_input_tokens", u.uncached) + Entry("output_tokens", u.output) + Entry("cache_read_tokens", u.read)
    + Entry("cache_write_tokens", u.write) + Entry("prompt_tokens", u.prompt)
  }

  /* ------------------------------------------------------------------ messages */

  /** A reply collects the blocks of all events with its message id. */
  datatype Message =
    | Reply(texts: seq<string>, reasonings: seq<string>, calls: seq<Call>, model: string, usage: Usage, synthetic: bool, at: Option<int>)
    | Outcome(callId: string, content: Json, isError: bool, at: Option<int>)
    | Remark(source: Source, text: string, at: Option<int>)

  predicate HasCall(calls: seq<Call>, id: string) { exists i | 0 <= i < |calls| :: calls[i].id == id }

  /** A call that came before is not taken again. */
  function AddBlock(m: Message, b: Block, at: Option<int>): Message
    requires m.Reply?
  {
    match b
    case TextBlock(text) => m.(texts := m.texts + [text])
    case Thinking(text) => m.(reasonings := m.reasonings + [text])
    case ToolUse(id, name, arguments) =>
      if id == "" || HasCall(m.calls, id) then m
      else m.(calls := m.calls + [Call(id, if name == "" then "tool" else name, arguments, at, None)])
    case ToolOutcome(_, _, _, _) => m
    case OtherBlock => m
  }

  function AddBlocks(m: Message, blocks: seq<Block>, at: Option<int>): (r: Message)
    requires m.Reply?
    ensures r.Reply?
  {
    if blocks == [] then m else AddBlock(AddBlocks(m, blocks[..|blocks| - 1], at), blocks[|blocks| - 1], at)
  }

  /** The local variables of the loop over the events. */
  datatype Session = Session(records: seq<Message>, responses: map<string, nat>, seen: set<string>, linked: map<string, string>, unmapped: nat)

  const EMPTY_SESSION := Session([], map[], {}, map[], 0)

  /** A known response is a reply. */
  predicate Known(s: Session) { forall id | id in s.responses :: s.responses[id] < |s.records| && s.records[s.responses[id]].Reply? }

  function TakeAssistant(s: Session, e: Event): Session
    requires Known(s) && e.body.AssistantEvent?
  {
    var b, usage := e.body, UsageOf(e.body.usage);
    if b.messageId != "" && b.messageId in s.responses then
      var i := s.responses[b.messageId];
      var m := s.records[i];
      s.(records := s.records[i := AddBlocks(if usage.given then m.(usage := MergeUsage(m.usage, usage)) else m, b.blocks, e.at)])
    else
      var m := Reply([], [], [], b.model, MergeUsage(NO_USAGE, usage), b.model == "<synthetic>" || b.apiError, e.at);
      s.(records := s.records + [AddBlocks(m, b.blocks, e.at)],
         responses := if b.messageId == "" then s.responses else s.responses[b.messageId := |s.records|])
  }

  function OutcomeCount(blocks: seq<Block>): nat {
    if blocks == [] then 0 else OutcomeCount(blocks[..|blocks| - 1]) + if blocks[|blocks| - 1].ToolOutcome? then 1 else 0
  }

  /** The results of a user event, and the subagents that they name: the metadata of the event count for a
      single result. */
  function TakeOutcomes(s: Session, blocks: seq<Block>, batch: Note, single: bool, at: Option<int>): Session {
    if blocks == [] then s
    else
      var before, b := TakeOutcomes(s, blocks[..|blocks| - 1], batch, single, at), blocks[|blocks| - 1];
      if !b.ToolOutcome? then before
      else
        var note := if b.note.Absent? && single then batch else b.note;
        before.(records := before.records + [Outcome(b.callId, b.content, b.isError, at)],
                linked := if note.Present? && note.agent.Some? && b.callId != "" then before.linked[b.callId := note.agent.value] else before.linked)
  }

  function PlainTexts(blocks: seq<Block>): seq<string> {
    if blocks == [] then []
    else PlainTexts(blocks[..|blocks| - 1]) + if blocks[|blocks| - 1].TextBlock? then [blocks[|blocks| - 1].text] else []
  }

  function JoinWith(separator: string, texts: seq<string>): string {
    if texts == [] then "" else if |texts| == 1 then texts[0] else JoinWith(separator, texts[..|texts| - 1]) + separator + texts[|texts| - 1]
  }

  predicate HasPlain(blocks: seq<Block>) { exists i | 0 <= i < |blocks| :: !blocks[i].ToolOutcome? }

  function TakeUser(s: Session, e: Event): Session
    requires e.body.UserEvent?
  {
    var b := e.body;
    var after := TakeOutcomes(s, b.blocks, b.batch, OutcomeCount(b.blocks) == 1, e.at);
    if HasPlain(b.blocks) then after.(records := after.records + [Remark(if b.system then System else User, JoinWith("\n", PlainTexts(b.blocks)), e.at)])
    else after
  }

  function TakeBody(s: Session, e: Event): Session
    requires Known(s)
  {
    match e.body
    case AssistantEvent(_, _, _, _, _) => TakeAssistant(s, e)
    case UserEvent(_, _, _) => TakeUser(s, e)
    case SystemEvent(text) => s.(records := s.records + [Remark(System, text, e.at)])
    case OtherEvent(kind) =>
      s.(records := s.records + [Remark(System, "[Claude event: " + kind + "]", e.at)], unmapped := s.unmapped + 1)
    case Bookkeeping => s
  }

  /** A replayed event is not taken again, whatever it says. */
  function TakeEvent(s: Session, e: Event): Session
    requires Known(s)
  {
    if e.uuid.Some? && e.uuid.value in s.seen then s
    else TakeBody(if e.uuid.Some? then s.(seen := s.seen + {e.uuid.value}) else s, e)
  }

  /* ------------------------------------------------------------------ what the loop keeps */

  predicate DistinctIdsOf(calls: seq<Call>) {
    (forall i | 0 <= i < |calls| :: calls[i].id != "") && forall i, j | 0 <= i < j < |calls| :: calls[i].id != calls[j].id
  }

  /** A reply has each call once and counts its prompt from its parts. */
  predicate SoundMessage(m: Message) {
    (m.Reply? ==> DistinctIdsOf(m.calls) && Summed(m.usage)) && (m.Remark? ==> !m.source.Agent?)
  }

  ghost predicate Sound(s: Session) { Known(s) && forall i | 0 <= i < |s.records| :: SoundMessage(s.records[i]) }

  lemma {:induction false} BlocksKeepSound(m: Message, blocks: seq<Block>, at: Option<int>)
    requires m.Reply? && SoundMessage(m)
    ensures SoundMessage(AddBlocks(m, blocks, at))
  {
    if blocks != [] {
      BlocksKeepSound(m, blocks[..|blocks| - 1], at);
    }
  }

  lemma {:induction false} OutcomesKeepSound(s: Session, blocks: seq<Block>, batch: Note, single: bool, at: Option<int>)
    requires Sound(s)
    ensures var after := TakeOutcomes(s, blocks, batch, single, at);
      Sound(after) && |s.records| <= |after.records|
  {
    if blocks != [] {
      OutcomesKeepSound(s, blocks[..|blocks| - 1], batch, single, at);
    }
  }

  lemma FirstReplySound(e: Event)
    requires e.body.AssistantEvent?
    ensures SoundMessage(AddBlocks(Reply([], [], [], e.body.model, MergeUsage(NO_USAGE, UsageOf(e.body.usage)),
                                         e.body.model == "<synthetic>" || e.body.apiError, e.at), e.body.blocks, e.at))
  {
    MergeKeepsSum(NO_USAGE, e.body.usage);
    BlocksKeepSound(Reply([], [], [], e.body.model, MergeUsage(NO_USAGE, UsageOf(e.body.usage)),
                          e.body.model == "<synthetic>" || e.body.apiError, e.at), e.body.blocks, e.at);
  }

  lemma MergedReplySound(m: Message, e: Event)
    requires e.body.AssistantEvent? && m.Reply? && SoundMessage(m)
    ensures var usage := UsageOf(e.body.usage);
      SoundMessage(AddBlocks(if usage.given then m.(usage := MergeUsage(m.usage, usage)) else m, e.body.blocks, e.at))
  {
    MergeKeepsSum(m.usage, e.body.usage);
    var usage := UsageOf(e.body.usage);
    BlocksKeepSound(if usage.given then m.(usage := MergeUsage(m.usage, usage)) else m, e.body.blocks, e.at);
  }

  lemma AssistantKeepsSound(s: Session, e: Event)
    requires Sound(s) && e.body.AssistantEvent?
    ensures Sound(TakeAssistant(s, e))
  {
    FirstReplySound(e);
    if e.body.messageId in s.responses {
      MergedReplySound(s.records[s.responses[e.body.messageId]], e);
    }
  }

  lemma UserKeepsSound(s: Session, e: Event)
    requires Sound(s) && e.body.UserEvent?
    ensures Sound(TakeUser(s, e))
  {
    OutcomesKeepSound(s, e.body.blocks, e.body.batch, OutcomeCount(e.body.blocks) == 1, e.at);
  }

  lemma EventKeepsSound(s: Session, e: Event)
    requires Sound(s)
    ensures Sound(TakeEvent(s, e))
  {
    var seen := if e.uuid.Some? then s.(seen := s.seen + {e.uuid.value}) else s;
    assert Sound(seen);
    if e.body.AssistantEvent? {
      AssistantKeepsSound(seen, e);
    } else if e.body.UserEvent? {
      UserKeepsSound(seen, e);
    }
  }

  function SessionOf(events: seq<Event>): (s: Session)
    ensures Sound(s)
  {
    if events == [] then EMPTY_SESSION
    else
      EventKeepsSound(SessionOf(events[..|events| - 1]), events[|events| - 1]);
      TakeEvent(SessionOf(events[..|events| - 1]), events[|events| - 1])
  }

  /* ------------------------------------------------------------------ the program */

  method TakeBlocks(m: Message, blocks: seq<Block>, at: Option<int>) returns (r: Message)
    requires m.Reply?
    ensures r == AddBlocks(m, blocks, at)
  {
    r := m;
    assert blocks[..0] == [];
    for i := 0 to |blocks|
      invariant r == AddBlocks(m, blocks[..i], at)
    {
      assert blocks[..i + 1][..i] == blocks[..i];
      r := AddBlock(r, blocks[i], at);
    }
    assert blocks[..|blocks|] == blocks;
  }

  method TakeResults(s: Session, blocks: seq<Block>, batch: Note, single: bool, at: Option<int>) returns (r: Session)
    ensures r == TakeOutcomes(s, blocks, batch, single, at)
  {
    r := s;
    assert blocks[..0] == [];
    for i := 0 to |blocks|
      invariant r == TakeOutcomes(s, blocks[..i], batch, single, at)
    {
      assert blocks[..i + 1][..i] == blocks[..i];
      var b := blocks[i];
      if b.ToolOutcome? {
        r := r.(records := r.records + [Outcome(b.callId, b.content, b.isError, at)]);
        var note := if b.note.Absent? && single then batch else b.note;
        if note.Present? && note.agent.Some? && b.callId != "" {
          r := r.(linked := r.linked[b.callId := note.agent.value]);
        }
      }
    }
    assert blocks[..|blocks|] == blocks;
  }

  /** The loop over the events. */
  method Normalize(events: seq<Event>) returns (s: Session)
    ensures s == SessionOf(events)
  {
    s := EMPTY_SESSION;
    assert events[..0] == [];
    for i := 0 to |events|
      invariant s == SessionOf(events[..i])
    {
      assert events[..i + 1][..i] == events[..i];
      var e := events[i];
      if e.uuid.Some? {
        if e.uuid.value in s.seen {
          continue;
        }
        s := s.(seen := s.seen + {e.uuid.value});
      }
      match e.body {
        case AssistantEvent(messageId, model, apiError, raw, blocks) =>
          var usage := UsageOf(raw);
          if messageId != "" && messageId in s.responses {
            var at := s.responses[messageId];
            var m := s.records[at];
            if usage.given {
              m := m.(usage := MergeUsage(m.usage, usage));
            }
            m := TakeBlocks(m, blocks, e.at);
            s := s.(records := s.records[at := m]);
          } else {
            var m := Reply([], [], [], model, MergeUsage(NO_USAGE, usage), model == "<synthetic>" || apiError, e.at);
            m := TakeBlocks(m, blocks, e.at);
            s := s.(records := s.records + [m], responses := if messageId == "" then s.responses else s.responses[messageId := |s.records|]);
          }
        case UserEvent(blocks, batch, system) =>
          s := TakeResults(s, blocks, batch, OutcomeCount(blocks) == 1, e.at);
          if HasPlain(blocks) {
            s := s.(records := s.records + [Remark(if system then System else User, JoinWith("\n", PlainTexts(blocks)), e.at)]);
          }
        case SystemEvent(text) =>
          s := s.(records := s.records + [Remark(System, text, e.at)]);
        case OtherEvent(kind) =>
          s := s.(records := s.records + [Remark(System, "[Claude event: " + kind + "]", e.at)], unmapped := s.unmapped + 1);
        case Bookkeeping =>
      }
    }
    assert events[..|events|] == events;
  }

  /* ------------------------------------------------------------------ replays and coalescing */

  /** An event that was taken before changes nothing, wherever it comes again. */
  lemma ReplayChangesNothing(events: seq<Event>, more: seq<Event>, e: Event)
    requires e.uuid.Some? && (exists i | 0 <= i < |events| :: events[i].uuid == e.uuid)
    ensures SessionOf(events + [e]) == SessionOf(events)
  {
    var i :| 0 <= i < |events| && events[i].uuid == e.uuid;
    SeenStays(events, i);
    assert (events + [e])[..|events|] == events;
  }

  lemma TakeSees(s: Session, e: Event)
    requires Known(s)
    ensures s.seen <= TakeEvent(s, e).seen && (e.uuid.Some? ==> e.uuid.value in TakeEvent(s, e).seen)
  {
    if e.body.UserEvent? {
      OutcomesSee(if e.uuid.Some? then s.(seen := s.seen + {e.uuid.value}) else s, e.body.blocks, e.body.batch, OutcomeCount(e.body.blocks) == 1, e.at);
    }
  }

  lemma {:induction false} OutcomesSee(s: Session, blocks: seq<Block>, batch: Note, single: bool, at: Option<int>)
    ensures TakeOutcomes(s, blocks, batch, single, at).seen == s.seen
  {
    if blocks != [] {
      OutcomesSee(s, blocks[..|blocks| - 1], batch, single, at);
    }
  }

  lemma {:induction false} SeenStays(events: seq<Event>, i: nat)
    requires i < |events| && events[i].uuid.Some?
    ensures events[i].uuid.value in SessionOf(events).seen
  {
    var n := |events| - 1;
    TakeSees(SessionOf(events[..n]), events[n]);
    if i < n {
      SeenStays(events[..n], i);
    }
  }

  /* ------------------------------------------------------------------ steps */

  function RecordOf(m: Message): Record {
    match m
    case Reply(texts, reasonings, calls, model, usage, synthetic, at) =>
      Assistant(JoinWith("\n", texts), JoinWith("\n\n", reasonings), calls, Times(at, None, None, None, "", false),
                if synthetic then map[] else NumbersOf(usage), !synthetic && usage.given, map[], model, synthetic)
    case Outcome(callId, content, isError, at) => ToolResult(callId, content, isError, Times(at, None, None, None, "", false))
    case Remark(source, text, at) => Plain(source, text, Times(at, None, None, None, "", false))
  }

  function RecordsOf(s: seq<Message>): (r: seq<Record>)
    ensures |r| == |s| && forall i | 0 <= i < |s| :: r[i] == RecordOf(s[i])
  {
    seq(|s|, i requires 0 <= i < |s| => RecordOf(s[i]))
  }

  /** The steps of the shared adapter, with the model, without cached tokens that have no prompt, and without
      metrics and reasoning when no model was called. */
  function BuildStep(rec: Record, id: int, cfg: Config): Option<Made> {
    match rec
    case Plain(_, _, _) => Some(PlainStep(rec, id, cfg))
    case Assistant(_, _, _, _, _, _, _, model, synthetic) =>
      var made := AssistantStep(rec, id, cfg);
      var named := if model != "" then made.step.(model := Some(model)) else made.step;
      var metered := if named.metrics.Some? && named.metrics.value.prompt.None? then named.(metrics := Some(named.metrics.value.(cached := None))) else named;
      Some(Made(if synthetic then metered.(llmCalls := Some(0), metrics := None, reasoning := None) else metered, made.meta))
    case _ => None
  }

  function Build(cfg: Config): Builder { (rec: Record, id: int) => BuildStep(rec, id, cfg) }

  lemma BuiltByBuild(rec: Record, id: int, cfg: Config)
    requires BuildStep(rec, id, cfg).Some?
    ensures BuiltStep(BuildStep(rec, id, cfg).value, id)
  {
  }

  lemma BuildBuilds(cfg: Config)
    ensures BuildsSteps(Build(cfg))
  {
    forall rec: Record, id | !rec.ToolResult? && Build(cfg)(rec, id).Some?
      ensures BuiltStep(Build(cfg)(rec, id).value, id)
    {
      BuiltByBuild(rec, id, cfg);
    }
  }

  /** A step that the repair will accept, whatever results are attached to it. */
  predicate SoundStep(s: Step) {
    && s.message.Str? && DistinctCalls(s.calls) && (forall i | 0 <= i < |s.calls| :: s.calls[i].id != "")
    && (!s.source.Agent? ==> s.model.None? && s.reasoning.None? && s.calls == [] && s.metrics.None?)
    && (s.metrics.Some? ==> ValidMetrics(s.metrics.value))
    && (s.llmCalls == None || (s.llmCalls == Some(0) && s.metrics.None? && s.reasoning.None?))
    && (s.observation.Some? && s.calls == [] ==> s.metrics.None? && s.reasoning.None?)
    && (forall k | 0 <= k < |Results(s)| :: Results(s)[k].refs == [])
  }

  lemma NumberAt(u: Usage)
    ensures var n := NumbersOf(u);
      && ("prompt_tokens" in n <==> u.prompt.Some?) && (u.prompt.Some? ==> n["prompt_tokens"] == u.prompt.value as real)
      && ("cache_read_tokens" in n <==> u.read.Some?) && (u.read.Some? ==> n["cache_read_tokens"] == u.read.value as real)
      && ("output_tokens" in n <==> u.output.Some?) && (u.output.Some? ==> n["output_tokens"] == u.output.value as real)
      && n.Keys <= {"uncached_input_tokens", "output_tokens", "cache_read_tokens", "cache_write_tokens", "prompt_tokens"}
  {
  }

  lemma TruncNat(n: nat)
    ensures Trunc(n as real) == n
  {
  }

  lemma FirstStep(n: Numbers, keys: seq<string>)
    requires keys != []
    ensures First(n, keys) == if keys[0] in n then Some(n[keys[0]]) else First(n, keys[1..])
  {
  }

  lemma FirstOfTwo(n: Numbers, a: string, b: string)
    ensures First(n, [a, b]) == if a in n then Some(n[a]) else if b in n then Some(n[b]) else None
  {
    FirstStep(n, [a, b]);
    assert [a, b][1..] == [b];
    FirstStep(n, [b]);
    assert [b][1..] == [];
  }

  lemma FirstOfThree(n: Numbers, a: string, b: string, c: string)
    ensures First(n, [a, b, c]) == if a in n then Some(n[a]) else if b in n then Some(n[b]) else if c in n then Some(n[c]) else None
  {
    FirstStep(n, [a, b, c]);
    assert [a, b, c][1..] == [b, c];
    FirstOfTwo(n, b, c);
  }

  lemma FirstOfNone(keys: seq<string>)
    ensures First(map[], keys) == None
  {
  }

  function Count(n: Option<nat>): Option<int> { if n.Some? then Some(n.value) else None }

  lemma PromptOf(u: Usage)
    ensures MetricsOf(NumbersOf(u), map[]).prompt == Count(u.prompt)
  {
    NumberAt(u);
    FirstOfThree(NumbersOf(u), "prompt_tokens", "total_prompt_tokens", "input_tokens");
    FirstOfNone(["context_input_tokens"]);
    if u.prompt.Some? {
      TruncNat(u.prompt.value);
    }
  }

  lemma CompletionOf(u: Usage)
    ensures MetricsOf(NumbersOf(u), map[]).completion == Count(u.output)
  {
    NumberAt(u);
    FirstOfThree(NumbersOf(u), "completion_tokens", "output_tokens", "total_completion_tokens");
    FirstOfNone(["billable_output_tokens"]);
    if u.output.Some? {
      TruncNat(u.output.value);
    }
  }

  lemma CachedOf(u: Usage)
    ensures MetricsOf(NumbersOf(u), map[]).cached == Count(u.read)
  {
    NumberAt(u);
    FirstOfTwo(NumbersOf(u), "cached_tokens", "cache_read_tokens");
    FirstOfNone(["cache_read_tokens"]);
    if u.read.Some? {
      TruncNat(u.read.value);
    }
  }

  lemma CostOf(u: Usage)
    ensures MetricsOf(NumbersOf(u), map[]).cost == None
  {
    NumberAt(u);
    FirstOfTwo(NumbersOf(u), "cost_usd", "total_cost_usd");
    FirstOfNone(["estimated_cost_nanodollars"]);
  }

  /** Cached tokens are among the prompt tokens, because the prompt is the sum of its parts; without a prompt
      they are dropped. */
  lemma UsageGivesValidMetrics(u: Usage)
    requires Summed(u)
    ensures var m := MetricsOf(NumbersOf(u), map[]);
      ValidMetrics(if m.prompt.None? then m.(cached := None) else m)
  {
    PromptOf(u);
    CompletionOf(u);
    CachedOf(u);
    CostOf(u);
  }

  lemma DistinctToolCalls(calls: seq<Call>, cfg: Config)
    requires DistinctIdsOf(calls)
    ensures DistinctCalls(CallsOf(calls, cfg)) && forall i | 0 <= i < |calls| :: CallsOf(calls, cfg)[i].id != ""
  {
  }

  lemma EmptyGivesValidMetrics()
    ensures MetricsOf(map[], map[]) == Metrics(None, None, None, None)
  {
  }

  /** What the metrics of a reply become. */
  lemma ReplyMetrics(m: Message, id: int, cfg: Config)
    requires m.Reply? && SoundMessage(m)
    ensures var s := BuildStep(RecordOf(m), id, cfg).value.step;
      (s.metrics.Some? ==> ValidMetrics(s.metrics.value)) && (m.synthetic ==> s.metrics.None?)
  {
    if m.synthetic {
      EmptyGivesValidMetrics();
    } else {
      UsageGivesValidMetrics(m.usage);
    }
  }

  lemma ReplyCalls(m: Message, id: int, cfg: Config)
    requires m.Reply? && SoundMessage(m)
    ensures var made := BuildStep(RecordOf(m), id, cfg);
      made.Some? && made.value.step.calls == CallsOf(m.calls, cfg) && made.value.step.observation.None? && made.value.step.source.Agent?
      && made.value.step.message.Str?
  {
  }

  lemma ReplySynthetic(m: Message, id: int, cfg: Config)
    requires m.Reply?
    ensures var s := BuildStep(RecordOf(m), id, cfg).value.step;
      if m.synthetic then s.llmCalls == Some(0) && s.reasoning.None? else s.llmCalls.None?
  {
  }

  /** A record of a sound message gives a sound step. */
  lemma SoundStepBuilt(m: Message, id: int, cfg: Config)
    requires SoundMessage(m) && !m.Outcome?
    ensures BuildStep(RecordOf(m), id, cfg).Some? && SoundStep(BuildStep(RecordOf(m), id, cfg).value.step)
  {
    if m.Reply? {
      DistinctToolCalls(m.calls, cfg);
      ReplyMetrics(m, id, cfg);
      ReplyCalls(m, id, cfg);
      ReplySynthetic(m, id, cfg);
    }
  }

  lemma SoundResultStep(rec: Record, id: int, cfg: Config)
    requires rec.ToolResult?
    ensures SoundStep(ResultStep(rec, id, cfg).step)
  {
  }

  lemma SoundAttached(s: Step, rec: Record, cfg: Config)
    requires SoundStep(s) && rec.ToolResult? && s.calls != []
    ensures SoundStep(AttachStep(s, rec, cfg))
  {
    var a := AttachStep(s, rec, cfg);
    forall k | 0 <= k < |Results(a)|
      ensures Results(a)[k].refs == []
    {
      if k < |Results(s)| {
        assert Results(a)[k] == Results(s)[k];
      }
    }
  }

  ghost predicate AllSound(steps: seq<Step>) { forall i | 0 <= i < |steps| :: SoundStep(steps[i]) }

  lemma TakeKeepsSound(st: State, m: Message, cfg: Config)
    requires InStep(st) && AllSound(st.steps) && SoundMessage(m)
    ensures AllSound(TakeRecord(st, RecordOf(m), Build(cfg), cfg).steps)
  {
    var rec := RecordOf(m);
    if IsAttached(st, rec) {
      var slot := st.pending[rec.callId];
      assert IsLatest(st, rec.callId, slot.step);
      SoundAttached(st.steps[slot.step], rec, cfg);
    } else if m.Outcome? {
      SoundResultStep(rec, |st.steps| + 1, cfg);
    } else {
      SoundStepBuilt(m, |st.steps| + 1, cfg);
    }
  }

  lemma {:induction false} RunSound(messages: seq<Message>, cfg: Config)
    requires forall i | 0 <= i < |messages| :: SoundMessage(messages[i])
    ensures AllSound(Run(RecordsOf(messages), Build(cfg), cfg).steps)
  {
    if messages != [] {
      var n := |messages| - 1;
      RunSound(messages[..n], cfg);
      assert RecordsOf(messages)[..n] == RecordsOf(messages[..n]);
      BuildBuilds(cfg);
      RunInStep(RecordsOf(messages[..n]), Build(cfg), cfg);
      TakeKeepsSound(Run(RecordsOf(messages[..n]), Build(cfg), cfg), messages[n], cfg);
    }
  }
}
