/** What the event log says, in terms of its events and values alone: which texts and tool calls it holds, and which
    status the evidence about a call amounts to. */
module AcpLog {
  import opened AcpConvert

  /* ------------------------------------------------------------------ events */

  /** An update that arrived while the prompt was running. */
  predicate Concerns(e: Event) { e.received && e.prompt && e.name == "session/update" }

  predicate Says(e: Event, kind: string) {
    Concerns(e) && e.update.Obj? && "sessionUpdate" in e.update.fields && e.update.fields["sessionUpdate"] == Str(kind)
  }

  /** A chunk can be read if its content is an object, and if a text in it is a string. */
  predicate Readable(d: Fields) {
    && "content" in d && d["content"].Obj?
    && var c := d["content"].fields;
       ("type" in c && c["type"] == Str("text") && "text" in c ==> c["text"].Str?)
  }

  /** The text of a chunk; content of any other type has none. */
  function SaidIn(e: Event): string {
    if e.update.Obj? && "content" in e.update.fields && e.update.fields["content"].Obj? then
      var c := e.update.fields["content"].fields;
      if "type" in c && c["type"] == Str("text") && "text" in c && c["text"].Str? then c["text"].s else ""
    else ""
  }

  function SaidText(events: seq<Event>, kind: string): string {
    if events == [] then ""
    else
      var last := events[|events| - 1];
      SaidText(events[..|events| - 1], kind) + if Says(last, kind) then SaidIn(last) else ""
  }

  const MESSAGE := "agent_message_chunk"
  const THOUGHT := "agent_thought_chunk"

  lemma KindsDiffer()
    ensures MESSAGE != THOUGHT && "tool_call" != "tool_call_update"
    ensures MESSAGE != "tool_call" && THOUGHT != "tool_call" && MESSAGE != "tool_call_update" && THOUGHT != "tool_call_update"
  {
    assert MESSAGE[6] == 'm' && THOUGHT[6] == 't' && "tool_call"[0] == 't' && "tool_call_update"[0] == 't';
    assert MESSAGE[0] == 'a' && THOUGHT[0] == 'a';
    assert |"tool_call"| != |"tool_call_update"|;
  }

  lemma ChunkExactly(d: Fields)
    ensures ChunkIn(d).Some? <==> Readable(d)
  {
  }

  /** What a chunk adds is its text, to the message or to the reasoning. */
  lemma ChunkSays(e: Event)
    requires (Says(e, MESSAGE) || Says(e, THOUGHT)) && Readable(e.update.fields)
    ensures ChunkIn(e.update.fields) == Some(Chunk(if Says(e, MESSAGE) then MessageText else Reasoning, SaidIn(e)))
  {
  }

  lemma TextsInSays(e: Event)
    requires Says(e, MESSAGE) || Says(e, THOUGHT) ==> Readable(e.update.fields)
    ensures TextsIn(e, MessageText) == if Says(e, MESSAGE) then [SaidIn(e)] else []
    ensures TextsIn(e, Reasoning) == if Says(e, THOUGHT) then [SaidIn(e)] else []
  {
    KindsDiffer();
    if Says(e, MESSAGE) || Says(e, THOUGHT) {
      ChunkSays(e);
    }
  }

  lemma AcceptedIsReadable(s: Scan, e: Event, session: string, format: Format)
    requires ScanStep(s, e, session, format).Some?
    ensures Says(e, MESSAGE) || Says(e, THOUGHT) ==> Readable(e.update.fields)
  {
    if Says(e, MESSAGE) || Says(e, THOUGHT) {
      ChunkExactly(e.update.fields);
    }
  }

  lemma JoinOne(texts: seq<string>, adds: bool, text: string)
    ensures Join(texts + if adds then [text] else []) == Join(texts) + if adds then text else ""
  {
    if adds {
      assert (texts + [text])[..|texts|] == texts;
    } else {
      assert texts + [] == texts;
    }
  }

  /** The texts of an accepted log are what its events say. */
  lemma {:induction false} TextsAreSaid(events: seq<Event>, session: string, format: Format)
    requires ScanAll(events, session, format).Some?
    ensures Join(ChunkTexts(events, MessageText)) == SaidText(events, MESSAGE)
    ensures Join(ChunkTexts(events, Reasoning)) == SaidText(events, THOUGHT)
  {
    if events != [] {
      var init, e := events[..|events| - 1], events[|events| - 1];
      TextsAreSaid(init, session, format);
      AcceptedIsReadable(ScanAll(init, session, format).value, e, session, format);
      TextsInSays(e);
      JoinOne(ChunkTexts(init, MessageText), Says(e, MESSAGE), SaidIn(e));
      JoinOne(ChunkTexts(init, Reasoning), Says(e, THOUGHT), SaidIn(e));
    }
  }

  /* ------------------------------------------------------------------ tool calls */

  /** The updates of one call are its announcements and updates. */
  lemma UpdatesExactly(e: Event, id: Json)
    ensures UpdatesIn(e, id) ==
      if (Says(e, "tool_call") || Says(e, "tool_call_update")) && "toolCallId" in e.update.fields && e.update.fields["toolCallId"] == id
      then [e.update.fields] else []
  {
  }

  /** What an event adds to the order of things: a text, or a call that was not announced before. */
  function ItemIn(before: seq<Event>, e: Event): seq<Item> {
    if Says(e, MESSAGE) then [Chunk(MessageText, SaidIn(e))]
    else if Says(e, THOUGHT) then [Chunk(Reasoning, SaidIn(e))]
    else if Says(e, "tool_call") && "toolCallId" in e.update.fields && UpdatesOf(before, e.update.fields["toolCallId"]) == []
    then [Tool(e.update.fields["toolCallId"])]
    else []
  }

  function ItemsOf(events: seq<Event>): seq<Item> {
    if events == [] then []
    else ItemsOf(events[..|events| - 1]) + ItemIn(events[..|events| - 1], events[|events| - 1])
  }

  lemma StepItems(before: seq<Event>, s: Scan, e: Event, session: string, format: Format)
    requires ScanStep(s, e, session, format).Some?
    requires forall id :: id in s.updates <==> UpdatesOf(before, id) != []
    ensures ScanStep(s, e, session, format).value.items == s.items + ItemIn(before, e)
  {
    KindsDiffer();
    AcceptedIsReadable(s, e, session, format);
    var after := ScanStep(s, e, session, format).value;
    if Says(e, MESSAGE) || Says(e, THOUGHT) {
      ChunkSays(e);
      assert after == s.(items := s.items + [ChunkOf(e.update.fields, format).value]);
    } else if Says(e, "tool_call") && UpdatesOf(before, e.update.fields["toolCallId"]) == [] {
      assert after.items == s.items + [Tool(e.update.fields["toolCallId"])];
    } else {
      assert after.items == s.items;
    }
  }

  /** Texts and first announcements stand in the order of their events. */
  lemma {:induction false} ItemsAreSaid(events: seq<Event>, session: string, format: Format)
    requires ScanAll(events, session, format).Some?
    ensures ScanAll(events, session, format).value.items == ItemsOf(events)
  {
    if events != [] {
      var init, e := events[..|events| - 1], events[|events| - 1];
      var s := ScanAll(init, session, format).value;
      ItemsAreSaid(init, session, format);
      forall id ensures id in s.updates <==> UpdatesOf(init, id) != [] {
        ScanUpdates(init, session, format, id);
      }
      StepItems(init, s, e, session, format);
    }
  }

  /* ------------------------------------------------------------------ steps */

  /** A step says one block: its texts, and its calls with their observations. */
  predicate StepSays(step: Step, index: nat, b: Block) {
    && step.id == index + 2 && step.source.Agent?
    && step.message == Join(Texts(b.chunks, MessageText))
    && (step.reasoning.Some? <==> exists c :: c in b.chunks && c.Chunk? && c.field.Reasoning?)
    && (step.reasoning.Some? ==> step.reasoning.value == Join(Texts(b.chunks, Reasoning)))
    && |step.calls| == |step.observations| == |b.tools|
    && forall k | 0 <= k < |b.tools| :: step.calls[k].id == b.tools[k] == step.observations[k].source
  }

  lemma {:induction false} AnyText(items: seq<Item>, field: Field)
    ensures Texts(items, field) != [] <==> exists c :: c in items && c.Chunk? && c.field == field
  {
    if items != [] {
      AnyText(items[..|items| - 1], field);
      assert items == items[..|items| - 1] + [items[|items| - 1]];
    }
  }

  /** The steps of a projection: the instruction, and one step for each maximal block of texts and calls in the log;
      all texts are there in order. */
  lemma StepsSayLog(steps: seq<Step>, instruction: string, events: seq<Event>, session: string, format: Format)
    requires ScanAll(events, session, format).Some?
    requires IsProjection(steps, instruction, ScanAll(events, session, format).value, format)
    ensures steps != [] && steps[0] == Step(1, User, instruction, None, [], [])
    ensures var b := Blocks(ItemsOf(events));
      && Flatten(b) == ItemsOf(events) && Maximal(b) && |steps| == |b| + 1
      && forall j | 0 <= j < |b| :: StepSays(steps[j + 1], j, b[j])
    ensures MessagesOf(steps[1..]) == SaidText(events, MESSAGE)
    ensures ReasoningsOf(steps[1..]) == SaidText(events, THOUGHT)
  {
    var scan := ScanAll(events, session, format).value;
    ItemsAreSaid(events, session, format);
    BlocksAreMaximal(ItemsOf(events));
    var b := Blocks(ItemsOf(events));
    forall j | 0 <= j < |b| ensures StepSays(steps[j + 1], j, b[j]) {
      assert StepOf(steps[j + 1], j, b[j], scan.updates, format);
      AnyText(b[j].chunks, Reasoning);
    }
    ProjectionConserves(steps, instruction, events, session, format);
    TextsAreSaid(events, session, format);
  }

  /* ------------------------------------------------------------------ values */

  /** Python takes these values for false. */
  const EMPTY_VALUES: set<Json> := {Null, Bool(false), Int(0), Float(0.0), Str(""), Arr([]), Obj(map[])}

  lemma TruthyExactly(j: Json)
    ensures Truthy(j) <==> j !in EMPTY_VALUES
  {
  }

  /* ------------------------------------------------------------------ evidence about a call */

  predicate Has(d: Fields, key: string, value: Json) { key in d && d[key] == value }

  predicate HasAny(d: Fields, key: string) { key in d && d[key] != Null }

  /** The exit code; the first spelling counts if it is there at all. */
  predicate Exits(d: Fields, code: int) {
    Has(d, "exitCode", Int(code)) || ("exitCode" !in d && Has(d, "exit_code", Int(code)))
  }

  datatype Sign = BadExit | Signalled | Interrupted | Denied | ToolError

  /** Signs of failure in what a tool of codebuddy returned. */
  ghost predicate Shows(d: Fields, sign: Sign) {
    match sign
    case BadExit => exists code :: code != 0 && Exits(d, code)
    case Signalled => HasAny(d, "signal")
    case Interrupted => Has(d, "interrupted", Bool(true))
    case Denied => Has(d, "sandboxDenied", Bool(true))
    case ToolError => HasAny(d, "tool_error_code") && !Has(d, "tool_error_code", Int(0)) && !Has(d, "tool_error_code", Str("0"))
  }

  ghost predicate Fails(native: Json) { native.Obj? && exists sign :: Shows(native.fields, sign) }

  /** What is known of a call; what is absent is null.  `response` and `business` come from the metadata. */
  datatype Known = Known(agent: Json, name: Json, kind: Json, raw: Json, response: Json, business: Json)
  {
    /** What the tool returned: the raw response, or the raw output if there is none. */
    function Returned(): Json { if response != Null then response else raw }
  }

  function ValueAt(d: Fields, key: string): Json { if key in d then d[key] else Null }

  function KnownOf(state: Fields, metadata: Fields): Known {
    Known(ValueAt(state, "status"), ValueAt(state, "name"), ValueAt(state, "kind"), ValueAt(state, "rawOutput"),
          ValueAt(metadata, "codebuddy.ai/rawResponse"), ValueAt(metadata, "codebuddy.ai/businessFailed"))
  }

  /** A command of the shell, by name, by kind or by what it returned. */
  predicate RunsShell(k: Known, native: Json) {
    || k.name == Str("Bash") || k.kind == Str("execute")
    || (native.Obj? && exists key :: key in ["exitCode", "exit_code", "signal"] && key in native.fields)
  }

  ghost predicate Ended(native: Json) { native.Obj? && "signal" in native.fields && exists code :: Exits(native.fields, code) }

  lemma ExitsExactly(d: Fields)
    ensures NonZero(ExitCode(d)) <==> exists code :: code != 0 && Exits(d, code)
    ensures ExitCode(d).Int? <==> exists code :: Exits(d, code)
  {
    if ExitCode(d).Int? {
      assert Exits(d, ExitCode(d).n);
    }
  }

  lemma FailsExactly(native: Json)
    ensures CodebuddyFailure(native) <==> Fails(native)
  {
    if native.Obj? {
      var d := native.fields;
      ExitsExactly(d);
      if CodebuddyFailure(native) {
        assert Shows(d, BadExit) || Shows(d, Signalled) || Shows(d, Interrupted) || Shows(d, Denied) || Shows(d, ToolError);
      }
    }
  }

  lemma ShellExactly(state: Fields, metadata: Fields, native: Json)
    ensures CodebuddyShell(state, native) <==> RunsShell(KnownOf(state, metadata), native)
    ensures CodebuddyTerminal(native) <==> Ended(native)
  {
    if native.Obj? {
      ExitsExactly(native.fields);
      if exists key :: key in ["exitCode", "exit_code", "signal"] && key in native.fields {
        var key :| key in ["exitCode", "exit_code", "signal"] && key in native.fields;
        assert key == "exitCode" || key == "exit_code" || key == "signal";
      } else {
        assert forall key | key in ["exitCode", "exit_code", "signal"] :: key !in native.fields;
        assert "exitCode" in ["exitCode", "exit_code", "signal"] && "exit_code" in ["exitCode", "exit_code", "signal"];
        assert "signal" in ["exitCode", "exit_code", "signal"];
      }
    }
  }

  /** The status in the codebuddy format.  It is failed if anything says so; it is completed if the agent says so,
      nothing speaks against it, and a command of the shell reports its end. */
  ghost predicate CodebuddySays(k: Known, status: Status) {
    var bad := Fails(k.Returned()) || k.business == Bool(true);
    && (status.FailedCall? <==> bad || k.agent == Str("failed"))
    && (status.Completed? <==> !bad && k.agent == Str("completed") && (RunsShell(k, k.Returned()) ==> Ended(k.Returned())))
  }

  lemma CodebuddyExactly(state: Fields, metadata: Fields)
    ensures CodebuddySays(KnownOf(state, metadata), CodebuddyStatus(state, metadata))
  {
    var native := KnownOf(state, metadata).Returned();
    assert Native(state, metadata) == native;
    FailsExactly(native);
    ShellExactly(state, metadata, native);
  }

  /* ------------------------------------------------------------------ results that report an execution */

  function ValueOf(raw: Json): Json { if raw.Obj? && "value" in raw.fields then raw.fields["value"] else Null }

  /** A result that tells of a process. */
  predicate TellsOfProcess(value: Json) {
    && value.Obj?
    && (|| (exists key :: key in ["exit_code", "signal", "job_id"] && key in value.fields)
        || (exists text :: text in ["running", "exited", "timed_out"] && Has(value.fields, "status", Str(text))))
  }

  predicate IsExecution(k: Known) { k.raw.Obj? && (k.name == Str("bash") || TellsOfProcess(ValueOf(k.raw))) }

  ghost predicate ProcessFailed(value: Json) {
    && value.Obj?
    && (|| Has(value.fields, "status", Str("timed_out")) || HasAny(value.fields, "signal")
        || exists code :: code != 0 && Has(value.fields, "exit_code", Int(code)))
  }

  ghost predicate ProcessExited(value: Json) {
    && value.Obj? && Has(value.fields, "status", Str("exited")) && "signal" in value.fields
    && exists code :: Has(value.fields, "exit_code", Int(code))
  }

  /** A result as the format has it: an error flag, a value and a list of contents. */
  predicate IsResult(raw: Json) {
    && raw.Obj? && "is_error" in raw.fields && raw.fields["is_error"].Bool?
    && "value" in raw.fields && "content" in raw.fields && raw.fields["content"].Arr?
  }

  lemma TellsExactly(value: Json)
    ensures RsiversiExecution(value) <==> TellsOfProcess(value)
  {
    if value.Obj? {
      var keys, texts := ["exit_code", "signal", "job_id"], ["running", "exited", "timed_out"];
      assert keys[0] in keys && keys[1] in keys && keys[2] in keys;
      assert texts[0] in texts && texts[1] in texts && texts[2] in texts;
      if RsiversiExecution(value) {
        if "exit_code" !in value.fields && "signal" !in value.fields && "job_id" !in value.fields {
          assert Has(value.fields, "status", Str(texts[0])) || Has(value.fields, "status", Str(texts[1]))
              || Has(value.fields, "status", Str(texts[2]));
        }
      }
    }
  }

  lemma ProcessExactly(value: Json)
    requires value.Obj?
    ensures var d := value.fields;
      && (ProcessFailed(value) <==> Get(d, "status") == Str("timed_out") || !Get(d, "signal").Null? || NonZero(Get(d, "exit_code")))
      && (ProcessExited(value) <==> Get(d, "status") == Str("exited") && Get(d, "exit_code").Int? && "signal" in d)
  {
    var d := value.fields;
    if Get(d, "exit_code").Int? {
      assert Has(d, "exit_code", Int(d["exit_code"].n));
    }
  }

  /** The status in the rsiversi format.  What the agent does not call completed keeps its status.  Otherwise an
      execution fails or stays open with its process, and any other result with its form and its error flag. */
  ghost predicate RsiversiSays(k: Known, status: Status) {
    var runs, value, agreed := IsExecution(k), ValueOf(k.raw), k.agent == Str("completed");
    && (status.FailedCall? <==>
          || k.agent == Str("failed")
          || (agreed && runs && ProcessFailed(value))
          || (agreed && (runs ==> ProcessExited(value)) && IsResult(k.raw) && Has(k.raw.fields, "is_error", Bool(true))))
    && (status.Completed? <==>
          && agreed && IsResult(k.raw) && Has(k.raw.fields, "is_error", Bool(false))
          && (runs ==> ProcessExited(value) && !ProcessFailed(value)))
  }

  lemma RsiversiExactly(state: Fields, metadata: Fields)
    ensures RsiversiSays(KnownOf(state, metadata), RsiversiStatus(state))
  {
    var raw := ValueAt(state, "rawOutput");
    var value := ValueOf(raw);
    assert Get(state, "rawOutput") == raw;
    TellsExactly(value);
    if value.Obj? {
      ProcessExactly(value);
    }
  }

  /** In the plain format the status is what the agent says. */
  predicate PlainSays(k: Known, status: Status) {
    (status.Completed? <==> k.agent == Str("completed")) && (status.FailedCall? <==> k.agent == Str("failed"))
  }

  ghost predicate StatusSays(k: Known, format: Format, status: Status) {
    match format
    case Acp => PlainSays(k, status)
    case Codebuddy => CodebuddySays(k, status)
    case Rsiversi => RsiversiSays(k, status)
  }

  /** For every format and every state of a call, the reported status is the one that the evidence amounts to. */
  lemma StatusExactly(state: Fields, format: Format)
    ensures StatusSays(KnownOf(state, if Metadata(state).Some? then Metadata(state).value else map[]), format, StatusOf(state, format))
  {
    var metadata := if Metadata(state).Some? then Metadata(state).value else map[];
    CodebuddyExactly(state, metadata);
    RsiversiExactly(state, metadata);
    assert "completed" != "failed" by {
      assert "completed"[0] == 'c' && "failed"[0] == 'f';
    }
  }
}
