/** The projection of a retained event log into agent steps, tool calls and observations. */
module AcpConvert {
  datatype Option<+T> = None | Some(value: T)

  datatype Json =
    | Null
    | Bool(b: bool)
    | Int(n: int)
    | Float(r: real)
    | Str(s: string)
    | Arr(items: seq<Json>)
    | Obj(fields: Fields)
  type Fields = map<string, Json>

  /** `dict.get`: an absent key reads as null. */
  function Get(d: Fields, key: string): Json { if key in d then d[key] else Null }

  /** `dict.get` with the value of another key as the default. */
  function GetEither(d: Fields, key: string, other: string): Json { if key in d then d[key] else Get(d, other) }

  datatype Format = Acp | Codebuddy | Rsiversi

  /* ------------------------------------------------------------------ outcomes */

  datatype Status = Completed | FailedCall | Incomplete

  const META := "_meta"
  const BUSINESS_FAILED := "codebuddy.ai/businessFailed"
  const RAW_RESPONSE := "codebuddy.ai/rawResponse"
  const TOOL_NAME := "codebuddy.ai/toolName"

  function Normalized(state: Fields): Status {
    var status := Get(state, "status");
    if status == Str("completed") then Completed
    else if status == Str("failed") then FailedCall
    else Incomplete
  }

  /** Absent metadata is empty; anything but an object is an error. */
  function Metadata(state: Fields): Option<Fields> {
    match Get(state, META)
    case Null => Some(map[])
    case Obj(fields) => Some(fields)
    case _ => None
  }

  predicate NonZero(code: Json) { code.Int? && code.n != 0 }

  function Native(state: Fields, metadata: Fields): Json {
    var native := Get(metadata, RAW_RESPONSE);
    if native.Null? then Get(state, "rawOutput") else native
  }

  function ExitCode(d: Fields): Json { GetEither(d, "exitCode", "exit_code") }

  /** Evidence that a command failed although its call may be reported as completed. */
  predicate CodebuddyFailure(native: Json) {
    native.Obj? &&
    var d := native.fields;
    || NonZero(ExitCode(d)) || !Get(d, "signal").Null?
    || Get(d, "interrupted") == Bool(true) || Get(d, "sandboxDenied") == Bool(true)
    || (!Get(d, "tool_error_code").Null? && Get(d, "tool_error_code") != Int(0) && Get(d, "tool_error_code") != Str("0"))
  }

  predicate CodebuddyShell(state: Fields, native: Json) {
    || Get(state, "name") == Str("Bash") || Get(state, "kind") == Str("execute")
    || (native.Obj? && ("exitCode" in native.fields || "exit_code" in native.fields || "signal" in native.fields))
  }

  predicate CodebuddyTerminal(native: Json) {
    native.Obj? && ExitCode(native.fields).Int? && "signal" in native.fields
  }

  /** When the codebuddy format reports a completed call. */
  predicate CodebuddyCompleted(state: Fields, metadata: Fields) {
    var native := Native(state, metadata);
    && Normalized(state).Completed?
    && !CodebuddyFailure(native)
    && (CodebuddyShell(state, native) ==> CodebuddyTerminal(native))
    && Get(metadata, BUSINESS_FAILED) != Bool(true)
  }

  predicate RsiversiWellFormed(raw: Json) {
    raw.Obj? && Get(raw.fields, "is_error").Bool? && "value" in raw.fields && Get(raw.fields, "content").Arr?
  }

  predicate RsiversiExecution(value: Json) {
    value.Obj? &&
    ("exit_code" in value.fields || "signal" in value.fields || "job_id" in value.fields ||
     Get(value.fields, "status") in [Str("running"), Str("exited"), Str("timed_out")])
  }

  /** When the rsiversi format reports a completed call. */
  predicate RsiversiCompleted(state: Fields) {
    var raw := Get(state, "rawOutput");
    && Normalized(state).Completed?
    && RsiversiWellFormed(raw)
    && Get(raw.fields, "is_error") == Bool(false)
    && var value := Get(raw.fields, "value");
       (Get(state, "name") == Str("bash") || RsiversiExecution(value)) ==>
         value.Obj? && Get(value.fields, "status") == Str("exited") && Get(value.fields, "exit_code") == Int(0) &&
         "signal" in value.fields && Get(value.fields, "signal").Null?
  }

  /** The status that is reported, the strongest evidence first: a failure, then a business failure, then the
      status of the agent itself, then a shell command without a terminal state. */
  function CodebuddyStatus(state: Fields, metadata: Fields): Status {
    var native := Native(state, metadata);
    if CodebuddyFailure(native) || Get(metadata, BUSINESS_FAILED) == Bool(true) then FailedCall
    else if !Normalized(state).Completed? then Normalized(state)
    else if CodebuddyShell(state, native) && !CodebuddyTerminal(native) then Incomplete
    else Completed
  }

  /** The same for results that report an execution: only a call that the agent completed is looked into. */
  function RsiversiStatus(state: Fields): Status {
    var raw := Get(state, "rawOutput");
    var value := if raw.Obj? then Get(raw.fields, "value") else Null;
    var d: Fields := if value.Obj? then value.fields else map[];
    var runs := raw.Obj? && (Get(state, "name") == Str("bash") || RsiversiExecution(value));
    if !Normalized(state).Completed? then Normalized(state)
    else if runs && (Get(d, "status") == Str("timed_out") || !Get(d, "signal").Null? || NonZero(Get(d, "exit_code"))) then FailedCall
    else if runs && !(Get(d, "status") == Str("exited") && Get(d, "exit_code").Int? && "signal" in d) then Incomplete
    else if !RsiversiWellFormed(raw) then Incomplete
    else if Get(raw.fields, "is_error") == Bool(true) then FailedCall
    else Completed
  }

  /** The reported status of a call; retained metadata are an object or absent. */
  function StatusOf(state: Fields, format: Format): Status {
    match format
    case Acp => Normalized(state)
    case Codebuddy => CodebuddyStatus(state, if Metadata(state).Some? then Metadata(state).value else map[])
    case Rsiversi => RsiversiStatus(state)
  }

  predicate ReportsCompleted(state: Fields, format: Format, metadata: Fields) {
    match format
    case Acp => Normalized(state).Completed?
    case Codebuddy => CodebuddyCompleted(state, metadata)
    case Rsiversi => RsiversiCompleted(state)
  }

  datatype Outcome = Outcome(status: Status, isError: bool)

  method CodebuddyOutcome(state: Fields, metadata: Fields) returns (r: Outcome)
    ensures r.isError <==> !r.status.Completed?
    ensures r.status.Completed? <==> CodebuddyCompleted(state, metadata)
    ensures r.status == CodebuddyStatus(state, metadata)
  {
    var normalized := Normalized(state);
    var status, isError := normalized, !normalized.Completed?;
    var native := Native(state, metadata);
    if native.Obj? {
      var d := native.fields;
      var toolError := Get(d, "tool_error_code");
      if NonZero(ExitCode(d)) || !Get(d, "signal").Null? {
        status, isError := FailedCall, true;
      }
      if Get(d, "interrupted") == Bool(true) || Get(d, "sandboxDenied") == Bool(true) ||
         (!toolError.Null? && !(toolError == Int(0) || toolError == Str("0"))) {
        status, isError := FailedCall, true;
      }
    }
    if CodebuddyShell(state, native) && normalized.Completed? && status.Completed? {
      if !CodebuddyTerminal(native) {
        status, isError := Incomplete, true;
      }
    }
    if Get(metadata, BUSINESS_FAILED) == Bool(true) {
      status, isError := FailedCall, true;
    }
    r := Outcome(status, isError);
  }

  method RsiversiOutcome(state: Fields) returns (r: Outcome)
    ensures r.isError <==> !r.status.Completed?
    ensures r.status.Completed? <==> RsiversiCompleted(state)
    ensures r.status == RsiversiStatus(state)
  {
    var normalized, raw := Normalized(state), Get(state, "rawOutput");
    var status, isError := normalized, !normalized.Completed?;
    if normalized.Completed? && !RsiversiWellFormed(raw) {
      status, isError := Incomplete, true;
    }
    if raw.Obj? {
      isError := isError || Get(raw.fields, "is_error") == Bool(true);
      var value := Get(raw.fields, "value");
      if (Get(state, "name") == Str("bash") || RsiversiExecution(value)) && normalized.Completed? {
        var d: Fields := if value.Obj? then value.fields else map[];
        var code, signal, terminal := Get(d, "exit_code"), Get(d, "signal"), Get(d, "status");
        if terminal == Str("timed_out") || !signal.Null? || NonZero(code) {
          status := FailedCall;
        } else if terminal != Str("exited") || !code.Int? || "signal" !in d {
          status := Incomplete;
        }
        isError := isError || !status.Completed?;
      }
      if isError && status.Completed? {
        status := FailedCall;
      }
    }
    r := Outcome(status, isError);
  }

  /** `None` when the retained metadata is not an object. */
  method OutcomeOf(state: Fields, format: Format) returns (r: Option<Outcome>)
    ensures r.None? <==> format.Codebuddy? && Metadata(state).None?
    ensures r.Some? ==> (r.value.isError <==> !r.value.status.Completed?)
    ensures r.Some? ==> r.value.status == StatusOf(state, format)
    ensures r.Some? && format.Codebuddy? ==> (r.value.status.Completed? <==> CodebuddyCompleted(state, Metadata(state).value))
    ensures r.Some? && !format.Codebuddy? ==> (r.value.status.Completed? <==> ReportsCompleted(state, format, map[]))
  {
    match format {
      case Acp =>
        return Some(Outcome(Normalized(state), !Normalized(state).Completed?));
      case Codebuddy =>
        var metadata := Metadata(state);
        if metadata.None? {
          return None;
        }
        var outcome := CodebuddyOutcome(state, metadata.value);
        return Some(outcome);
      case Rsiversi =>
        var outcome := RsiversiOutcome(state);
        return Some(outcome);
    }
  }

  /* ------------------------------------------------------------------ merging tool updates */

  function NonNull(d: Fields): Fields { map k | k in d && !d[k].Null? :: d[k] }

  predicate Hashable(id: Json) { !id.Arr? && !id.Obj? }

  /** The names are put into a set, which fails for one that cannot be hashed. */
  predicate SameName(name: Json, update: Json) { Hashable(name) && Hashable(update) && name in [Null, update] }

  /** One update of a tool call; `None` when its canonical identity would change. */
  function Merge(state: Fields, update: Fields, format: Format): Option<Fields> {
    if "name" in update && !SameName(Get(state, "name"), update["name"]) then None
    else if !format.Codebuddy? then Some(state + update)
    else if Metadata(state).None? || Metadata(update).None? then None
    else
      var incoming := Metadata(update).value;
      var native := Get(incoming, TOOL_NAME);
      if !native.Null? && (Get(state, "name") !in [Null, native] || Get(update, "name") !in [Null, native]) then None
      else
        var merged := (state + update)[META := Obj(Metadata(state).value + NonNull(incoming))];
        Some(if native.Null? then merged else merged["name" := native])
  }

  /** The in-order fold of the updates of one call. */
  function MergeAll(updates: seq<Fields>, format: Format): Option<Fields> {
    if updates == [] then Some(map[])
    else
      var before := MergeAll(updates[..|updates| - 1], format);
      if before.None? then None else Merge(before.value, updates[|updates| - 1], format)
  }

  lemma MergeKeepsName(state: Fields, update: Fields, format: Format)
    requires Merge(state, update, format).Some? && !Get(state, "name").Null?
    ensures Get(Merge(state, update, format).value, "name") == Get(state, "name")
  {
  }

  /** Once a prefix of the updates has set the canonical name, every longer prefix has the same name. */
  lemma {:induction false} NameIsStable(updates: seq<Fields>, format: Format, k: nat)
    requires k <= |updates| && MergeAll(updates, format).Some?
    ensures MergeAll(updates[..k], format).Some?
    ensures var name := Get(MergeAll(updates[..k], format).value, "name");
      !name.Null? ==> Get(MergeAll(updates, format).value, "name") == name
    decreases |updates|
  {
    if k == |updates| {
      assert updates[..k] == updates;
    } else {
      var init := updates[..|updates| - 1];
      NameIsStable(init, format, k);
      assert init[..k] == updates[..k];
      if !Get(MergeAll(updates[..k], format).value, "name").Null? {
        MergeKeepsName(MergeAll(init, format).value, updates[|updates| - 1], format);
      }
    }
  }

  /* ------------------------------------------------------------------ scanning the log */

  datatype Event = Event(received: bool, prompt: bool, name: string, session: string, update: Json)
  datatype Field = MessageText | Reasoning
  datatype Item = Chunk(field: Field, text: string) | Tool(id: Json)

  /** `items`: text chunks and first announcements, in order; `updates`: what was merged into each call. */
  datatype Scan = Scan(items: seq<Item>, updates: map<Json, seq<Fields>>)

  predicate Relevant(e: Event) { e.received && e.prompt && e.name == "session/update" }

  predicate Truthy(j: Json) {
    match j
    case Null => false
    case Bool(b) => b
    case Int(n) => n != 0
    case Float(r) => r != 0.0
    case Str(s) => s != ""
    case Arr(items) => items != []
    case Obj(fields) => fields != map[]
  }

  /** The text of a content block; `None` for a text block without a string. */
  function BlockText(block: Fields): Option<string> {
    if Get(block, "type") != Str("text") then Some("")
    else if "text" !in block then Some("")
    else if block["text"].Str? then Some(block["text"].s)
    else None
  }

  /** The chunk that an update holds. */
  function ChunkIn(d: Fields): Option<Item> {
    var content := Get(d, "content");
    if !content.Obj? || BlockText(content.fields).None? then None
    else Some(Chunk(if Get(d, "sessionUpdate") == Str("agent_message_chunk") then MessageText else Reasoning,
                    BlockText(content.fields).value))
  }

  /** Codebuddy metadata must be an object, as the model request is looked up there. */
  function ChunkOf(d: Fields, format: Format): Option<Item> {
    if format.Codebuddy? && Metadata(d).None? then None else ChunkIn(d)
  }

  predicate IsChunk(kind: Json) { kind in [Str("agent_message_chunk"), Str("agent_thought_chunk")] }

  function StateOf(updates: seq<Fields>, format: Format): Fields {
    if MergeAll(updates, format).Some? then MergeAll(updates, format).value else map[]
  }

  /** A second announcement is only merged while the same codebuddy call is still running. */
  predicate Reannounced(state: Fields, update: Fields, format: Format) {
    && format.Codebuddy?
    && Get(state, "status") in [Str("pending"), Str("in_progress")]
    && Truthy(Get(state, "name"))
    && Metadata(update).Some? && Get(Metadata(update).value, TOOL_NAME) == Get(state, "name")
  }

  function MergeInto(s: Scan, id: Json, update: Fields, format: Format): Option<Scan>
    requires id in s.updates
  {
    if MergeAll(s.updates[id] + [update], format).None? then None
    else Some(s.(updates := s.updates[id := s.updates[id] + [update]]))
  }

  function ScanStep(s: Scan, e: Event, session: string, format: Format): Option<Scan> {
    if !Relevant(e) then Some(s)
    else if e.session != session || !e.update.Obj? || "sessionUpdate" !in e.update.fields then None
    else
      var d := e.update.fields;
      var kind := d["sessionUpdate"];
      if IsChunk(kind) then
        var chunk := ChunkOf(d, format);
        if chunk.None? then None else Some(s.(items := s.items + [chunk.value]))
      else if kind == Str("tool_call") then
        if "toolCallId" !in d || !Hashable(d["toolCallId"]) then None
        else
          var id := d["toolCallId"];
          if id in s.updates then
            if Reannounced(StateOf(s.updates[id], format), d, format) then MergeInto(s, id, d, format) else None
          else if MergeAll([d], format).None? then None
          else Some(Scan(s.items + [Tool(id)], s.updates[id := [d]]))
      else if kind == Str("tool_call_update") then
        if "toolCallId" !in d || d["toolCallId"] !in s.updates then None
        else MergeInto(s, d["toolCallId"], d, format)
      else Some(s)
  }

  function ScanAll(events: seq<Event>, session: string, format: Format): Option<Scan> {
    if events == [] then Some(Scan([], map[]))
    else
      var before := ScanAll(events[..|events| - 1], session, format);
      if before.None? then None else ScanStep(before.value, events[|events| - 1], session, format)
  }

  /** The announced ids are distinct, and exactly those that have updates; every state is defined. */
  ghost predicate ScanOk(s: Scan, format: Format) {
    && (forall id | id in s.updates :: MergeAll(s.updates[id], format).Some? && Tool(id) in s.items)
    && (forall i | 0 <= i < |s.items| && s.items[i].Tool? :: s.items[i].id in s.updates)
    && (forall i, j | 0 <= i < j < |s.items| && s.items[i].Tool? && s.items[j].Tool? :: s.items[i].id != s.items[j].id)
  }

  lemma {:induction false} ScanAllOk(events: seq<Event>, session: string, format: Format)
    requires ScanAll(events, session, format).Some?
    ensures ScanOk(ScanAll(events, session, format).value, format)
  {
    if events != [] {
      ScanAllOk(events[..|events| - 1], session, format);
      ScanStepOk(ScanAll(events[..|events| - 1], session, format).value, events[|events| - 1], session, format);
    }
  }

  lemma AnnouncedOk(s: Scan, id: Json, d: Fields, format: Format)
    requires ScanOk(s, format) && id !in s.updates && MergeAll([d], format).Some?
    ensures ScanOk(Scan(s.items + [Tool(id)], s.updates[id := [d]]), format)
  {
  }

  lemma MergedOk(s: Scan, id: Json, d: Fields, format: Format)
    requires ScanOk(s, format) && id in s.updates && MergeInto(s, id, d, format).Some?
    ensures ScanOk(MergeInto(s, id, d, format).value, format)
  {
  }

  lemma ChunkedOk(s: Scan, item: Item, format: Format)
    requires ScanOk(s, format) && item.Chunk?
    ensures ScanOk(s.(items := s.items + [item]), format)
  {
    var items := s.items + [item];
    assert forall k | k in s.updates :: Tool(k) in items;
  }

  lemma ScanStepOk(s: Scan, e: Event, session: string, format: Format)
    requires ScanOk(s, format) && ScanStep(s, e, session, format).Some?
    ensures ScanOk(ScanStep(s, e, session, format).value, format)
  {
    var after := ScanStep(s, e, session, format).value;
    if Relevant(e) {
      var d := e.update.fields;
      var kind := d["sessionUpdate"];
      if IsChunk(kind) {
        ChunkedOk(s, ChunkOf(d, format).value, format);
        assert after == s.(items := s.items + [ChunkOf(d, format).value]);
      } else if kind == Str("tool_call") && d["toolCallId"] !in s.updates {
        AnnouncedOk(s, d["toolCallId"], d, format);
        assert after == Scan(s.items + [Tool(d["toolCallId"])], s.updates[d["toolCallId"] := [d]]);
      } else if kind == Str("tool_call") || kind == Str("tool_call_update") {
        MergedOk(s, d["toolCallId"], d, format);
        assert after == MergeInto(s, d["toolCallId"], d, format).value;
      }
    }
  }

  lemma ScanPrefix(events: seq<Event>, session: string, format: Format, k: nat)
    requires k <= |events| && ScanAll(events[..k], session, format).None?
    ensures ScanAll(events, session, format).None?
    decreases |events|
  {
    if k == |events| {
      assert events[..k] == events;
    } else {
      assert events[..|events| - 1][..k] == events[..k];
      ScanPrefix(events[..|events| - 1], session, format, k);
    }
  }

  /* ------------------------------------------------------------------ blocks */

  /** One agent step: its chunks, then its tool calls. */
  datatype Block = Block(chunks: seq<Item>, tools: seq<Json>)

  function AddItem(blocks: seq<Block>, item: Item): seq<Block> {
    var n := |blocks|;
    match item
    case Chunk(_, _) =>
      if n == 0 || blocks[n - 1].tools != [] then blocks + [Block([item], [])]
      else blocks[n - 1 := Block(blocks[n - 1].chunks + [item], [])]
    case Tool(id) =>
      if n == 0 then [Block([], [id])]
      else blocks[n - 1 := Block(blocks[n - 1].chunks, blocks[n - 1].tools + [id])]
  }

  function Blocks(items: seq<Item>): seq<Block> {
    if items == [] then [] else AddItem(Blocks(items[..|items| - 1]), items[|items| - 1])
  }

  function ToolItems(ids: seq<Json>): seq<Item> { seq(|ids|, i requires 0 <= i < |ids| => Tool(ids[i])) }

  function BlockItems(b: Block): seq<Item> { b.chunks + ToolItems(b.tools) }

  function Flatten(blocks: seq<Block>): seq<Item> {
    if blocks == [] then [] else Flatten(blocks[..|blocks| - 1]) + BlockItems(blocks[|blocks| - 1])
  }

  predicate ChunksOnly(items: seq<Item>) { forall i | 0 <= i < |items| :: items[i].Chunk? }

  /** Each block is chunks then tools, and cannot be joined with the next: it ends with a tool and the
      next begins with a chunk. */
  ghost predicate Maximal(blocks: seq<Block>) {
    && (forall i | 0 <= i < |blocks| :: ChunksOnly(blocks[i].chunks) && BlockItems(blocks[i]) != [])
    && (forall i | 0 <= i < |blocks| - 1 :: blocks[i].tools != [])
    && (forall i | 0 < i < |blocks| :: blocks[i].chunks != [])
  }

  lemma AddKeepsMaximal(blocks: seq<Block>, item: Item)
    requires Maximal(blocks)
    ensures Maximal(AddItem(blocks, item))
  {
  }

  lemma BlockGrows(b: Block, c: Block, item: Item)
    requires c == if item.Chunk? then Block(b.chunks + [item], []) else Block(b.chunks, b.tools + [item.id])
    requires item.Chunk? ==> b.tools == []
    ensures BlockItems(c) == BlockItems(b) + [item]
  {
  }

  lemma GrownFlattens(init: seq<Block>, last: Block, grown: Block, item: Item)
    requires BlockItems(grown) == BlockItems(last) + [item]
    ensures Flatten(init + [grown]) == Flatten(init + [last]) + [item]
  {
  }

  lemma OpenedFlattens(blocks: seq<Block>, item: Item)
    ensures var single := if item.Chunk? then Block([item], []) else Block([], [item.id]);
      Flatten(blocks + [single]) == Flatten(blocks) + [item]
  {
  }

  lemma AddFlattens(blocks: seq<Block>, item: Item)
    ensures Flatten(AddItem(blocks, item)) == Flatten(blocks) + [item]
  {
    var after := AddItem(blocks, item);
    if |after| > |blocks| {
      OpenedFlattens(blocks, item);
      assert after == blocks + [if item.Chunk? then Block([item], []) else Block([], [item.id])];
    } else {
      var init, last, grown := blocks[..|blocks| - 1], blocks[|blocks| - 1], after[|blocks| - 1];
      BlockGrows(last, grown, item);
      GrownFlattens(init, last, grown, item);
      assert after == init + [grown] && blocks == init + [last];
    }
  }

  lemma AddKeepsDecomposition(blocks: seq<Block>, items: seq<Item>, item: Item)
    requires Flatten(blocks) == items && Maximal(blocks)
    ensures Flatten(AddItem(blocks, item)) == items + [item] && Maximal(AddItem(blocks, item))
  {
    AddKeepsMaximal(blocks, item);
    AddFlattens(blocks, item);
  }

  /** The steps of a log are its maximal chunk-then-tool blocks: nothing lost, repeated or moved. */
  lemma {:induction false} BlocksAreMaximal(items: seq<Item>)
    ensures Flatten(Blocks(items)) == items && Maximal(Blocks(items))
  {
    if items != [] {
      var init, last := items[..|items| - 1], items[|items| - 1];
      BlocksAreMaximal(init);
      AddKeepsDecomposition(Blocks(init), init, last);
      assert init + [last] == items;
    }
  }

  function AddAll(blocks: seq<Block>, items: seq<Item>): seq<Block> {
    if items == [] then blocks else AddItem(AddAll(blocks, items[..|items| - 1]), items[|items| - 1])
  }

  lemma {:induction false} BlocksAppend(a: seq<Item>, b: seq<Item>)
    ensures Blocks(a + b) == AddAll(Blocks(a), b)
  {
    if b == [] {
      assert a + b == a;
    } else {
      BlocksAppend(a, b[..|b| - 1]);
      assert (a + b)[..|a + b| - 1] == a + b[..|b| - 1];
    }
  }

  lemma {:induction false} AddAllAppend(blocks: seq<Block>, a: seq<Item>, b: seq<Item>)
    ensures AddAll(blocks, a + b) == AddAll(AddAll(blocks, a), b)
  {
    if b == [] {
      assert a + b == a;
    } else {
      AddAllAppend(blocks, a, b[..|b| - 1]);
      assert (a + b)[..|a + b| - 1] == a + b[..|b| - 1];
    }
  }

  lemma {:induction false} AddChunks(blocks: seq<Block>, chunks: seq<Item>)
    requires ChunksOnly(chunks) && chunks != [] && (blocks == [] || blocks[|blocks| - 1].tools != [])
    ensures AddAll(blocks, chunks) == blocks + [Block(chunks, [])]
  {
    var init, last := chunks[..|chunks| - 1], chunks[|chunks| - 1];
    if init == [] {
      assert chunks == [last];
    } else {
      AddChunks(blocks, init);
      assert init + [last] == chunks;
    }
  }

  lemma {:induction false} AddTools(blocks: seq<Block>, chunks: seq<Item>, tools: seq<Json>)
    requires chunks != [] || (blocks == [] && tools != [])
    ensures AddAll(if chunks == [] then [] else blocks + [Block(chunks, [])], ToolItems(tools)) == blocks + [Block(chunks, tools)]
  {
    if tools != [] {
      var init, last := tools[..|tools| - 1], tools[|tools| - 1];
      assert ToolItems(tools)[..|tools| - 1] == ToolItems(init);
      assert tools == init + [last];
      if chunks != [] || init != [] {
        AddTools(blocks, chunks, init);
      } else {
        assert ToolItems(init) == [];
      }
    } else {
      assert ToolItems(tools) == [];
    }
  }

  /** There is only one such decomposition: rebuilding it from its items gives it back. */
  lemma {:induction false} MaximalIsUnique(blocks: seq<Block>)
    requires Maximal(blocks)
    ensures Blocks(Flatten(blocks)) == blocks
  {
    if blocks != [] {
      var init, last := blocks[..|blocks| - 1], blocks[|blocks| - 1];
      MaximalIsUnique(init);
      BlocksAppend(Flatten(init), BlockItems(last));
      AddAllAppend(init, last.chunks, ToolItems(last.tools));
      assert last.chunks == [] ==> init == [];
      if last.chunks != [] {
        AddChunks(init, last.chunks);
      } else {
        assert ToolItems(last.tools) == BlockItems(last);
      }
      AddTools(init, last.chunks, last.tools);
      assert blocks == init + [last];
    }
  }

  /* ------------------------------------------------------------------ texts and tools of a log */

  function Texts(items: seq<Item>, field: Field): seq<string> {
    if items == [] then []
    else
      var last := items[|items| - 1];
      Texts(items[..|items| - 1], field) + if last.Chunk? && last.field == field then [last.text] else []
  }

  function Join(texts: seq<string>): string {
    if texts == [] then "" else Join(texts[..|texts| - 1]) + texts[|texts| - 1]
  }

  function ToolIds(items: seq<Item>): seq<Json> {
    if items == [] then []
    else
      var last := items[|items| - 1];
      ToolIds(items[..|items| - 1]) + if last.Tool? then [last.id] else []
  }

  function BlockTexts(blocks: seq<Block>, field: Field): string {
    if blocks == [] then ""
    else BlockTexts(blocks[..|blocks| - 1], field) + Join(Texts(blocks[|blocks| - 1].chunks, field))
  }

  function BlockTools(blocks: seq<Block>): seq<Json> {
    if blocks == [] then [] else BlockTools(blocks[..|blocks| - 1]) + blocks[|blocks| - 1].tools
  }

  lemma {:induction false} TextsAppend(a: seq<Item>, b: seq<Item>, field: Field)
    ensures Texts(a + b, field) == Texts(a, field) + Texts(b, field)
  {
    if b == [] {
      assert a + b == a;
    } else {
      TextsAppend(a, b[..|b| - 1], field);
      assert (a + b)[..|a + b| - 1] == a + b[..|b| - 1];
    }
  }

  lemma {:induction false} ToolIdsAppend(a: seq<Item>, b: seq<Item>)
    ensures ToolIds(a + b) == ToolIds(a) + ToolIds(b)
  {
    if b == [] {
      assert a + b == a;
    } else {
      ToolIdsAppend(a, b[..|b| - 1]);
      assert (a + b)[..|a + b| - 1] == a + b[..|b| - 1];
    }
  }

  lemma {:induction false} JoinAppend(a: seq<string>, b: seq<string>)
    ensures Join(a + b) == Join(a) + Join(b)
  {
    if b == [] {
      assert a + b == a;
    } else {
      JoinAppend(a, b[..|b| - 1]);
      assert (a + b)[..|a + b| - 1] == a + b[..|b| - 1];
    }
  }

  lemma {:induction false} ToolItemsTexts(ids: seq<Json>, field: Field)
    ensures Texts(ToolItems(ids), field) == [] && ToolIds(ToolItems(ids)) == ids
  {
    if ids != [] {
      ToolItemsTexts(ids[..|ids| - 1], field);
      assert ToolItems(ids)[..|ids| - 1] == ToolItems(ids[..|ids| - 1]);
    }
  }

  lemma {:induction false} ChunkTools(chunks: seq<Item>)
    requires ChunksOnly(chunks)
    ensures ToolIds(chunks) == []
  {
    if chunks != [] {
      ChunkTools(chunks[..|chunks| - 1]);
    }
  }

  lemma BlockItemsTexts(b: Block, field: Field)
    requires ChunksOnly(b.chunks)
    ensures Texts(BlockItems(b), field) == Texts(b.chunks, field) && ToolIds(BlockItems(b)) == b.tools
  {
    TextsAppend(b.chunks, ToolItems(b.tools), field);
    ToolIdsAppend(b.chunks, ToolItems(b.tools));
    ToolItemsTexts(b.tools, field);
    ChunkTools(b.chunks);
  }

  /** The steps carry every text and every tool call of the log, once and in order. */
  lemma {:induction false} BlocksConserve(blocks: seq<Block>, field: Field)
    requires forall i | 0 <= i < |blocks| :: ChunksOnly(blocks[i].chunks)
    ensures BlockTexts(blocks, field) == Join(Texts(Flatten(blocks), field))
    ensures BlockTools(blocks) == ToolIds(Flatten(blocks))
  {
    if blocks != [] {
      var init, last := blocks[..|blocks| - 1], blocks[|blocks| - 1];
      BlocksConserve(init, field);
      BlockItemsTexts(last, field);
      TextsAppend(Flatten(init), BlockItems(last), field);
      ToolIdsAppend(Flatten(init), BlockItems(last));
      JoinAppend(Texts(Flatten(init), field), Texts(last.chunks, field));
    }
  }

  predicate Distinct(ids: seq<Json>) { forall i, j | 0 <= i < j < |ids| :: ids[i] != ids[j] }

  lemma {:induction false} ToolIdsOfScan(items: seq<Item>)
    requires forall i, j | 0 <= i < j < |items| && items[i].Tool? && items[j].Tool? :: items[i].id != items[j].id
    ensures Distinct(ToolIds(items))
    ensures forall id :: id in ToolIds(items) <==> Tool(id) in items
  {
    if items != [] {
      var init, last := items[..|items| - 1], items[|items| - 1];
      ToolIdsOfScan(init);
      assert last.Tool? ==> last !in init;
      assert forall id :: Tool(id) in items <==> Tool(id) in init || Tool(id) == last;
    }
  }

  /** Every announced call occurs in exactly one step: the tool ids of the steps, in order, list the
      announced ids without repetition. */
  lemma AnnouncedOnce(events: seq<Event>, session: string, format: Format)
    requires ScanAll(events, session, format).Some?
    ensures var scan := ScanAll(events, session, format).value;
      && Distinct(BlockTools(Blocks(scan.items)))
      && (forall id :: id in BlockTools(Blocks(scan.items)) <==> id in scan.updates)
      && BlockTexts(Blocks(scan.items), MessageText) == Join(Texts(scan.items, MessageText))
      && BlockTexts(Blocks(scan.items), Reasoning) == Join(Texts(scan.items, Reasoning))
  {
    var scan := ScanAll(events, session, format).value;
    ScanAllOk(events, session, format);
    BlocksAreMaximal(scan.items);
    BlocksConserve(Blocks(scan.items), MessageText);
    BlocksConserve(Blocks(scan.items), Reasoning);
    ToolIdsOfScan(scan.items);
  }

  /* ------------------------------------------------------------------ the conversion */

  datatype ToolCall = ToolCall(id: Json, name: Json, title: Json, arguments: Fields, canonical: bool, available: bool)
  datatype Observation = Observation(source: Json, outcome: Outcome)
  datatype Source = User | Agent
  datatype Step = Step(id: nat, source: Source, message: string, reasoning: Option<string>,
                       calls: seq<ToolCall>, observations: seq<Observation>)

  function CallOf(id: Json, state: Fields): Option<ToolCall> {
    if "title" !in state then None
    else
      var name, raw := Get(state, "name"), Get(state, "rawInput");
      Some(ToolCall(id, if Truthy(name) then name else state["title"], state["title"],
                    if raw.Obj? then raw.fields else map[], name.Str? && name.s != "", raw.Obj?))
  }

  predicate Projectable(state: Fields, format: Format) {
    "title" in state && (format.Codebuddy? ==> Metadata(state).Some?)
  }

  /** What the step of a block must look like. */
  ghost predicate StepOf(step: Step, index: nat, b: Block, updates: map<Json, seq<Fields>>, format: Format) {
    && step.id == index + 2 && step.source.Agent?
    && step.message == Join(Texts(b.chunks, MessageText))
    && step.reasoning == ReasoningOf(b.chunks)
    && |step.calls| == |b.tools| == |step.observations|
    && forall k | 0 <= k < |b.tools| ::
         && b.tools[k] in updates
         && CallObserved(step.calls[k], step.observations[k], b.tools[k], StateOf(updates[b.tools[k]], format), format)
  }

  function ReasoningOf(chunks: seq<Item>): Option<string> {
    if Texts(chunks, Reasoning) == [] then None else Some(Join(Texts(chunks, Reasoning)))
  }

  /** Call and observation at one position belong to the same id, and the observation is an error exactly
      when the folded state does not report a completed call. */
  ghost predicate CallObserved(call: ToolCall, observation: Observation, id: Json, state: Fields, format: Format) {
    && Projectable(state, format)
    && CallOf(id, state) == Some(call) && observation.source == id
    && observation.outcome.status == StatusOf(state, format)
    && (observation.outcome.isError <==> !observation.outcome.status.Completed?)
    && (observation.outcome.isError <==>
          !ReportsCompleted(state, format, if format.Codebuddy? then Metadata(state).value else map[]))
  }

  function Lookup<K, V>(m: map<K, seq<V>>, k: K): seq<V> { if k in m then m[k] else [] }

  function Draft(id: nat): Step { Step(id, Agent, "", None, [], []) }

  /** The dictionaries of the loop against the blocks of what was scanned. */
  ghost predicate Tracks(steps: seq<Step>, active: Option<nat>, toolIds: map<nat, seq<Json>>,
                         texts: map<(nat, Field), seq<string>>, b: seq<Block>)
  {
    && |steps| == |b| + 1
    && active == (if b == [] then None else Some(|b| + 1))
    && (forall j | 1 <= j < |steps| :: steps[j] == Draft(j + 1))
    && TracksTools(toolIds, b)
    && TracksTexts(texts, b)
  }

  ghost predicate TracksCalls(calls: map<Json, Fields>, scan: Scan, format: Format) {
    && calls.Keys == scan.updates.Keys
    && (forall id | id in calls :: calls[id] == StateOf(scan.updates[id], format))
  }

  lemma BlocksOfMore(items: seq<Item>, item: Item)
    ensures Blocks(items + [item]) == AddItem(Blocks(items), item)
  {
  }

  lemma TextsOfMore(chunks: seq<Item>, item: Item, field: Field)
    ensures Texts(chunks + [item], field) == Texts(chunks, field) + if item.Chunk? && item.field == field then [item.text] else []
  {
  }

  type TextMap = map<(nat, Field), seq<string>>

  ghost predicate TracksTools(toolIds: map<nat, seq<Json>>, b: seq<Block>) {
    && (forall j | 0 <= j < |b| :: Lookup(toolIds, j + 2) == b[j].tools)
    && (forall k | k in toolIds :: k <= |b| + 1)
  }

  lemma ToolTracked(toolIds: map<nat, seq<Json>>, id: Json, b: seq<Block>)
    requires TracksTools(toolIds, b)
    ensures var after := AddItem(b, Tool(id));
      TracksTools(toolIds[|after| + 1 := Lookup(toolIds, |after| + 1) + [id]], after)
  {
  }

  ghost predicate TracksTexts(texts: TextMap, b: seq<Block>) {
    && (forall j, f | 0 <= j < |b| :: Lookup(texts, (j + 2, f)) == Texts(b[j].chunks, f))
    && (forall k | k in texts :: k.0 <= |b| + 1)
  }

  function WithText(texts: TextMap, n: nat, item: Item): TextMap
    requires item.Chunk?
  {
    texts[(n, item.field) := Lookup(texts, (n, item.field)) + [item.text]]
  }

  /** The chunk comes last in its block. */
  lemma LastChunkTracked(texts: TextMap, item: Item, former: seq<Item>, n: nat, f: Field)
    requires item.Chunk? && Lookup(texts, (n, f)) == Texts(former, f)
    ensures Lookup(WithText(texts, n, item), (n, f)) == Texts(former + [item], f)
  {
    TextsOfMore(former, item, f);
  }

  lemma OtherTracked(texts: TextMap, item: Item, chunks: seq<Item>, n: nat, k: nat, f: Field)
    requires item.Chunk? && k != n && Lookup(texts, (k, f)) == Texts(chunks, f)
    ensures Lookup(WithText(texts, n, item), (k, f)) == Texts(chunks, f)
  {
  }

  /** The chunks before the item that is added to a block: none when it opens one. */
  lemma AddedChunk(b: seq<Block>, item: Item) returns (former: seq<Item>)
    requires item.Chunk?
    ensures var after := AddItem(b, item);
      && after != [] && |b| <= |after| <= |b| + 1 && (forall j | 0 <= j < |after| - 1 :: after[j] == b[j])
      && after[|after| - 1].chunks == former + [item]
      && former == if |after| > |b| then [] else b[|b| - 1].chunks
  {
    former := if |AddItem(b, item)| > |b| then [] else b[|b| - 1].chunks;
  }

  lemma ChunkTrackedAt(texts: TextMap, item: Item, b: seq<Block>, j: nat, f: Field)
    requires item.Chunk? && j < |AddItem(b, item)|
    requires if j < |b| then Lookup(texts, (j + 2, f)) == Texts(b[j].chunks, f) else Lookup(texts, (j + 2, f)) == []
    ensures Lookup(WithText(texts, |AddItem(b, item)| + 1, item), (j + 2, f)) == Texts(AddItem(b, item)[j].chunks, f)
  {
    var n := |AddItem(b, item)|;
    var former := AddedChunk(b, item);
    if j < n - 1 {
      OtherTracked(texts, item, b[j].chunks, n + 1, j + 2, f);
    } else {
      LastChunkTracked(texts, item, former, n + 1, f);
    }
  }

  lemma ChunkTracked(texts: TextMap, item: Item, b: seq<Block>)
    requires item.Chunk? && TracksTexts(texts, b)
    ensures TracksTexts(WithText(texts, |AddItem(b, item)| + 1, item), AddItem(b, item))
  {
    forall j, f | 0 <= j < |AddItem(b, item)| {
      ChunkTrackedAt(texts, item, b, j, f);
    }
  }

  /** A chunk opens a step unless the active one has no tool yet. */
  method AddChunk(steps: seq<Step>, active: Option<nat>, toolIds: map<nat, seq<Json>>, texts: TextMap, item: Item,
        ghost b: seq<Block>)
    returns (steps': seq<Step>, active': Option<nat>, texts': TextMap)
    requires item.Chunk? && Tracks(steps, active, toolIds, texts, b)
    ensures Tracks(steps', active', toolIds, texts', AddItem(b, item))
    ensures steps'[0] == steps[0]
  {
    steps', active' := steps, active;
    if active.None? || Lookup(toolIds, active.value) != [] {
      active' := Some(|steps| + 1);
      steps' := steps + [Draft(|steps| + 1)];
    }
    var key := (active'.value, item.field);
    texts' := texts[key := Lookup(texts, key) + [item.text]];
    ChunkTracked(texts, item, b);
  }

  lemma ToolKeepsTexts(texts: TextMap, id: Json, b: seq<Block>)
    requires TracksTexts(texts, b)
    ensures TracksTexts(texts, AddItem(b, Tool(id)))
  {
  }

  /** A first announcement opens a step only at the very beginning. */
  method AddTool(steps: seq<Step>, active: Option<nat>, toolIds: map<nat, seq<Json>>, texts: TextMap, id: Json,
        ghost b: seq<Block>)
    returns (steps': seq<Step>, active': Option<nat>, toolIds': map<nat, seq<Json>>)
    requires Tracks(steps, active, toolIds, texts, b)
    ensures Tracks(steps', active', toolIds', texts, AddItem(b, Tool(id)))
    ensures steps'[0] == steps[0]
  {
    steps', active' := steps, active;
    if active.None? {
      active' := Some(|steps| + 1);
      steps' := steps + [Draft(|steps| + 1)];
    }
    toolIds' := toolIds[active'.value := Lookup(toolIds, active'.value) + [id]];
    ToolTracked(toolIds, id, b);
    ToolKeepsTexts(texts, id, b);
  }

  /** The local variables of the loop over the log. */
  datatype Progress = Progress(steps: seq<Step>, active: Option<nat>, calls: map<Json, Fields>,
                               toolIds: map<nat, seq<Json>>, texts: TextMap)

  ghost predicate Reflects(p: Progress, scan: Scan, format: Format) {
    && Tracks(p.steps, p.active, p.toolIds, p.texts, Blocks(scan.items))
    && TracksCalls(p.calls, scan, format)
    && ScanOk(scan, format)
  }

  lemma MergedState(updates: seq<Fields>, update: Fields, format: Format)
    requires MergeAll(updates, format).Some?
    ensures MergeAll(updates + [update], format) == Merge(StateOf(updates, format), update, format)
  {
  }

  lemma CallsTracked(calls: map<Json, Fields>, scan: Scan, id: Json, updates: seq<Fields>, items: seq<Item>, format: Format)
    requires TracksCalls(calls, scan, format)
    ensures TracksCalls(calls[id := StateOf(updates, format)], Scan(items, scan.updates[id := updates]), format)
  {
  }

  method MergeCall(p: Progress, id: Json, update: Fields, format: Format, ghost scan: Scan) returns (r: Option<Progress>)
    requires Reflects(p, scan, format) && id in scan.updates
    ensures r.None? <==> MergeInto(scan, id, update, format).None?
    ensures r.Some? ==> Reflects(r.value, MergeInto(scan, id, update, format).value, format) && r.value.steps == p.steps
  {
    MergedState(scan.updates[id], update, format);
    var state := Merge(p.calls[id], update, format);
    if state.None? {
      return None;
    }
    MergedOk(scan, id, update, format);
    CallsTracked(p.calls, scan, id, scan.updates[id] + [update], scan.items, format);
    r := Some(p.(calls := p.calls[id := state.value]));
    assert MergeInto(scan, id, update, format).value == Scan(scan.items, scan.updates[id := scan.updates[id] + [update]]);
  }

  method TakeChunk(p: Progress, d: Fields, format: Format, ghost scan: Scan) returns (r: Option<Progress>)
    requires Reflects(p, scan, format)
    ensures r.None? <==> ChunkOf(d, format).None?
    ensures r.Some? ==> Reflects(r.value, scan.(items := scan.items + [ChunkOf(d, format).value]), format) && r.value.steps[0] == p.steps[0]
  {
    var chunk := ChunkOf(d, format);
    if chunk.None? {
      return None;
    }
    var steps, active, texts := AddChunk(p.steps, p.active, p.toolIds, p.texts, chunk.value, Blocks(scan.items));
    BlocksOfMore(scan.items, chunk.value);
    ChunkedOk(scan, chunk.value, format);
    return Some(p.(steps := steps, active := active, texts := texts));
  }

  method TakeAnnouncement(p: Progress, id: Json, d: Fields, format: Format, ghost scan: Scan) returns (r: Option<Progress>)
    requires Reflects(p, scan, format) && id !in scan.updates
    ensures r.None? <==> MergeAll([d], format).None?
    ensures r.Some? ==> Reflects(r.value, Scan(scan.items + [Tool(id)], scan.updates[id := [d]]), format)
    ensures r.Some? ==> r.value.steps[0] == p.steps[0]
  {
    MergedState([], d, format);
    assert [] + [d] == [d];
    var state := Merge(map[], d, format);
    if state.None? {
      return None;
    }
    var steps, active, toolIds := AddTool(p.steps, p.active, p.toolIds, p.texts, id, Blocks(scan.items));
    BlocksOfMore(scan.items, Tool(id));
    AnnouncedOk(scan, id, d, format);
    CallsTracked(p.calls, scan, id, [d], scan.items + [Tool(id)], format);
    return Some(Progress(steps, active, p.calls[id := state.value], toolIds, p.texts));
  }

  /** One iteration of the loop: it fails exactly when the scan of the log does. */
  method TakeEvent(p: Progress, e: Event, session: string, format: Format, ghost scan: Scan) returns (r: Option<Progress>)
    requires Reflects(p, scan, format)
    ensures r.None? <==> ScanStep(scan, e, session, format).None?
    ensures r.Some? ==> Reflects(r.value, ScanStep(scan, e, session, format).value, format) && r.value.steps[0] == p.steps[0]
  {
    if !Relevant(e) {
      return Some(p);
    }
    if e.session != session || !e.update.Obj? || "sessionUpdate" !in e.update.fields {
      return None;
    }
    var d := e.update.fields;
    var kind := d["sessionUpdate"];
    if IsChunk(kind) {
      r := TakeChunk(p, d, format, scan);
    } else if kind == Str("tool_call") {
      if "toolCallId" !in d || !Hashable(d["toolCallId"]) {
        return None;
      }
      var id := d["toolCallId"];
      if id !in p.calls {
        r := TakeAnnouncement(p, id, d, format, scan);
      } else if Reannounced(p.calls[id], d, format) {
        r := MergeCall(p, id, d, format, scan);
      } else {
        return None;
      }
    } else if kind == Str("tool_call_update") {
      if "toolCallId" !in d || d["toolCallId"] !in p.calls {
        return None;
      }
      r := MergeCall(p, d["toolCallId"], d, format, scan);
    } else {
      return Some(p);
    }
  }

  predicate Convertible(events: seq<Event>, session: string, format: Format) {
    var scan := ScanAll(events, session, format);
    scan.Some? && forall id | id in scan.value.updates :: Projectable(StateOf(scan.value.updates[id], format), format)
  }

  /** The calls and observations of one step. */
  method ProjectCalls(ids: seq<Json>, calls: map<Json, Fields>, format: Format, ghost scan: Scan)
    returns (r: Option<(seq<ToolCall>, seq<Observation>)>)
    requires TracksCalls(calls, scan, format) && forall id | id in ids :: id in calls
    ensures r.None? <==> exists id :: id in ids && !Projectable(StateOf(scan.updates[id], format), format)
    ensures r.Some? ==> |r.value.0| == |ids| == |r.value.1|
    ensures r.Some? ==> forall k | 0 <= k < |ids| ::
      CallObserved(r.value.0[k], r.value.1[k], ids[k], StateOf(scan.updates[ids[k]], format), format)
  {
    var made: seq<ToolCall>, seen: seq<Observation> := [], [];
    for k := 0 to |ids|
      invariant |made| == k == |seen|
      invariant forall j | 0 <= j < k :: CallObserved(made[j], seen[j], ids[j], StateOf(scan.updates[ids[j]], format), format)
    {
      assert ids[k] in ids;
      var state := calls[ids[k]];
      var call := CallOf(ids[k], state);
      var outcome := OutcomeOf(state, format);
      if call.None? || outcome.None? {
        return None;
      }
      made := made + [call.value];
      seen := seen + [Observation(ids[k], outcome.value)];
    }
    return Some((made, seen));
  }

  lemma {:induction false} ToolsOfBlocks(blocks: seq<Block>, j: nat, id: Json)
    requires j < |blocks| && id in blocks[j].tools
    ensures id in BlockTools(blocks)
  {
    if j < |blocks| - 1 {
      assert blocks[..|blocks| - 1][j] == blocks[j];
      ToolsOfBlocks(blocks[..|blocks| - 1], j, id);
    }
  }

  lemma {:induction false} BlockOfTool(blocks: seq<Block>, id: Json) returns (j: nat)
    requires id in BlockTools(blocks)
    ensures j < |blocks| && id in blocks[j].tools
  {
    if id in blocks[|blocks| - 1].tools {
      j := |blocks| - 1;
    } else {
      j := BlockOfTool(blocks[..|blocks| - 1], id);
    }
  }

  /** The whole projection: the instruction, then one agent step per maximal block. */
  ghost predicate IsProjection(steps: seq<Step>, instruction: string, scan: Scan, format: Format) {
    && |steps| == |Blocks(scan.items)| + 1
    && steps[0] == Step(1, User, instruction, None, [], [])
    && StepsOf(steps, Blocks(scan.items), scan.updates, format)
  }

  method Convert(instruction: string, events: seq<Event>, session: string, format: Format) returns (r: Option<seq<Step>>)
    ensures r.Some? <==> Convertible(events, session, format)
    ensures r.Some? ==> IsProjection(r.value, instruction, ScanAll(events, session, format).value, format)
  {
    var first := Step(1, User, instruction, None, [], []);
    var p := Progress([first], None, map[], map[], map[]);
    ghost var scan := Scan([], map[]);
    assert events[..0] == [];
    for i := 0 to |events|
      invariant ScanAll(events[..i], session, format) == Some(scan)
      invariant Reflects(p, scan, format) && p.steps[0] == first
    {
      assert events[..i + 1][..i] == events[..i];
      var next := TakeEvent(p, events[i], session, format, scan);
      if next.None? {
        ScanPrefix(events, session, format, i + 1);
        return None;
      }
      p, scan := next.value, ScanStep(scan, events[i], session, format).value;
    }
    assert events[..|events|] == events;
    r := Assemble(p, format, scan);
  }

  ghost predicate BlockProjectable(b: Block, updates: map<Json, seq<Fields>>, format: Format) {
    forall id | id in b.tools :: id in updates && Projectable(StateOf(updates[id], format), format)
  }

  /** The text, the calls and the observations of one step. */
  method ProjectStep(p: Progress, j: nat, format: Format, ghost b: Block, ghost scan: Scan) returns (r: Option<Step>)
    requires j + 1 < |p.steps| && p.steps[j + 1] == Draft(j + 2) && TracksCalls(p.calls, scan, format)
    requires Lookup(p.toolIds, j + 2) == b.tools && forall id | id in b.tools :: id in scan.updates
    requires forall f :: Lookup(p.texts, (j + 2, f)) == Texts(b.chunks, f)
    ensures r.None? <==> !BlockProjectable(b, scan.updates, format)
    ensures r.Some? ==> StepOf(r.value, j, b, scan.updates, format)
  {
    var projected := ProjectCalls(Lookup(p.toolIds, j + 2), p.calls, format, scan);
    if projected.None? {
      return None;
    }
    var thoughts := Lookup(p.texts, (j + 2, Reasoning));
    return Some(p.steps[j + 1].(
      message := Join(Lookup(p.texts, (j + 2, MessageText))),
      reasoning := if thoughts == [] then None else Some(Join(thoughts)),
      calls := projected.value.0, observations := projected.value.1));
  }

  lemma BlockToolsKnown(scan: Scan, format: Format)
    requires ScanOk(scan, format)
    ensures forall j, id | 0 <= j < |Blocks(scan.items)| && id in Blocks(scan.items)[j].tools :: id in scan.updates
  {
    ToolsAreUpdates(scan, format);
    forall j, id | 0 <= j < |Blocks(scan.items)| && id in Blocks(scan.items)[j].tools
      ensures id in scan.updates
    {
      ToolsOfBlocks(Blocks(scan.items), j, id);
    }
  }

  /** The agent steps made so far are those of the first blocks. */
  ghost predicate StepsOf(steps: seq<Step>, b: seq<Block>, updates: map<Json, seq<Fields>>, format: Format) {
    1 <= |steps| <= |b| + 1 && forall j | 1 <= j < |steps| :: StepOf(steps[j], j - 1, b[j - 1], updates, format)
  }

  lemma AllProjectable(steps: seq<Step>, scan: Scan, format: Format)
    requires ScanOk(scan, format) && |steps| == |Blocks(scan.items)| + 1
    requires StepsOf(steps, Blocks(scan.items), scan.updates, format)
    ensures forall id | id in scan.updates :: Projectable(StateOf(scan.updates[id], format), format)
  {
    ToolsAreUpdates(scan, format);
    forall id | id in scan.updates
      ensures Projectable(StateOf(scan.updates[id], format), format)
    {
      var j := BlockOfTool(Blocks(scan.items), id);
      assert StepOf(steps[j + 1], j, Blocks(scan.items)[j], scan.updates, format);
      var k :| 0 <= k < |Blocks(scan.items)[j].tools| && Blocks(scan.items)[j].tools[k] == id;
    }
  }

  lemma StepsOfMore(steps: seq<Step>, step: Step, b: seq<Block>, updates: map<Json, seq<Fields>>, format: Format)
    requires StepsOf(steps, b, updates, format) && |steps| <= |b|
    requires StepOf(step, |steps| - 1, b[|steps| - 1], updates, format)
    ensures StepsOf(steps + [step], b, updates, format)
  {
  }

  method ProjectSteps(p: Progress, format: Format, ghost b: seq<Block>, ghost scan: Scan)
    returns (r: Option<seq<Step>>, ghost bad: nat)
    requires Tracks(p.steps, p.active, p.toolIds, p.texts, b) && TracksCalls(p.calls, scan, format)
    requires forall j, id | 0 <= j < |b| && id in b[j].tools :: id in scan.updates
    ensures r.None? ==> bad < |b| && !BlockProjectable(b[bad], scan.updates, format)
    ensures r.Some? ==> |r.value| == |p.steps| && r.value[0] == p.steps[0] && StepsOf(r.value, b, scan.updates, format)
  {
    var steps := [p.steps[0]];
    bad := 0;
    while |steps| < |p.steps|
      invariant 1 <= |steps| <= |p.steps| && steps[0] == p.steps[0]
      invariant StepsOf(steps, b, scan.updates, format)
    {
      var j := |steps| - 1;
      var step := ProjectStep(p, j, format, b[j], scan);
      if step.None? {
        return None, j;
      }
      StepsOfMore(steps, step.value, b, scan.updates, format);
      steps := steps + [step.value];
    }
    return Some(steps), bad;
  }

  /** The loops after the log: texts, then calls and observations. */
  method Assemble(p: Progress, format: Format, ghost scan: Scan) returns (r: Option<seq<Step>>)
    requires Reflects(p, scan, format)
    ensures r.Some? <==> forall id | id in scan.updates :: Projectable(StateOf(scan.updates[id], format), format)
    ensures r.Some? ==> |r.value| == |p.steps| && r.value[0] == p.steps[0]
    ensures r.Some? ==> StepsOf(r.value, Blocks(scan.items), scan.updates, format)
  {
    ghost var b := Blocks(scan.items);
    BlockToolsKnown(scan, format);
    ghost var bad: nat;
    r, bad := ProjectSteps(p, format, b, scan);
    if r.Some? {
      AllProjectable(r.value, scan, format);
    } else {
      assert !BlockProjectable(b[bad], scan.updates, format);
    }
  }

  lemma ToolsAreUpdates(scan: Scan, format: Format)
    requires ScanOk(scan, format)
    ensures forall id :: id in BlockTools(Blocks(scan.items)) <==> id in scan.updates
  {
    BlocksAreMaximal(scan.items);
    BlocksConserve(Blocks(scan.items), MessageText);
    ToolIdsOfScan(scan.items);
  }

  /* ------------------------------------------------------------------ the result against the log */

  function TextsIn(e: Event, field: Field): seq<string> {
    if Relevant(e) && e.update.Obj? && IsChunk(Get(e.update.fields, "sessionUpdate")) && ChunkIn(e.update.fields).Some? &&
       ChunkIn(e.update.fields).value.field == field
    then [ChunkIn(e.update.fields).value.text] else []
  }

  /** The texts of the log, read off the events alone. */
  function ChunkTexts(events: seq<Event>, field: Field): seq<string> {
    if events == [] then []
    else ChunkTexts(events[..|events| - 1], field) + TextsIn(events[|events| - 1], field)
  }

  lemma {:induction false} ScanTexts(events: seq<Event>, session: string, format: Format, field: Field)
    requires ScanAll(events, session, format).Some?
    ensures Texts(ScanAll(events, session, format).value.items, field) == ChunkTexts(events, field)
  {
    if events != [] {
      var init, e := events[..|events| - 1], events[|events| - 1];
      ScanTexts(init, session, format, field);
      StepTexts(ScanAll(init, session, format).value, e, session, format, field);
    }
  }

  lemma StepTexts(s: Scan, e: Event, session: string, format: Format, field: Field)
    requires ScanStep(s, e, session, format).Some?
    ensures Texts(ScanStep(s, e, session, format).value.items, field) == Texts(s.items, field) + TextsIn(e, field)
  {
    var after := ScanStep(s, e, session, format).value;
    if Relevant(e) {
      var d := e.update.fields;
      var kind := d["sessionUpdate"];
      if IsChunk(kind) {
        TextsOfMore(s.items, ChunkOf(d, format).value, field);
        assert after.items == s.items + [ChunkOf(d, format).value];
      } else if kind == Str("tool_call") && d["toolCallId"] !in s.updates {
        TextsOfMore(s.items, Tool(d["toolCallId"]), field);
        assert after.items == s.items + [Tool(d["toolCallId"])];
      } else {
        assert after.items == s.items;
      }
    }
  }

  function UpdatesIn(e: Event, id: Json): seq<Fields> {
    if Relevant(e) && e.update.Obj? && Get(e.update.fields, "sessionUpdate") in [Str("tool_call"), Str("tool_call_update")] &&
       "toolCallId" in e.update.fields && e.update.fields["toolCallId"] == id
    then [e.update.fields] else []
  }

  /** The updates of one call, read off the events alone. */
  function UpdatesOf(events: seq<Event>, id: Json): seq<Fields> {
    if events == [] then [] else UpdatesOf(events[..|events| - 1], id) + UpdatesIn(events[|events| - 1], id)
  }

  /** What is merged into a call are all its updates, in the order of the log. */
  lemma {:induction false} ScanUpdates(events: seq<Event>, session: string, format: Format, id: Json)
    requires ScanAll(events, session, format).Some?
    ensures Lookup(ScanAll(events, session, format).value.updates, id) == UpdatesOf(events, id)
    ensures id in ScanAll(events, session, format).value.updates <==> UpdatesOf(events, id) != []
  {
    if events != [] {
      var init, e := events[..|events| - 1], events[|events| - 1];
      ScanUpdates(init, session, format, id);
      StepUpdates(ScanAll(init, session, format).value, e, session, format, id);
    }
  }

  lemma StepUpdates(s: Scan, e: Event, session: string, format: Format, id: Json)
    requires ScanStep(s, e, session, format).Some?
    ensures var after := ScanStep(s, e, session, format).value;
      && Lookup(after.updates, id) == Lookup(s.updates, id) + UpdatesIn(e, id)
      && (id in after.updates <==> id in s.updates || UpdatesIn(e, id) != [])
  {
  }

  function MessagesOf(steps: seq<Step>): string {
    if steps == [] then "" else MessagesOf(steps[..|steps| - 1]) + steps[|steps| - 1].message
  }

  function ReasoningsOf(steps: seq<Step>): string {
    if steps == [] then ""
    else
      var last := steps[|steps| - 1].reasoning;
      ReasoningsOf(steps[..|steps| - 1]) + if last.Some? then last.value else ""
  }

  function SourcesOf(steps: seq<Step>): seq<Json> {
    if steps == [] then []
    else
      var seen := steps[|steps| - 1].observations;
      SourcesOf(steps[..|steps| - 1]) + seq(|seen|, i requires 0 <= i < |seen| => seen[i].source)
  }

  lemma {:induction false} StepsCarryBlocks(steps: seq<Step>, b: seq<Block>, updates: map<Json, seq<Fields>>, format: Format)
    requires |steps| == |b|
    requires forall j | 0 <= j < |b| :: StepOf(steps[j], j, b[j], updates, format)
    ensures MessagesOf(steps) == BlockTexts(b, MessageText) && ReasoningsOf(steps) == BlockTexts(b, Reasoning)
    ensures SourcesOf(steps) == BlockTools(b)
  {
    if b != [] {
      var n := |b| - 1;
      StepsCarryBlocks(steps[..n], b[..n], updates, format);
      var seen := steps[n].observations;
      assert StepOf(steps[n], n, b[n], updates, format);
      assert seq(|seen|, i requires 0 <= i < |seen| => seen[i].source) == b[n].tools;
    }
  }

  /** Nothing is lost, repeated or moved: the steps after the instruction carry the message and reasoning
      texts of the log in order, and one observation for each announced call, no id twice. */
  lemma ProjectionConserves(steps: seq<Step>, instruction: string, events: seq<Event>, session: string, format: Format)
    requires ScanAll(events, session, format).Some?
    requires IsProjection(steps, instruction, ScanAll(events, session, format).value, format)
    ensures MessagesOf(steps[1..]) == Join(ChunkTexts(events, MessageText))
    ensures ReasoningsOf(steps[1..]) == Join(ChunkTexts(events, Reasoning))
    ensures Distinct(SourcesOf(steps[1..]))
    ensures forall id :: id in SourcesOf(steps[1..]) <==> UpdatesOf(events, id) != []
    ensures forall id :: Lookup(ScanAll(events, session, format).value.updates, id) == UpdatesOf(events, id)
  {
    forall id
      ensures Lookup(ScanAll(events, session, format).value.updates, id) == UpdatesOf(events, id)
      ensures id in ScanAll(events, session, format).value.updates <==> UpdatesOf(events, id) != []
    {
      ScanUpdates(events, session, format, id);
    }
    var scan := ScanAll(events, session, format).value;
    var b, agent := Blocks(scan.items), steps[1..];
    AnnouncedOnce(events, session, format);
    forall j | 0 <= j < |b|
      ensures StepOf(agent[j], j, b[j], scan.updates, format)
    {
      assert StepOf(steps[j + 1], j, b[j], scan.updates, format);
    }
    StepsCarryBlocks(agent, b, scan.updates, format);
    ScanTexts(events, session, format, MessageText);
    ScanTexts(events, session, format, Reasoning);
  }
}
