/** What a Claude session says, read off its events alone: no text, thought, call or result is lost, repeated,
    moved or taken for another on the way to the steps. */
module ClaudeTranscript {
  import opened Atif
  import opened Finalize
  import opened MessageAdapter
  import opened AdapterFacts
  import opened ClaudeSession

  /* ------------------------------------------------------------------ the events that count */

  predicate Replayed(events: seq<Event>, i: nat)
    requires i < |events|
  {
    events[i].uuid.Some? && exists j | 0 <= j < i :: events[j].uuid == events[i].uuid
  }

  /** The events without their replays. */
  function Fresh(events: seq<Event>): seq<Event> {
    if events == [] then []
    else
      var n := |events| - 1;
      Fresh(events[..n]) + if Replayed(events, n) then [] else [events[n]]
  }

  lemma TakeSeesExactly(s: Session, e: Event)
    requires Known(s)
    ensures TakeEvent(s, e).seen == if e.uuid.Some? then s.seen + {e.uuid.value} else s.seen
  {
    if e.body.UserEvent? {
      OutcomesSee(if e.uuid.Some? then s.(seen := s.seen + {e.uuid.value}) else s, e.body.blocks, e.body.batch, OutcomeCount(e.body.blocks) == 1, e.at);
    }
  }

  lemma {:induction false} SeenExactly(events: seq<Event>, uuid: string)
    ensures uuid in SessionOf(events).seen <==> exists j | 0 <= j < |events| :: events[j].uuid == Some(uuid)
  {
    if events != [] {
      var n := |events| - 1;
      SeenExactly(events[..n], uuid);
      TakeSeesExactly(SessionOf(events[..n]), events[n]);
      assert forall j | 0 <= j < n :: events[..n][j] == events[j];
    }
  }

  lemma SessionMore(events: seq<Event>, e: Event)
    ensures SessionOf(events + [e]) == TakeEvent(SessionOf(events), e)
  {
    assert (events + [e])[..|events|] == events;
  }

  /** Replays say nothing. */
  lemma {:induction false} FreshSaysAll(events: seq<Event>)
    ensures SessionOf(events) == SessionOf(Fresh(events))
  {
    if events != [] {
      var n := |events| - 1;
      FreshSaysAll(events[..n]);
      assert events[..n] + [events[n]] == events;
      if Replayed(events, n) {
        var j :| 0 <= j < n && events[j].uuid == events[n].uuid;
        assert events[..n][j] == events[j];
        ReplayChangesNothing(events[..n], [], events[n]);
        assert Fresh(events) == Fresh(events[..n]);
      } else {
        SessionMore(events[..n], events[n]);
        SessionMore(Fresh(events[..n]), events[n]);
      }
    }
  }

  predicate NoReplay(events: seq<Event>) { forall i | 0 <= i < |events| :: !Replayed(events, i) }

  lemma {:induction false} FreshUuids(events: seq<Event>, uuid: Option<string>)
    ensures (exists j | 0 <= j < |Fresh(events)| :: Fresh(events)[j].uuid == uuid) <==>
          exists j | 0 <= j < |events| :: events[j].uuid == uuid
  {
    if events != [] {
      var n := |events| - 1;
      var init := events[..n];
      FreshUuids(init, uuid);
      assert forall j | 0 <= j < n :: init[j] == events[j];
      if exists j | 0 <= j < |Fresh(init)| :: Fresh(init)[j].uuid == uuid {
        var j :| 0 <= j < |Fresh(init)| && Fresh(init)[j].uuid == uuid;
        assert Fresh(events)[j].uuid == uuid;
      }
      if !Replayed(events, n) {
        assert Fresh(events)[|Fresh(init)|] == events[n];
      }
    }
  }

  lemma {:induction false} FreshHasNoReplay(events: seq<Event>)
    ensures NoReplay(Fresh(events))
  {
    if events != [] {
      var n := |events| - 1;
      var before, all := Fresh(events[..n]), Fresh(events);
      FreshHasNoReplay(events[..n]);
      FreshUuids(events[..n], events[n].uuid);
      forall i | 0 <= i < |all|
        ensures !Replayed(all, i)
      {
        if i < |before| {
          assert !Replayed(before, i);
          assert forall j | 0 <= j <= i :: all[j] == before[j];
        } else {
          assert forall j | 0 <= j < i :: all[j] == before[j];
        }
      }
    }
  }

  /* ------------------------------------------------------------------ what a reply says */

  predicate SameReply(a: Event, b: Event) {
    a.body.AssistantEvent? && b.body.AssistantEvent? && a.body.messageId != "" && a.body.messageId == b.body.messageId
  }

  /** The first event of a reply. */
  predicate Opens(events: seq<Event>, k: nat)
    requires k < |events|
  {
    events[k].body.AssistantEvent? && forall j | 0 <= j < k :: !SameReply(events[j], events[k])
  }

  /** The events of the reply that one of them opens. */
  function Parts(events: seq<Event>, k: nat): seq<Event>
    requires k < |events|
  {
    var n := |events| - 1;
    if k == n then [events[k]] else Parts(events[..n], k) + if SameReply(events[k], events[n]) then [events[n]] else []
  }

  function BlocksOf(e: Event): seq<Block> { if e.body.AssistantEvent? || e.body.UserEvent? then e.body.blocks else [] }

  function TextIn(b: Block): seq<string> { if b.TextBlock? then [b.text] else [] }

  function ThoughtIn(b: Block): seq<string> { if b.Thinking? then [b.text] else [] }

  /** All that the blocks hold of one kind, in order. */
  function Collect(blocks: seq<Block>, kind: Block -> seq<string>): seq<string> {
    if blocks == [] then [] else Collect(blocks[..|blocks| - 1], kind) + kind(blocks[|blocks| - 1])
  }

  function CollectAll(parts: seq<Event>, kind: Block -> seq<string>): seq<string> {
    if parts == [] then [] else CollectAll(parts[..|parts| - 1], kind) + Collect(BlocksOf(parts[|parts| - 1]), kind)
  }

  function UseIn(b: Block, at: Option<int>): seq<Call> {
    if b.ToolUse? && b.id != "" then [Call(b.id, if b.name != "" then b.name else "tool", b.arguments, at, None)] else []
  }

  function Uses(blocks: seq<Block>, at: Option<int>): seq<Call> {
    if blocks == [] then [] else Uses(blocks[..|blocks| - 1], at) + UseIn(blocks[|blocks| - 1], at)
  }

  function UsesAll(parts: seq<Event>): seq<Call> {
    if parts == [] then [] else UsesAll(parts[..|parts| - 1]) + Uses(BlocksOf(parts[|parts| - 1]), parts[|parts| - 1].at)
  }

  /** Each call once, where it came first. */
  function Firsts(calls: seq<Call>): seq<Call> {
    if calls == [] then []
    else
      var n := |calls| - 1;
      Firsts(calls[..n]) + if HasCall(calls[..n], calls[n].id) then [] else [calls[n]]
  }

  function InputOf(r: RawUsage): Option<int> { r.input }

  function OutputOf(r: RawUsage): Option<int> { r.output }

  function ReadOf(r: RawUsage): Option<int> { r.read }

  function WriteOf(r: RawUsage): Option<int> { r.write }

  predicate Reports(e: Event, field: RawUsage -> Option<int>) {
    e.body.AssistantEvent? && e.body.usage.Some? && field(e.body.usage.value).Some? && field(e.body.usage.value).value >= 0
  }

  /** The count that was reported last. */
  function LastReported(parts: seq<Event>, field: RawUsage -> Option<int>): Option<nat> {
    if parts == [] then None
    else
      var e := parts[|parts| - 1];
      if Reports(e, field) then Some(field(e.body.usage.value).value as nat) else LastReported(parts[..|parts| - 1], field)
  }

  predicate AnyUsage(parts: seq<Event>) { exists i | 0 <= i < |parts| :: parts[i].body.AssistantEvent? && parts[i].body.usage.Some? }

  predicate UsageSays(u: Usage, parts: seq<Event>) {
    && u.uncached == LastReported(parts, InputOf) && u.output == LastReported(parts, OutputOf)
    && u.read == LastReported(parts, ReadOf) && u.write == LastReported(parts, WriteOf)
    && u.prompt == (if u.uncached.Some? && u.read.Some? && u.write.Some?
                    then Some(u.uncached.value + u.read.value + u.write.value) else None)
    && (u.given <==> AnyUsage(parts))
  }

  /** A reply says what its events say. */
  predicate ReplySaysEvents(m: Message, events: seq<Event>, k: nat)
    requires k < |events|
  {
    var parts, first := Parts(events, k), events[k];
    && m.Reply? && first.body.AssistantEvent?
    && m.texts == CollectAll(parts, TextIn) && m.reasonings == CollectAll(parts, ThoughtIn)
    && m.calls == Firsts(UsesAll(parts)) && UsageSays(m.usage, parts)
    && m.model == first.body.model && m.at == first.at
    && (m.synthetic <==> first.body.model == "<synthetic>" || first.body.apiError)
  }

  lemma {:induction false} FirstsHold(calls: seq<Call>, id: string)
    ensures HasCall(Firsts(calls), id) <==> HasCall(calls, id)
  {
    if calls != [] {
      var init, last := calls[..|calls| - 1], calls[|calls| - 1];
      FirstsHold(init, id);
      HasCallSplits(init, [last], id);
      assert init + [last] == calls;
      assert HasCall([last], id) <==> [last][0].id == id;
      if HasCall(init, last.id) {
        assert Firsts(calls) == Firsts(init);
      } else {
        HasCallSplits(Firsts(init), [last], id);
      }
    }
  }

  lemma HasCallSplits(a: seq<Call>, b: seq<Call>, id: string)
    ensures HasCall(a + b, id) <==> HasCall(a, id) || HasCall(b, id)
  {
    if HasCall(a, id) {
      var i :| 0 <= i < |a| && a[i].id == id;
      assert (a + b)[i].id == id;
    }
    if HasCall(b, id) {
      var i :| 0 <= i < |b| && b[i].id == id;
      assert (a + b)[|a| + i].id == id;
    }
  }

  lemma FirstsMore(calls: seq<Call>, c: Call)
    ensures Firsts(calls + [c]) == if HasCall(Firsts(calls), c.id) then Firsts(calls) else Firsts(calls) + [c]
  {
    assert (calls + [c])[..|calls|] == calls;
    FirstsHold(calls, c.id);
  }

  /** What was added to a reply. */
  predicate Added(m: Message, after: Message, texts: seq<string>, thoughts: seq<string>, calls: seq<Call>) {
    && m.Reply? && after.Reply? && after == m.(texts := after.texts, reasonings := after.reasonings, calls := after.calls)
    && after.texts == m.texts + texts && after.reasonings == m.reasonings + thoughts && after.calls == calls
  }

  /** Adding a block appends what it says. */
  lemma BlockSays(m: Message, b: Block, at: Option<int>, uses: seq<Call>)
    requires m.Reply? && m.calls == Firsts(uses)
    ensures Added(m, AddBlock(m, b, at), TextIn(b), ThoughtIn(b), Firsts(uses + UseIn(b, at)))
  {
    match b {
      case ToolUse(id, name, arguments) =>
        if id != "" {
          FirstsMore(uses, UseIn(b, at)[0]);
          assert UseIn(b, at) == [UseIn(b, at)[0]];
        } else {
          assert uses + UseIn(b, at) == uses;
        }
      case _ =>
        assert uses + UseIn(b, at) == uses;
    }
  }

  lemma AddedTwice(m: Message, n: Message, r: Message, texts: seq<string>, thoughts: seq<string>, calls: seq<Call>,
                   moreTexts: seq<string>, moreThoughts: seq<string>, moreCalls: seq<Call>)
    requires Added(m, n, texts, thoughts, calls) && Added(n, r, moreTexts, moreThoughts, moreCalls)
    ensures Added(m, r, texts + moreTexts, thoughts + moreThoughts, moreCalls)
  {
  }

  lemma {:induction false} BlocksSay(m: Message, blocks: seq<Block>, at: Option<int>, uses: seq<Call>)
    requires m.Reply? && m.calls == Firsts(uses)
    ensures Added(m, AddBlocks(m, blocks, at), Collect(blocks, TextIn), Collect(blocks, ThoughtIn), Firsts(uses + Uses(blocks, at)))
  {
    if blocks == [] {
      assert uses + Uses(blocks, at) == uses;
    } else {
      var init, b := blocks[..|blocks| - 1], blocks[|blocks| - 1];
      BlocksSay(m, init, at, uses);
      var before := AddBlocks(m, init, at);
      BlockSays(before, b, at, uses + Uses(init, at));
      AddedTwice(m, before, AddBlocks(m, blocks, at), Collect(init, TextIn), Collect(init, ThoughtIn), Firsts(uses + Uses(init, at)),
                 TextIn(b), ThoughtIn(b), Firsts(uses + Uses(init, at) + UseIn(b, at)));
      assert uses + Uses(blocks, at) == uses + Uses(init, at) + UseIn(b, at);
    }
  }

  lemma LastReportedMore(parts: seq<Event>, e: Event, field: RawUsage -> Option<int>)
    requires e.body.AssistantEvent?
    ensures LastReported(parts + [e], field) ==
      var n := if e.body.usage.Some? then Accepted(field(e.body.usage.value)) else None;
      if n.Some? then n else LastReported(parts, field)
  {
    assert (parts + [e])[..|parts|] == parts;
  }

  lemma AnyUsageMore(parts: seq<Event>, e: Event)
    requires e.body.AssistantEvent?
    ensures AnyUsage(parts + [e]) <==> AnyUsage(parts) || e.body.usage.Some?
  {
    var more := parts + [e];
    assert more[|parts|] == e;
    if AnyUsage(parts) {
      var i :| 0 <= i < |parts| && parts[i].body.AssistantEvent? && parts[i].body.usage.Some?;
      assert more[i] == parts[i];
    }
  }

  /** Merging the usage of one more event keeps what was reported last. */
  lemma UsageSaysMore(u: Usage, parts: seq<Event>, e: Event)
    requires UsageSays(u, parts) && e.body.AssistantEvent?
    ensures UsageSays(MergeUsage(u, UsageOf(e.body.usage)), parts + [e])
  {
    LastReportedMore(parts, e, InputOf);
    LastReportedMore(parts, e, OutputOf);
    LastReportedMore(parts, e, ReadOf);
    LastReportedMore(parts, e, WriteOf);
    AnyUsageMore(parts, e);
  }

  /** An event without usage changes nothing. */
  lemma NoUsageMore(u: Usage, parts: seq<Event>, e: Event)
    requires UsageSays(u, parts) && e.body.AssistantEvent? && e.body.usage.None?
    ensures UsageSays(u, parts + [e])
  {
    LastReportedMore(parts, e, InputOf);
    LastReportedMore(parts, e, OutputOf);
    LastReportedMore(parts, e, ReadOf);
    LastReportedMore(parts, e, WriteOf);
    AnyUsageMore(parts, e);
  }

  /* ------------------------------------------------------------------ where the messages come from */

  /** A reply from the event that opens it, a result from a block of a user event, a remark from an event. */
  datatype Origin = FromReply(k: nat) | FromResult(k: nat, b: nat) | FromRemark(k: nat)

  function ResultPlaces(blocks: seq<Block>, k: nat): seq<Origin> {
    if blocks == [] then []
    else
      var n := |blocks| - 1;
      ResultPlaces(blocks[..n], k) + if blocks[n].ToolOutcome? then [FromResult(k, n)] else []
  }

  function OriginsAt(events: seq<Event>, k: nat): seq<Origin>
    requires k < |events|
  {
    match events[k].body
    case AssistantEvent(_, _, _, _, _) => if Opens(events, k) then [FromReply(k)] else []
    case UserEvent(blocks, _, _) =>
      ResultPlaces(blocks, k) + if exists i | 0 <= i < |blocks| :: !blocks[i].ToolOutcome? then [FromRemark(k)] else []
    case SystemEvent(_) => [FromRemark(k)]
    case OtherEvent(_) => [FromRemark(k)]
    case Bookkeeping => []
  }

  /** The messages that the events give, in order. */
  function Origins(events: seq<Event>): seq<Origin> {
    if events == [] then [] else Origins(events[..|events| - 1]) + OriginsAt(events, |events| - 1)
  }

  function JoinLines(texts: seq<string>): string { JoinedBy("\n", texts) }

  /** The texts with a separator between each two of them. */
  function JoinedBy(separator: string, texts: seq<string>): string {
    if texts == [] then "" else if |texts| == 1 then texts[0] else texts[0] + separator + JoinedBy(separator, texts[1..])
  }

  /** What a remark says: the texts of a user event, the text of a system event, or the kind of an unknown one. */
  predicate RemarkSays(m: Message, e: Event) {
    && m.Remark? && m.at == e.at
    && match e.body
       case UserEvent(blocks, _, system) =>
         m.text == JoinLines(Collect(blocks, TextIn)) && m.source == if system then System else User
       case SystemEvent(text) => m.text == text && m.source.System?
       case OtherEvent(kind) => m.text == "[Claude event: " + kind + "]" && m.source.System?
       case _ => false
  }

  predicate ResultSaysBlock(m: Message, e: Event, b: nat) {
    && e.body.UserEvent? && b < |e.body.blocks| && e.body.blocks[b].ToolOutcome?
    && m == Outcome(e.body.blocks[b].callId, e.body.blocks[b].content, e.body.blocks[b].isError, e.at)
  }

  /** A message says what its origin says. */
  predicate Says(m: Message, events: seq<Event>, o: Origin) {
    match o
    case FromReply(k) => k < |events| && ReplySaysEvents(m, events, k)
    case FromResult(k, b) => k < |events| && ResultSaysBlock(m, events[k], b)
    case FromRemark(k) => k < |events| && RemarkSays(m, events[k])
  }

  ghost predicate AllSay(records: seq<Message>, events: seq<Event>, origins: seq<Origin>) {
    |records| == |origins| && forall n | 0 <= n < |origins| :: Says(records[n], events, origins[n])
  }

  /** A known response is the message of an opening event with its id. */
  predicate LeadsTo(responses: map<string, nat>, events: seq<Event>, origins: seq<Origin>, id: string)
    requires id in responses
  {
    var n := responses[id];
    id != "" && n < |origins| && origins[n].FromReply? && origins[n].k < |events| &&
    events[origins[n].k].body.AssistantEvent? && events[origins[n].k].body.messageId == id
  }

  /** A reply with an id is the known response of its id. */
  predicate OwnReply(responses: map<string, nat>, events: seq<Event>, origins: seq<Origin>, n: nat)
    requires n < |origins|
  {
    origins[n].FromReply? ==>
      var k := origins[n].k;
      k < |events| && events[k].body.AssistantEvent? &&
      (events[k].body.messageId != "" ==> events[k].body.messageId in responses && responses[events[k].body.messageId] == n)
  }

  predicate KnowsReply(responses: map<string, nat>, e: Event) {
    e.body.AssistantEvent? && e.body.messageId != "" ==> e.body.messageId in responses
  }

  ghost predicate Answering(responses: map<string, nat>, events: seq<Event>, origins: seq<Origin>) {
    && (forall id | id in responses :: LeadsTo(responses, events, origins, id))
    && (forall n | 0 <= n < |origins| :: OwnReply(responses, events, origins, n))
    && (forall k | 0 <= k < |events| :: KnowsReply(responses, events[k]))
  }

  lemma PartsMore(events: seq<Event>, e: Event, k: nat)
    requires k < |events|
    ensures Parts(events + [e], k) == Parts(events, k) + if SameReply(events[k], e) then [e] else []
  {
    assert (events + [e])[..|events|] == events;
  }

  lemma OriginsMore(events: seq<Event>, e: Event)
    ensures Origins(events + [e]) == Origins(events) + OriginsAt(events + [e], |events|)
  {
    assert (events + [e])[..|events|] == events;
  }

  /** An event that is not of the same reply changes nothing about a message. */
  lemma SaysStays(m: Message, events: seq<Event>, e: Event, o: Origin)
    requires Says(m, events, o) && (o.FromReply? ==> !SameReply(events[o.k], e))
    ensures Says(m, events + [e], o)
  {
    if o.FromReply? {
      PartsMore(events, e, o.k);
      assert Parts(events, o.k) + [] == Parts(events, o.k);
    }
  }

  lemma {:induction false} CollectAllMore(parts: seq<Event>, e: Event, kind: Block -> seq<string>)
    ensures CollectAll(parts + [e], kind) == CollectAll(parts, kind) + Collect(BlocksOf(e), kind)
  {
    assert (parts + [e])[..|parts|] == parts;
  }

  lemma UsesAllMore(parts: seq<Event>, e: Event)
    ensures UsesAll(parts + [e]) == UsesAll(parts) + Uses(BlocksOf(e), e.at)
  {
    assert (parts + [e])[..|parts|] == parts;
  }

  /** The message that one more event of a reply leaves. */
  function Extended(m: Message, e: Event): Message
    requires m.Reply? && e.body.AssistantEvent?
  {
    var usage := UsageOf(e.body.usage);
    AddBlocks(if usage.given then m.(usage := MergeUsage(m.usage, usage)) else m, e.body.blocks, e.at)
  }

  lemma ExtendedSays(m: Message, events: seq<Event>, e: Event, k: nat)
    requires k < |events| && ReplySaysEvents(m, events, k) && SameReply(events[k], e)
    ensures ReplySaysEvents(Extended(m, e), events + [e], k)
  {
    var parts, usage := Parts(events, k), UsageOf(e.body.usage);
    PartsMore(events, e, k);
    var merged := if usage.given then m.(usage := MergeUsage(m.usage, usage)) else m;
    if usage.given {
      UsageSaysMore(m.usage, parts, e);
    } else {
      NoUsageMore(m.usage, parts, e);
    }
    BlocksSay(merged, e.body.blocks, e.at, UsesAll(parts));
    CollectAllMore(parts, e, TextIn);
    CollectAllMore(parts, e, ThoughtIn);
    UsesAllMore(parts, e);
  }

  function Opened(e: Event): Message
    requires e.body.AssistantEvent?
  {
    AddBlocks(Reply([], [], [], e.body.model, MergeUsage(NO_USAGE, UsageOf(e.body.usage)),
                    e.body.model == "<synthetic>" || e.body.apiError, e.at), e.body.blocks, e.at)
  }

  lemma OpenedSays(events: seq<Event>, e: Event)
    requires e.body.AssistantEvent?
    ensures ReplySaysEvents(Opened(e), events + [e], |events|)
  {
    var m := Reply([], [], [], e.body.model, MergeUsage(NO_USAGE, UsageOf(e.body.usage)), e.body.model == "<synthetic>" || e.body.apiError, e.at);
    assert [] + [e] == [e];
    assert UsageSays(NO_USAGE, []);
    UsageSaysMore(NO_USAGE, [], e);
    BlocksSay(m, e.body.blocks, e.at, []);
    CollectAllMore([], e, TextIn);
    CollectAllMore([], e, ThoughtIn);
    UsesAllMore([], e);
    assert Parts(events + [e], |events|) == [e];
  }

  /** An event opens a reply exactly when its id is not known yet. */
  lemma OpensExactly(responses: map<string, nat>, events: seq<Event>, origins: seq<Origin>, e: Event)
    requires Answering(responses, events, origins) && e.body.AssistantEvent?
    ensures Opens(events + [e], |events|) <==> e.body.messageId == "" || e.body.messageId !in responses
  {
    var more, id := events + [e], e.body.messageId;
    assert more[|events|] == e;
    if id != "" && id in responses {
      assert LeadsTo(responses, events, origins, id);
      var k := origins[responses[id]].k;
      assert SameReply(more[k], more[|events|]);
    } else if id != "" {
      forall j | 0 <= j < |events|
        ensures !SameReply(more[j], e)
      {
        assert more[j] == events[j] && KnowsReply(responses, events[j]);
      }
    }
  }

  /** The responses after an event that opens a reply. */
  lemma OpeningAnswers(responses: map<string, nat>, events: seq<Event>, origins: seq<Origin>, e: Event, after: map<string, nat>)
    requires Answering(responses, events, origins) && e.body.AssistantEvent?
    requires e.body.messageId == "" || e.body.messageId !in responses
    requires after == if e.body.messageId == "" then responses else responses[e.body.messageId := |origins|]
    ensures Answering(after, events + [e], origins + [FromReply(|events|)])
  {
    var more, all := events + [e], origins + [FromReply(|events|)];
    assert more[|events|] == e;
    forall id | id in after
      ensures LeadsTo(after, more, all, id)
    {
      if id in responses {
        assert LeadsTo(responses, events, origins, id);
      }
    }
    forall n | 0 <= n < |all|
      ensures OwnReply(after, more, all, n)
    {
      if n < |origins| {
        assert OwnReply(responses, events, origins, n);
      }
    }
    forall k | 0 <= k < |more|
      ensures KnowsReply(after, more[k])
    {
      if k < |events| {
        assert more[k] == events[k] && KnowsReply(responses, events[k]);
      }
    }
  }

  /** The responses after any other event, which gives no reply. */
  lemma OthersAnswer(responses: map<string, nat>, events: seq<Event>, origins: seq<Origin>, e: Event, added: seq<Origin>)
    requires Answering(responses, events, origins) && KnowsReply(responses, e)
    requires forall i | 0 <= i < |added| :: !added[i].FromReply?
    ensures Answering(responses, events + [e], origins + added)
  {
    var more, all := events + [e], origins + added;
    assert more[|events|] == e;
    forall id | id in responses
      ensures LeadsTo(responses, more, all, id)
    {
      assert LeadsTo(responses, events, origins, id);
    }
    forall n | 0 <= n < |all|
      ensures OwnReply(responses, more, all, n)
    {
      if n < |origins| {
        assert OwnReply(responses, events, origins, n);
      }
    }
    forall k | 0 <= k < |more|
      ensures KnowsReply(responses, more[k])
    {
      if k < |events| {
        assert more[k] == events[k] && KnowsReply(responses, events[k]);
      }
    }
  }

  /** New messages behind those that the event does not belong to. */
  lemma AppendedSay(records: seq<Message>, added: seq<Message>, events: seq<Event>, e: Event, origins: seq<Origin>,
        more: seq<Origin>)
    requires AllSay(records, events, origins) && AllSay(added, events + [e], more)
    requires forall n | 0 <= n < |origins| && origins[n].FromReply? :: !SameReply(events[origins[n].k], e)
    ensures AllSay(records + added, events + [e], origins + more)
  {
    forall n | 0 <= n < |origins + more|
      ensures Says((records + added)[n], events + [e], (origins + more)[n])
    {
      if n < |origins| {
        assert Says(records[n], events, origins[n]);
        SaysStays(records[n], events, e, origins[n]);
      } else {
        assert Says(added[n - |origins|], events + [e], more[n - |origins|]);
      }
    }
  }

  /** One message is extended by the event of its reply. */
  lemma ExtendedSay(records: seq<Message>, at: nat, events: seq<Event>, e: Event, origins: seq<Origin>)
    requires AllSay(records, events, origins) && at < |records| && records[at].Reply? && origins[at].FromReply?
    requires e.body.AssistantEvent? && SameReply(events[origins[at].k], e)
    requires forall n | 0 <= n < |origins| && n != at && origins[n].FromReply? :: !SameReply(events[origins[n].k], e)
    ensures AllSay(records[at := Extended(records[at], e)], events + [e], origins)
  {
    forall n | 0 <= n < |origins|
      ensures Says(records[at := Extended(records[at], e)][n], events + [e], origins[n])
    {
      assert Says(records[n], events, origins[n]);
      if n == at {
        ExtendedSays(records[at], events, e, origins[at].k);
      } else {
        SaysStays(records[n], events, e, origins[n]);
      }
    }
  }

  ghost predicate Transcribed(s: Session, events: seq<Event>) {
    AllSay(s.records, events, Origins(events)) && Answering(s.responses, events, Origins(events))
  }

  lemma AssistantKeeps(s: Session, events: seq<Event>, e: Event)
    requires Known(s) && Transcribed(s, events) && e.body.AssistantEvent?
    ensures Transcribed(TakeAssistant(s, e), events + [e])
  {
    var origins, id, after := Origins(events), e.body.messageId, TakeAssistant(s, e);
    OpensExactly(s.responses, events, origins, e);
    OriginsMore(events, e);
    assert (events + [e])[|events|] == e;
    if id == "" || id !in s.responses {
      forall n | 0 <= n < |origins| && origins[n].FromReply?
        ensures !SameReply(events[origins[n].k], e)
      {
        assert Says(s.records[n], events, origins[n]) && KnowsReply(s.responses, events[origins[n].k]);
      }
      OpenedSays(events, e);
      AppendedSay(s.records, [Opened(e)], events, e, origins, [FromReply(|events|)]);
      OpeningAnswers(s.responses, events, origins, e, after.responses);
      assert after.records == s.records + [Opened(e)];
    } else {
      var at := s.responses[id];
      assert LeadsTo(s.responses, events, origins, id);
      forall n | 0 <= n < |origins| && n != at && origins[n].FromReply?
        ensures !SameReply(events[origins[n].k], e)
      {
        assert Says(s.records[n], events, origins[n]) && OwnReply(s.responses, events, origins, n);
      }
      assert Says(s.records[at], events, origins[at]);
      ExtendedSay(s.records, at, events, e, origins);
      OthersAnswer(s.responses, events, origins, e, []);
      assert origins + [] == origins;
      assert after.records == s.records[at := Extended(s.records[at], e)];
    }
  }

  /** The results of a user event. */
  function OutcomesIn(blocks: seq<Block>, at: Option<int>): seq<Message> {
    if blocks == [] then []
    else
      var b := blocks[|blocks| - 1];
      OutcomesIn(blocks[..|blocks| - 1], at) + if b.ToolOutcome? then [Outcome(b.callId, b.content, b.isError, at)] else []
  }

  lemma {:induction false} OutcomesAdd(s: Session, blocks: seq<Block>, batch: Note, single: bool, at: Option<int>)
    ensures var after := TakeOutcomes(s, blocks, batch, single, at);
      after.records == s.records + OutcomesIn(blocks, at) && after.responses == s.responses
  {
    if blocks != [] {
      OutcomesAdd(s, blocks[..|blocks| - 1], batch, single, at);
    }
  }

  lemma {:induction false} OutcomesSay(events: seq<Event>, k: nat, n: nat)
    requires k < |events| && events[k].body.UserEvent? && n <= |events[k].body.blocks|
    ensures AllSay(OutcomesIn(events[k].body.blocks[..n], events[k].at), events, ResultPlaces(events[k].body.blocks[..n], k))
    ensures forall i | 0 <= i < |ResultPlaces(events[k].body.blocks[..n], k)| ::
          !ResultPlaces(events[k].body.blocks[..n], k)[i].FromReply?
  {
    if n > 0 {
      var blocks := events[k].body.blocks;
      OutcomesSay(events, k, n - 1);
      assert blocks[..n][..n - 1] == blocks[..n - 1];
      assert blocks[n - 1].ToolOutcome? ==>
        ResultSaysBlock(Outcome(blocks[n - 1].callId, blocks[n - 1].content, blocks[n - 1].isError, events[k].at), events[k], n - 1);
    }
  }

  lemma {:induction false} PlainTextsCollected(blocks: seq<Block>)
    ensures PlainTexts(blocks) == Collect(blocks, TextIn)
  {
    if blocks != [] {
      PlainTextsCollected(blocks[..|blocks| - 1]);
    }
  }

  lemma {:induction false} JoinedByMore(separator: string, texts: seq<string>, last: string)
    requires texts != []
    ensures JoinedBy(separator, texts + [last]) == JoinedBy(separator, texts) + separator + last
  {
    if |texts| == 1 {
      assert (texts + [last])[1..] == [last];
    } else {
      JoinedByMore(separator, texts[1..], last);
      assert (texts + [last])[1..] == texts[1..] + [last];
    }
  }

  lemma {:induction false} JoinsInOrder(separator: string, texts: seq<string>)
    ensures JoinWith(separator, texts) == JoinedBy(separator, texts)
  {
    if |texts| > 1 {
      var init := texts[..|texts| - 1];
      JoinsInOrder(separator, init);
      JoinedByMore(separator, init, texts[|texts| - 1]);
      assert init + [texts[|texts| - 1]] == texts;
    }
  }

  function RemarksIn(e: Event): seq<Message>
    requires e.body.UserEvent?
  {
    if HasPlain(e.body.blocks) then [Remark(if e.body.system then System else User, JoinWith("\n", PlainTexts(e.body.blocks)), e.at)] else []
  }

  lemma SayBoth(a: seq<Message>, b: seq<Message>, events: seq<Event>, x: seq<Origin>, y: seq<Origin>)
    requires AllSay(a, events, x) && AllSay(b, events, y)
    ensures AllSay(a + b, events, x + y)
  {
    forall n | 0 <= n < |x + y|
      ensures Says((a + b)[n], events, (x + y)[n])
    {
      if n < |x| {
        assert Says(a[n], events, x[n]);
      } else {
        assert Says(b[n - |x|], events, y[n - |x|]);
      }
    }
  }

  lemma UserAdds(s: Session, e: Event)
    requires e.body.UserEvent?
    ensures TakeUser(s, e).records == s.records + (OutcomesIn(e.body.blocks, e.at) + RemarksIn(e)) &&
          TakeUser(s, e).responses == s.responses
  {
    OutcomesAdd(s, e.body.blocks, e.body.batch, OutcomeCount(e.body.blocks) == 1, e.at);
  }

  lemma UserSays(events: seq<Event>, k: nat)
    requires k < |events| && events[k].body.UserEvent?
    ensures AllSay(OutcomesIn(events[k].body.blocks, events[k].at) + RemarksIn(events[k]), events, OriginsAt(events, k))
    ensures forall i | 0 <= i < |OriginsAt(events, k)| :: !OriginsAt(events, k)[i].FromReply?
  {
    var e, blocks := events[k], events[k].body.blocks;
    OutcomesSay(events, k, |blocks|);
    assert blocks[..|blocks|] == blocks;
    PlainTextsCollected(blocks);
    JoinsInOrder("\n", PlainTexts(blocks));
    var remarks := if HasPlain(blocks) then [FromRemark(k)] else [];
    assert AllSay(RemarksIn(e), events, remarks);
    SayBoth(OutcomesIn(blocks, e.at), RemarksIn(e), events, ResultPlaces(blocks, k), remarks);
    assert OriginsAt(events, k) == ResultPlaces(blocks, k) + remarks;
  }

  lemma OtherKeeps(s: Session, events: seq<Event>, e: Event, added: seq<Message>, after: Session)
    requires Transcribed(s, events) && !e.body.AssistantEvent? && AllSay(added, events + [e], OriginsAt(events + [e], |events|))
    requires forall i | 0 <= i < |OriginsAt(events + [e], |events|)| :: !OriginsAt(events + [e], |events|)[i].FromReply?
    requires after.records == s.records + added && after.responses == s.responses
    ensures Transcribed(after, events + [e])
  {
    var origins, more := Origins(events), OriginsAt(events + [e], |events|);
    OriginsMore(events, e);
    AppendedSay(s.records, added, events, e, origins, more);
    OthersAnswer(s.responses, events, origins, e, more);
  }

  lemma EventKeeps(s: Session, events: seq<Event>, e: Event)
    requires Known(s) && Transcribed(s, events)
    ensures Transcribed(TakeBody(s, e), events + [e])
  {
    var more, k := events + [e], |events|;
    assert more[k] == e;
    match e.body {
      case AssistantEvent(_, _, _, _, _) => AssistantKeeps(s, events, e);
      case UserEvent(_, _, _) =>
        UserAdds(s, e);
        UserSays(more, k);
        OtherKeeps(s, events, e, OutcomesIn(e.body.blocks, e.at) + RemarksIn(e), TakeBody(s, e));
      case SystemEvent(text) =>
        assert Says(Remark(System, text, e.at), more, FromRemark(k));
        OtherKeeps(s, events, e, [Remark(System, text, e.at)], TakeBody(s, e));
      case OtherEvent(kind) =>
        assert Says(Remark(System, "[Claude event: " + kind + "]", e.at), more, FromRemark(k));
        OtherKeeps(s, events, e, [Remark(System, "[Claude event: " + kind + "]", e.at)], TakeBody(s, e));
      case Bookkeeping =>
        assert s.records + [] == s.records;
        OtherKeeps(s, events, e, [], TakeBody(s, e));
    }
  }

  /** Without replays, each message of a session says what its events say, and there is one for each that
      opens a reply, each result and each remark, in order. */
  lemma {:induction false} SessionSaysEvents(events: seq<Event>)
    requires NoReplay(events)
    ensures Transcribed(SessionOf(events), events)
  {
    if events != [] {
      var init, e := events[..|events| - 1], events[|events| - 1];
      forall i | 0 <= i < |init|
        ensures !Replayed(init, i)
      {
        assert !Replayed(events, i);
        assert forall j | 0 <= j <= i :: init[j] == events[j];
      }
      SessionSaysEvents(init);
      assert init + [e] == events;
      assert !Replayed(events, |init|);
      if e.uuid.Some? {
        SeenExactly(init, e.uuid.value);
        assert forall j | 0 <= j < |init| :: init[j] == events[j];
        EventKeeps(SessionOf(init).(seen := SessionOf(init).seen + {e.uuid.value}), init, e);
      } else {
        EventKeeps(SessionOf(init), init, e);
      }
      SessionMore(init, e);
    }
  }

  /** Conservation: the messages of any session are those of its events without replays. */
  lemma MessagesSayEvents(events: seq<Event>)
    ensures AllSay(SessionOf(events).records, Fresh(events), Origins(Fresh(events)))
  {
    FreshSaysAll(events);
    FreshHasNoReplay(events);
    SessionSaysEvents(Fresh(events));
  }

  /* ------------------------------------------------------------------ from events to steps */

  /** The records and the steps of a session. */
  function RecordsIn(events: seq<Event>): seq<Record> { RecordsOf(SessionOf(events).records) }

  function StepsIn(events: seq<Event>, cfg: Config): State { Run(RecordsIn(events), Build(cfg), cfg) }

  function BecameOf(events: seq<Event>, n: nat, cfg: Config): Fate
    requires n < |RecordsIn(events)|
  {
    Became(RecordsIn(events), n, Build(cfg), cfg)
  }

  function BoundedText(text: string, cfg: Config): string { cfg.redact(Bounded(text, cfg)) }

  /** The step of a reply says its texts, its thoughts, its calls and its usage; one without a model call says
      no thoughts and no usage. */
  predicate StepSaysReply(step: Step, meta: StepMeta, events: seq<Event>, k: nat, cfg: Config)
    requires k < |events| && events[k].body.AssistantEvent?
  {
    var parts, first := Parts(events, k), events[k];
    var synthetic := first.body.model == "<synthetic>" || first.body.apiError;
    var thoughts := JoinedBy("\n\n", CollectAll(parts, ThoughtIn));
    var calls := Firsts(UsesAll(parts));
    && step.source.Agent? && step.message == Str(BoundedText(JoinedBy("\n", CollectAll(parts, TextIn)), cfg))
    && step.reasoning == (if synthetic || thoughts == "" then None else Some(BoundedText(thoughts, cfg)))
    && step.model == (if first.body.model == "" then None else Some(first.body.model))
    && step.llmCalls == (if synthetic then Some(0) else None)
    && |step.calls| == |calls| && |meta.tools| == |calls|
    && (forall i | 0 <= i < |calls| :: CallReaches(calls[i], step.calls[i], cfg))
    && step.metrics == (if synthetic || !AnyUsage(parts) then None else Some(UsageMetrics(parts)))
    && meta.timestamp == first.at
  }

  /** A call keeps its id, its name and its redacted arguments, which are cut down only when they are too long. */
  predicate CallReaches(call: Call, made: ToolCall, cfg: Config) {
    var arguments := cfg.redactArguments(call.arguments);
    && made.id == call.id && made.name == call.name
    && made.arguments == if |cfg.dumpArguments(arguments)| <= cfg.limit then arguments
                         else map["_peval_truncated_json" := Str(cfg.dumpArguments(arguments)[..cfg.limit])]
  }

  function AsInt(n: Option<nat>): Option<int> { if n.Some? then Some(n.value) else None }

  /** The prompt is the sum of its three parts when all are known; cached tokens need a prompt. */
  function UsageMetrics(parts: seq<Event>): Metrics {
    var input, read, write := LastReported(parts, InputOf), LastReported(parts, ReadOf), LastReported(parts, WriteOf);
    var known := input.Some? && read.Some? && write.Some?;
    Metrics(if known then Some(input.value + read.value + write.value) else None,
            AsInt(LastReported(parts, OutputOf)), if known then AsInt(read) else None, None)
  }

  lemma NumbersGive(u: Usage)
    ensures MetricsOf(NumbersOf(u), map[]) == Metrics(AsInt(u.prompt), AsInt(u.output), AsInt(u.read), None)
  {
    PromptOf(u);
    CompletionOf(u);
    CachedOf(u);
    CostOf(u);
  }

  /** Cached tokens without a prompt are dropped. */
  function WithoutStray(m: Metrics): Metrics { if m.prompt.None? then m.(cached := None) else m }

  lemma UsageNumbers(u: Usage, parts: seq<Event>)
    requires UsageSays(u, parts)
    ensures WithoutStray(Metrics(AsInt(u.prompt), AsInt(u.output), AsInt(u.read), None)) == UsageMetrics(parts)
  {
  }

  lemma SilentUsage(u: Usage, parts: seq<Event>)
    requires UsageSays(u, parts) && !u.given
    ensures NumbersOf(u) == map[]
  {
    NothingReported(parts, InputOf);
    NothingReported(parts, OutputOf);
    NothingReported(parts, ReadOf);
    NothingReported(parts, WriteOf);
  }

  lemma {:induction false} NothingReported(parts: seq<Event>, field: RawUsage -> Option<int>)
    requires !AnyUsage(parts)
    ensures LastReported(parts, field).None?
  {
    if parts != [] {
      var init := parts[..|parts| - 1];
      assert forall i | 0 <= i < |init| :: init[i] == parts[i];
      assert !Reports(parts[|parts| - 1], field);
      NothingReported(init, field);
    }
  }

  /** What the hook for replies changes about the step of the shared adapter. */
  lemma HookSays(rec: Record, id: int, cfg: Config)
    requires rec.Assistant?
    ensures var made, base := BuildStep(rec, id, cfg), AssistantStep(rec, id, cfg);
      && made.Some? && made.value.meta == base.meta
      && made.value.step == base.step.(
           model := if rec.model != "" then Some(rec.model) else None,
           llmCalls := if rec.synthetic then Some(0) else None,
           reasoning := if rec.synthetic then None else base.step.reasoning,
           metrics := if rec.synthetic || base.step.metrics.None? then None else Some(WithoutStray(base.step.metrics.value)))
      && (base.step.metrics.Some? ==> base.step.metrics.value == MetricsOf(rec.usage, rec.accounting))
      && (base.step.metrics.None? <==>
            MetricsOf(rec.usage, rec.accounting) == Metrics(None, None, None, None) && !rec.hasUsage && rec.accounting == map[])
  {
  }

  lemma MetricsBuilt(m: Message, parts: seq<Event>, id: int, cfg: Config)
    requires m.Reply? && UsageSays(m.usage, parts)
    ensures BuildStep(RecordOf(m), id, cfg).value.step.metrics ==
      if m.synthetic || !AnyUsage(parts) then None else Some(UsageMetrics(parts))
  {
    HookSays(RecordOf(m), id, cfg);
    NumbersGive(m.usage);
    UsageNumbers(m.usage, parts);
    EmptyGivesValidMetrics();
    if !m.usage.given {
      SilentUsage(m.usage, parts);
    }
  }

  lemma CallsBuilt(m: Message, id: int, cfg: Config)
    requires m.Reply?
    ensures var made := BuildStep(RecordOf(m), id, cfg).value;
      && |made.step.calls| == |m.calls| == |made.meta.tools|
      && forall i | 0 <= i < |m.calls| :: CallReaches(m.calls[i], made.step.calls[i], cfg)
  {
    HookSays(RecordOf(m), id, cfg);
  }

  lemma TextsBuilt(m: Message, id: int, cfg: Config)
    requires m.Reply?
    ensures var made, thoughts := BuildStep(RecordOf(m), id, cfg).value, JoinedBy("\n\n", m.reasonings);
      && made.step.source.Agent? && made.step.message == Str(BoundedText(JoinedBy("\n", m.texts), cfg))
      && made.step.reasoning == (if m.synthetic || thoughts == "" then None else Some(BoundedText(thoughts, cfg)))
      && made.meta.timestamp == m.at
  {
    HookSays(RecordOf(m), id, cfg);
    JoinsInOrder("\n", m.texts);
    JoinsInOrder("\n\n", m.reasonings);
  }

  lemma ReplyBuilds(m: Message, events: seq<Event>, k: nat, id: int, cfg: Config)
    requires k < |events| && ReplySaysEvents(m, events, k)
    ensures var made := BuildStep(RecordOf(m), id, cfg);
      made.Some? && StepSaysReply(made.value.step, made.value.meta, events, k, cfg)
  {
    HookSays(RecordOf(m), id, cfg);
    TextsBuilt(m, id, cfg);
    CallsBuilt(m, id, cfg);
    MetricsBuilt(m, Parts(events, k), id, cfg);
  }

  /** Results that are attached and the facts beside them do not change what a step says. */
  lemma ReplySaidStays(before: Step, after: Step, meta: StepMeta, later: StepMeta, events: seq<Event>, k: nat, cfg: Config)
    requires k < |events| && events[k].body.AssistantEvent? && StepSaysReply(before, meta, events, k, cfg)
    requires SameButResults(before, after) && SameButFacts(meta, later)
    ensures StepSaysReply(after, later, events, k, cfg)
  {
  }

  /** The records of a session, one for each origin. */
  lemma RecordsSay(events: seq<Event>, n: nat)
    requires n < |Origins(Fresh(events))|
    ensures |RecordsIn(events)| == |SessionOf(events).records| == |Origins(Fresh(events))|
    ensures RecordsIn(events)[n] == RecordOf(SessionOf(events).records[n])
    ensures Says(SessionOf(events).records[n], Fresh(events), Origins(Fresh(events))[n])
  {
    MessagesSayEvents(events);
  }

  /** Where the hook gives a step, it is in the steps of the run from then on. */
  lemma HookReachesStep(records: seq<Record>, n: nat, cfg: Config)
    requires n < |records| && !records[n].ToolResult?
    requires forall id :: BuildStep(records[n], id, cfg).Some?
    ensures var j, st := |Run(records[..n], Build(cfg), cfg).steps|, Run(records, Build(cfg), cfg);
      && Became(records, n, Build(cfg), cfg) == NewStep(j) && j < |st.steps| == |st.metas|
      && SameButResults(BuildStep(records[n], j + 1, cfg).value.step, st.steps[j])
      && SameButFacts(BuildStep(records[n], j + 1, cfg).value.meta, st.metas[j])
  {
    StepSaysRecord(records, n, Build(cfg), cfg);
  }

  lemma ReplyAtStep(messages: seq<Message>, n: nat, events: seq<Event>, k: nat, cfg: Config, st: State, j: nat)
    requires n < |messages| && k < |events| && ReplySaysEvents(messages[n], events, k)
    requires st == Run(RecordsOf(messages), Build(cfg), cfg) && j == |Run(RecordsOf(messages)[..n], Build(cfg), cfg).steps|
    ensures Became(RecordsOf(messages), n, Build(cfg), cfg) == NewStep(j) && j < |st.steps| == |st.metas|
    ensures StepSaysReply(st.steps[j], st.metas[j], events, k, cfg)
  {
    ReplyBuilds(messages[n], events, k, j + 1, cfg);
    HookReachesStep(RecordsOf(messages), n, cfg);
    var made := BuildStep(RecordOf(messages[n]), j + 1, cfg).value;
    ReplySaidStays(made.step, st.steps[j], made.meta, st.metas[j], events, k, cfg);
  }

  /** Every reply of the session has a step of its own, and that step says what the events of the reply say. */
  lemma ReplyReachesStep(events: seq<Event>, cfg: Config, n: nat)
    requires n < |Origins(Fresh(events))| && Origins(Fresh(events))[n].FromReply?
    ensures n < |RecordsIn(events)| && BecameOf(events, n, cfg).NewStep?
    ensures var f, st, j := Fresh(events), StepsIn(events, cfg), BecameOf(events, n, cfg).step;
      var k := Origins(f)[n].k;
      && j < |st.steps| == |st.metas| && k < |f| && f[k].body.AssistantEvent?
      && StepSaysReply(st.steps[j], st.metas[j], f, k, cfg)
  {
    RecordsSay(events, n);
    ReplyAtStep(SessionOf(events).records, n, Fresh(events), Origins(Fresh(events))[n].k, cfg, StepsIn(events, cfg),
                |Run(RecordsIn(events)[..n], Build(cfg), cfg).steps|);
  }

  lemma RemarkAtStep(messages: seq<Message>, n: nat, cfg: Config, st: State, j: nat)
    requires n < |messages| && messages[n].Remark?
    requires st == Run(RecordsOf(messages), Build(cfg), cfg) && j == |Run(RecordsOf(messages)[..n], Build(cfg), cfg).steps|
    ensures Became(RecordsOf(messages), n, Build(cfg), cfg) == NewStep(j) && j < |st.steps|
    ensures st.steps[j] == Step(j + 1, messages[n].source, Str(BoundedText(messages[n].text, cfg)), None, None, None, [],
                                st.steps[j].observation, None, None, map[])
  {
    PlainSays(RecordOf(messages[n]), j + 1, cfg);
    HookReachesStep(RecordsOf(messages), n, cfg);
  }

  /** Every remark has a step of its own, which says its text. */
  lemma RemarkReachesStep(events: seq<Event>, cfg: Config, n: nat)
    requires n < |Origins(Fresh(events))| && Origins(Fresh(events))[n].FromRemark?
    ensures n < |RecordsIn(events)| && BecameOf(events, n, cfg).NewStep?
    ensures var f, st, j := Fresh(events), StepsIn(events, cfg), BecameOf(events, n, cfg).step;
      var k, m := Origins(f)[n].k, SessionOf(events).records[n];
      && j < |st.steps| && k < |f| && RemarkSays(m, f[k])
      && st.steps[j] == Step(j + 1, m.source, Str(BoundedText(m.text, cfg)), None, None, None, [], st.steps[j].observation, None, None, map[])
  {
    RecordsSay(events, n);
    RemarkAtStep(SessionOf(events).records, n, cfg, StepsIn(events, cfg), |Run(RecordsIn(events)[..n], Build(cfg), cfg).steps|);
  }

  /** Every result stands at one place, with the redacted, bounded content, the call and the error flag of its
      block. */
  lemma ResultReachesStep(events: seq<Event>, cfg: Config, n: nat) returns (step: nat, place: nat)
    requires n < |Origins(Fresh(events))| && Origins(Fresh(events))[n].FromResult?
    ensures var f, o, st := Fresh(events), Origins(Fresh(events))[n], StepsIn(events, cfg);
      && Owns(RecordsIn(events), n, step, place, Build(cfg), cfg)
      && o.k < |f| && f[o.k].body.UserEvent? && o.b < |f[o.k].body.blocks| && f[o.k].body.blocks[o.b].ToolOutcome?
      && step < |st.steps| == |st.metas| && place < |Results(st.steps[step])| == |st.metas[step].observations|
      && var block, result, meta := f[o.k].body.blocks[o.b], Results(st.steps[step])[place], st.metas[step].observations[place];
         && result.content == Some(cfg.redactJson(BoundedValue(block.content, cfg)))
         && result.source == meta.source == (if block.callId == "" then None else Some(block.callId))
         && meta.isError == block.isError && meta.status == Some(if block.isError then "error" else "completed")
         && meta.finished == f[o.k].at
  {
    RecordsSay(events, n);
    var records := RecordsIn(events);
    match Became(records, n, Build(cfg), cfg) {
      case NewStep(j) => step, place := j, 0;
      case Attached(j, p) => step, place := j, p;
      case Unmapped => assert false;
    }
    BuildBuilds(cfg);
    PlaceSaysRecord(records, n, step, place, Build(cfg), cfg);
  }

  /* ------------------------------------------------------------------ links and counts */

  /** The note of a result: its own, or that of its event when it is the only result there. */
  function NoteOf(e: Event, b: nat): Note
    requires e.body.UserEvent? && b < |e.body.blocks| && e.body.blocks[b].ToolOutcome?
  {
    if e.body.blocks[b].note.Present? then e.body.blocks[b].note
    else if forall i | 0 <= i < |e.body.blocks| && e.body.blocks[i].ToolOutcome? :: i == b then e.body.batch else Absent
  }

  /** The subagent that a result of the event names for a call, the last one. */
  function LinkIn(e: Event, id: string, n: nat): Option<string>
    requires e.body.UserEvent? && n <= |e.body.blocks|
  {
    if n == 0 then None
    else
      var b := e.body.blocks[n - 1];
      if b.ToolOutcome? && b.callId == id && NoteOf(e, n - 1).Present? && NoteOf(e, n - 1).agent.Some? then NoteOf(e, n - 1).agent
      else LinkIn(e, id, n - 1)
  }

  function LastLink(events: seq<Event>, id: string): Option<string> {
    if events == [] then None
    else
      var e := events[|events| - 1];
      if e.body.UserEvent? && LinkIn(e, id, |e.body.blocks|).Some? then LinkIn(e, id, |e.body.blocks|)
      else LastLink(events[..|events| - 1], id)
  }

  function Lookup(linked: map<string, string>, id: string): Option<string> { if id in linked then Some(linked[id]) else None }

  lemma {:induction false} OnlyOutcome(blocks: seq<Block>, b: nat)
    requires b < |blocks| && blocks[b].ToolOutcome?
    ensures OutcomeCount(blocks) >= 1
    ensures OutcomeCount(blocks) == 1 <==> forall i | 0 <= i < |blocks| && blocks[i].ToolOutcome? :: i == b
  {
    var n := |blocks| - 1;
    if b == n {
      NoOutcome(blocks[..n]);
      assert forall i | 0 <= i < n :: blocks[..n][i] == blocks[i];
    } else {
      OnlyOutcome(blocks[..n], b);
      assert forall i | 0 <= i < n :: blocks[..n][i] == blocks[i];
    }
  }

  lemma {:induction false} NoOutcome(blocks: seq<Block>)
    ensures OutcomeCount(blocks) == 0 <==> forall i | 0 <= i < |blocks| :: !blocks[i].ToolOutcome?
  {
    if blocks != [] {
      NoOutcome(blocks[..|blocks| - 1]);
    }
  }

  lemma {:induction false} OutcomesLink(s: Session, e: Event, n: nat, id: string)
    requires e.body.UserEvent? && n <= |e.body.blocks| && id != ""
    ensures var after := TakeOutcomes(s, e.body.blocks[..n], e.body.batch, OutcomeCount(e.body.blocks) == 1, e.at);
      Lookup(after.linked, id) == if LinkIn(e, id, n).Some? then LinkIn(e, id, n) else Lookup(s.linked, id)
  {
    if n > 0 {
      OutcomesLink(s, e, n - 1, id);
      assert e.body.blocks[..n][..n - 1] == e.body.blocks[..n - 1];
      if e.body.blocks[n - 1].ToolOutcome? {
        OnlyOutcome(e.body.blocks, n - 1);
      }
    }
  }

  lemma EventLinks(s: Session, e: Event, id: string)
    requires Known(s) && id != ""
    ensures Lookup(TakeBody(s, e).linked, id) ==
      if e.body.UserEvent? && LinkIn(e, id, |e.body.blocks|).Some? then LinkIn(e, id, |e.body.blocks|) else Lookup(s.linked, id)
  {
    if e.body.UserEvent? {
      OutcomesLink(s, e, |e.body.blocks|, id);
      assert e.body.blocks[..|e.body.blocks|] == e.body.blocks;
    }
  }

  function OtherEvents(events: seq<Event>): nat {
    if events == [] then 0 else OtherEvents(events[..|events| - 1]) + if events[|events| - 1].body.OtherEvent? then 1 else 0
  }

  lemma EventCounts(s: Session, e: Event)
    requires Known(s)
    ensures TakeBody(s, e).unmapped == s.unmapped + if e.body.OtherEvent? then 1 else 0
  {
    if e.body.UserEvent? {
      OutcomesCount(s, e.body.blocks, e.body.batch, OutcomeCount(e.body.blocks) == 1, e.at);
    }
  }

  lemma {:induction false} OutcomesCount(s: Session, blocks: seq<Block>, batch: Note, single: bool, at: Option<int>)
    ensures TakeOutcomes(s, blocks, batch, single, at).unmapped == s.unmapped
  {
    if blocks != [] {
      OutcomesCount(s, blocks[..|blocks| - 1], batch, single, at);
    }
  }

  lemma {:induction false} FreshLinks(events: seq<Event>, id: string)
    requires NoReplay(events) && id != ""
    ensures Lookup(SessionOf(events).linked, id) == LastLink(events, id) && SessionOf(events).unmapped == OtherEvents(events)
  {
    if events != [] {
      var init, e := events[..|events| - 1], events[|events| - 1];
      forall i | 0 <= i < |init|
        ensures !Replayed(init, i)
      {
        assert !Replayed(events, i);
        assert forall j | 0 <= j <= i :: init[j] == events[j];
      }
      FreshLinks(init, id);
      assert !Replayed(events, |init|);
      var s := if e.uuid.Some? then SessionOf(init).(seen := SessionOf(init).seen + {e.uuid.value}) else SessionOf(init);
      if e.uuid.Some? {
        SeenExactly(init, e.uuid.value);
        assert forall j | 0 <= j < |init| :: init[j] == events[j];
      }
      EventLinks(s, e, id);
      EventCounts(s, e);
    }
  }

  /** A call is linked to the subagent that the last of its results names, and unknown events are counted once. */
  lemma LinksSayEvents(events: seq<Event>, id: string)
    requires id != ""
    ensures Lookup(SessionOf(events).linked, id) == LastLink(Fresh(events), id)
    ensures SessionOf(events).unmapped == OtherEvents(Fresh(events))
  {
    FreshSaysAll(events);
    FreshHasNoReplay(events);
    FreshLinks(Fresh(events), id);
  }
}
