/** What the log says about tool calls, read off the updates alone: which log is accepted, what is known of a
    call after all its updates, and what its call and its observation therefore hold. */
module AcpCalls {
  import opened AcpConvert
  import opened AcpLog

  /* ------------------------------------------------------------------ the last value of a key */

  /** The value of a key in the last update that holds it. */
  function LastWith(updates: seq<Fields>, key: string): Option<Json> {
    if updates == [] then None
    else if key in updates[|updates| - 1] then Some(updates[|updates| - 1][key])
    else LastWith(updates[..|updates| - 1], key)
  }

  /** The value of a metadata key in the last update that gives it one. */
  function LastMeta(updates: seq<Fields>, key: string): Option<Json> {
    if updates == [] then None
    else
      var d := Metadata(updates[|updates| - 1]);
      if d.Some? && !Get(d.value, key).Null? then Some(Get(d.value, key)) else LastMeta(updates[..|updates| - 1], key)
  }

  /** The name that an update gives: the native one before its own. */
  function NameIn(update: Fields, format: Format): Option<Json> {
    var native := if format.Codebuddy? && Metadata(update).Some? then Get(Metadata(update).value, TOOL_NAME) else Null;
    if !native.Null? then Some(native) else if "name" in update then Some(update["name"]) else None
  }

  function LastName(updates: seq<Fields>, format: Format): Option<Json> {
    if updates == [] then None
    else
      var last := NameIn(updates[|updates| - 1], format);
      if last.Some? then last else LastName(updates[..|updates| - 1], format)
  }

  function OrNull(value: Option<Json>): Json { if value.Some? then value.value else Null }

  /** The state of a call holds exactly the keys of its updates, each with its last value.  In the codebuddy
      format this is said of the metadata one level deeper, and a native name stands for the name. */
  ghost predicate Holds(state: Fields, updates: seq<Fields>, format: Format) {
    && (forall key :: (key != "name" || !format.Codebuddy?) && (key != META || !format.Codebuddy?) ==>
          (key in state <==> LastWith(updates, key).Some?) && Get(state, key) == OrNull(LastWith(updates, key)))
    && (format.Codebuddy? ==>
          && ("name" in state <==> LastName(updates, format).Some?) && Get(state, "name") == OrNull(LastName(updates, format))
          && (META in state <==> updates != []) && Metadata(state).Some?
          && forall key :: (key in Metadata(state).value <==> LastMeta(updates, key).Some?) &&
                           Get(Metadata(state).value, key) == OrNull(LastMeta(updates, key)))
  }

  lemma {:induction false} FoldHolds(updates: seq<Fields>, format: Format)
    requires MergeAll(updates, format).Some?
    ensures Holds(MergeAll(updates, format).value, updates, format)
  {
    if updates != [] {
      var init, last := updates[..|updates| - 1], updates[|updates| - 1];
      FoldHolds(init, format);
      MergeHolds(MergeAll(init, format).value, init, last, format);
      assert init + [last] == updates;
    }
  }

  lemma MergeHolds(state: Fields, updates: seq<Fields>, update: Fields, format: Format)
    requires Holds(state, updates, format) && Merge(state, update, format).Some?
    ensures Holds(Merge(state, update, format).value, updates + [update], format)
  {
    var after, more := Merge(state, update, format).value, updates + [update];
    assert more[..|updates|] == updates;
    if format.Codebuddy? {
      assert META != "name" by {
        assert META[0] == '_';
      }
      forall key
        ensures (key in Metadata(after).value <==> LastMeta(more, key).Some?) &&
              Get(Metadata(after).value, key) == OrNull(LastMeta(more, key))
      {
      }
    }
  }

  /* ------------------------------------------------------------------ which updates fit */

  /** The name that the updates so far have given a call. */
  function NameAfter(updates: seq<Fields>, format: Format): Json {
    OrNull(if format.Codebuddy? then LastName(updates, format) else LastWith(updates, "name"))
  }

  /** An update that may follow: it does not rename the call, under either name. */
  predicate Follows(updates: seq<Fields>, update: Fields, format: Format) {
    var name := NameAfter(updates, format);
    && ("name" in update ==> Hashable(name) && Hashable(update["name"]) && (name.Null? || name == update["name"]))
    && (format.Codebuddy? ==>
          && Metadata(update).Some?
          && var native := Get(Metadata(update).value, TOOL_NAME);
             native.Null? || ((name.Null? || name == native) && (Get(update, "name").Null? || Get(update, "name") == native)))
  }

  predicate AllFollow(updates: seq<Fields>, format: Format) {
    forall i | 0 <= i < |updates| :: Follows(updates[..i], updates[i], format)
  }

  /** The updates of a call are merged if and only if each may follow those before it. */
  lemma {:induction false} MergedExactly(updates: seq<Fields>, format: Format)
    ensures MergeAll(updates, format).Some? <==> AllFollow(updates, format)
  {
    if updates != [] {
      var init, last := updates[..|updates| - 1], updates[|updates| - 1];
      MergedExactly(init, format);
      assert forall i | 0 <= i < |init| :: init[..i] == updates[..i];
      assert AllFollow(updates, format) <==> AllFollow(init, format) && Follows(init, last, format) by {
        FollowMore(init, last, format);
        assert init + [last] == updates;
      }
      if MergeAll(init, format).Some? {
        FoldHolds(init, format);
        MergesIfFollows(MergeAll(init, format).value, init, last, format);
      }
    }
  }

  lemma FollowMore(updates: seq<Fields>, update: Fields, format: Format)
    ensures AllFollow(updates + [update], format) <==> AllFollow(updates, format) && Follows(updates, update, format)
  {
    var more := updates + [update];
    assert more[..|updates|] == updates && more[|updates|] == update;
    assert forall i | 0 <= i < |updates| :: more[..i] == updates[..i] && more[i] == updates[i];
    if AllFollow(more, format) {
      assert Follows(more[..|updates|], more[|updates|], format);
      forall i | 0 <= i < |updates|
        ensures Follows(updates[..i], updates[i], format)
      {
        assert Follows(more[..i], more[i], format);
      }
    }
  }

  lemma MergesIfFollows(state: Fields, updates: seq<Fields>, update: Fields, format: Format)
    requires Holds(state, updates, format)
    ensures Merge(state, update, format).Some? <==> Follows(updates, update, format)
  {
    assert Get(state, "name") == NameAfter(updates, format);
  }

  /* ------------------------------------------------------------------ which log is accepted */

  /** A running codebuddy call that is announced again under its name. */
  predicate MayRepeat(updates: seq<Fields>, update: Fields, format: Format) {
    && format.Codebuddy?
    && LastWith(updates, "status") in [Some(Str("pending")), Some(Str("in_progress"))]
    && NameAfter(updates, format) !in EMPTY_VALUES
    && Metadata(update).Some? && Get(Metadata(update).value, TOOL_NAME) == NameAfter(updates, format)
  }

  /** An event that may follow the log: an update of this session that is a well-formed chunk, the announcement
      of a new call, a repeated one of a running call, or an update of a call that was announced. */
  predicate Fits(before: seq<Event>, e: Event, session: string, format: Format) {
    Concerns(e) ==>
      && e.session == session && e.update.Obj? && "sessionUpdate" in e.update.fields
      && var d := e.update.fields;
         var kind := d["sessionUpdate"];
         var updates := if "toolCallId" in d then UpdatesOf(before, d["toolCallId"]) else [];
         && (kind == Str(MESSAGE) || kind == Str(THOUGHT) ==> Readable(d) && (format.Codebuddy? ==> Metadata(d).Some?))
         && (kind == Str("tool_call") ==>
               "toolCallId" in d && Hashable(d["toolCallId"]) && Follows(updates, d, format) &&
               (updates == [] || MayRepeat(updates, d, format)))
         && (kind == Str("tool_call_update") ==> updates != [] && Follows(updates, d, format))
  }

  ghost predicate AllFit(events: seq<Event>, session: string, format: Format) {
    forall i | 0 <= i < |events| :: Fits(events[..i], events[i], session, format)
  }

  lemma AllFitMore(events: seq<Event>, e: Event, session: string, format: Format)
    ensures AllFit(events + [e], session, format) <==> AllFit(events, session, format) && Fits(events, e, session, format)
  {
    var more := events + [e];
    assert more[..|events|] == events && more[|events|] == e;
    assert forall i | 0 <= i < |events| :: more[..i] == events[..i] && more[i] == events[i];
    if AllFit(more, session, format) {
      assert Fits(more[..|events|], more[|events|], session, format);
      forall i | 0 <= i < |events|
        ensures Fits(events[..i], events[i], session, format)
      {
        assert Fits(more[..i], more[i], session, format);
      }
    }
  }

  lemma MergeIntoFits(s: Scan, id: Json, update: Fields, format: Format)
    requires id in s.updates && MergeAll(s.updates[id], format).Some?
    ensures MergeInto(s, id, update, format).Some? <==> Follows(s.updates[id], update, format)
  {
    var updates := s.updates[id];
    assert (updates + [update])[..|updates|] == updates;
    FoldHolds(updates, format);
    MergesIfFollows(MergeAll(updates, format).value, updates, update, format);
  }

  lemma FirstFits(update: Fields, format: Format)
    ensures MergeAll([update], format).Some? <==> Follows([], update, format)
  {
    MergedExactly([update], format);
    assert [update][..0] == [];
  }

  lemma RepeatsExactly(updates: seq<Fields>, update: Fields, format: Format)
    requires MergeAll(updates, format).Some?
    ensures Reannounced(StateOf(updates, format), update, format) <==> MayRepeat(updates, update, format)
  {
    FoldHolds(updates, format);
    assert META[0] == '_';
    assert Holds(StateOf(updates, format), updates, format);
    assert Get(StateOf(updates, format), "status") == OrNull(LastWith(updates, "status"));
    TruthyExactly(NameAfter(updates, format));
  }

  /** The updates of one id are what the scan has for it. */
  ghost predicate Knows(s: Scan, id: Json, updates: seq<Fields>, format: Format) {
    && (id in s.updates <==> updates != [])
    && (id in s.updates ==> s.updates[id] == updates && MergeAll(updates, format).Some?)
  }

  lemma AnnouncementFits(s: Scan, e: Event, session: string, format: Format, updates: seq<Fields>)
    requires Relevant(e) && e.session == session && e.update.Obj? && Get(e.update.fields, "sessionUpdate") == Str("tool_call")
    requires "toolCallId" in e.update.fields && Knows(s, e.update.fields["toolCallId"], updates, format)
    ensures var d := e.update.fields;
      ScanStep(s, e, session, format).Some? <==>
        Hashable(d["toolCallId"]) && Follows(updates, d, format) && (updates == [] || MayRepeat(updates, d, format))
  {
    var d := e.update.fields;
    var id := d["toolCallId"];
    if updates == [] {
      FirstFits(d, format);
    } else {
      MergeIntoFits(s, id, d, format);
      RepeatsExactly(updates, d, format);
    }
  }

  lemma UpdateFits(s: Scan, e: Event, session: string, format: Format, updates: seq<Fields>)
    requires Relevant(e) && e.session == session && e.update.Obj? &&
          Get(e.update.fields, "sessionUpdate") == Str("tool_call_update")
    requires "toolCallId" in e.update.fields && Knows(s, e.update.fields["toolCallId"], updates, format)
    ensures ScanStep(s, e, session, format).Some? <==> updates != [] && Follows(updates, e.update.fields, format)
  {
    if updates != [] {
      MergeIntoFits(s, e.update.fields["toolCallId"], e.update.fields, format);
    }
  }

  lemma ScanKnows(events: seq<Event>, session: string, format: Format, s: Scan, id: Json)
    requires ScanAll(events, session, format) == Some(s)
    ensures Knows(s, id, UpdatesOf(events, id), format)
  {
    ScanAllOk(events, session, format);
    ScanUpdates(events, session, format, id);
  }

  lemma StepFits(events: seq<Event>, e: Event, session: string, format: Format, s: Scan)
    requires ScanAll(events, session, format) == Some(s)
    ensures ScanStep(s, e, session, format).Some? <==> Fits(events, e, session, format)
  {
    if Relevant(e) && e.session == session && e.update.Obj? && "sessionUpdate" in e.update.fields && "toolCallId" in e.update.fields {
      var d := e.update.fields;
      var updates := UpdatesOf(events, d["toolCallId"]);
      ScanKnows(events, session, format, s, d["toolCallId"]);
      if d["sessionUpdate"] == Str("tool_call") {
        AnnouncementFits(s, e, session, format, updates);
      } else if d["sessionUpdate"] == Str("tool_call_update") {
        UpdateFits(s, e, session, format, updates);
      }
    }
  }

  /** A log is accepted if and only if each of its events may follow those before it. */
  lemma {:induction false} AcceptedExactly(events: seq<Event>, session: string, format: Format)
    ensures ScanAll(events, session, format).Some? <==> AllFit(events, session, format)
  {
    if events != [] {
      var init, e := events[..|events| - 1], events[|events| - 1];
      AcceptedExactly(init, session, format);
      AllFitMore(init, e, session, format);
      assert init + [e] == events;
      if ScanAll(init, session, format).Some? {
        StepFits(init, e, session, format, ScanAll(init, session, format).value);
      }
    }
  }

  /* ------------------------------------------------------------------ calls and observations against the log */

  /** What is known of a call is what its updates say last. */
  lemma StateHolds(events: seq<Event>, session: string, format: Format, id: Json)
    requires ScanAll(events, session, format).Some? && UpdatesOf(events, id) != []
    ensures Holds(StateOf(UpdatesOf(events, id), format), UpdatesOf(events, id), format)
  {
    ScanKnows(events, session, format, ScanAll(events, session, format).value, id);
    FoldHolds(UpdatesOf(events, id), format);
  }

  predicate NonEmpty(name: Json) { name.Str? && name.s != "" }

  /** A call as its updates say: the last title, the last raw input if that is an object, and the name, or the
      title while there is none. */
  predicate CallSays(call: ToolCall, updates: seq<Fields>, format: Format) {
    var name, raw := NameAfter(updates, format), OrNull(LastWith(updates, "rawInput"));
    && LastWith(updates, "title") == Some(call.title)
    && call.name == (if name !in EMPTY_VALUES then name else call.title)
    && (call.canonical <==> NonEmpty(name))
    && (call.available <==> raw.Obj?)
    && call.arguments == (if raw.Obj? then raw.fields else map[])
  }

  /** The status that the agent reported last. */
  function Reported(updates: seq<Fields>): Status {
    match OrNull(LastWith(updates, "status"))
    case Str(text) => if text == "completed" then Completed else if text == "failed" then FailedCall else Incomplete
    case _ => Incomplete
  }

  lemma HeldKey(state: Fields, updates: seq<Fields>, format: Format, key: string)
    requires Holds(state, updates, format) && key != "name" && key != META
    ensures Get(state, key) == OrNull(LastWith(updates, key)) && (key in state <==> LastWith(updates, key).Some?)
  {
  }

  lemma HeldName(state: Fields, updates: seq<Fields>, format: Format)
    requires Holds(state, updates, format)
    ensures Get(state, "name") == NameAfter(updates, format)
  {
    assert META[0] == '_';
  }

  lemma HeldCall(call: ToolCall, observation: Observation, id: Json, updates: seq<Fields>, format: Format, state: Fields)
    requires Holds(state, updates, format) && CallObserved(call, observation, id, state, format)
    ensures call.id == observation.source == id && CallSays(call, updates, format)
    ensures format.Acp? ==> observation.outcome == Outcome(Reported(updates), !Reported(updates).Completed?)
  {
    assert META[0] == '_';
    HeldKey(state, updates, format, "title");
    HeldKey(state, updates, format, "rawInput");
    HeldKey(state, updates, format, "status");
    HeldName(state, updates, format);
    TruthyExactly(NameAfter(updates, format));
  }

  /** What is known of a call is what its updates said last. */
  function KnownFrom(updates: seq<Fields>, format: Format): Known {
    Known(OrNull(LastWith(updates, "status")), NameAfter(updates, format), OrNull(LastWith(updates, "kind")),
          OrNull(LastWith(updates, "rawOutput")),
          if format.Codebuddy? then OrNull(LastMeta(updates, "codebuddy.ai/rawResponse")) else Null,
          if format.Codebuddy? then OrNull(LastMeta(updates, "codebuddy.ai/businessFailed")) else Null)
  }

  lemma HeldKnown(state: Fields, updates: seq<Fields>, format: Format)
    requires Holds(state, updates, format)
    ensures StatusSays(KnownFrom(updates, format), format, StatusOf(state, format))
  {
    assert META[0] == '_';
    HeldKey(state, updates, format, "status");
    HeldKey(state, updates, format, "kind");
    HeldKey(state, updates, format, "rawOutput");
    HeldName(state, updates, format);
    StatusExactly(state, format);
  }

  /** Every call of every step against the log: it has updates, call and observation are of its id, the call
      says what the updates said last, and the observation has the status that the evidence in them amounts to,
      in the plain format the one that they reported last. */
  lemma CallsReflectLog(steps: seq<Step>, instruction: string, events: seq<Event>, session: string, format: Format,
        j: nat, k: nat)
    requires ScanAll(events, session, format).Some?
    requires IsProjection(steps, instruction, ScanAll(events, session, format).value, format)
    requires 1 <= j < |steps| && k < |steps[j].calls|
    ensures |steps[j].observations| == |steps[j].calls|
    ensures var call, observation := steps[j].calls[k], steps[j].observations[k];
      var updates := UpdatesOf(events, call.id);
      && updates != [] && observation.source == call.id && CallSays(call, updates, format)
      && (observation.outcome.isError <==> !observation.outcome.status.Completed?)
      && StatusSays(KnownFrom(updates, format), format, observation.outcome.status)
      && (format.Acp? ==> observation.outcome.status == Reported(updates))
  {
    var scan := ScanAll(events, session, format).value;
    var b := Blocks(scan.items)[j - 1];
    assert StepOf(steps[j], j - 1, b, scan.updates, format);
    var id := b.tools[k];
    ScanKnows(events, session, format, scan, id);
    StateHolds(events, session, format, id);
    HeldCall(steps[j].calls[k], steps[j].observations[k], id, UpdatesOf(events, id), format, StateOf(UpdatesOf(events, id), format));
    HeldKnown(StateOf(UpdatesOf(events, id), format), UpdatesOf(events, id), format);
  }

  predicate Titled(updates: seq<Fields>) { updates != [] ==> LastWith(updates, "title").Some? }

  lemma TitleDecides(s: Scan, id: Json, updates: seq<Fields>, format: Format)
    requires Knows(s, id, updates, format)
    ensures (id in s.updates ==> Projectable(StateOf(s.updates[id], format), format)) <==> Titled(updates)
  {
    if id in s.updates {
      FoldHolds(updates, format);
      assert META[0] == '_';
      HeldKey(StateOf(updates, format), updates, format, "title");
    }
  }

  /** When the log is projected at all: it is accepted, and every call that it updates has a title in the end. */
  lemma ConvertedExactly(events: seq<Event>, session: string, format: Format)
    ensures Convertible(events, session, format) <==>
      AllFit(events, session, format) && forall id :: Titled(UpdatesOf(events, id))
  {
    AcceptedExactly(events, session, format);
    if ScanAll(events, session, format).Some? {
      var s := ScanAll(events, session, format).value;
      forall id
        ensures (id in s.updates ==> Projectable(StateOf(s.updates[id], format), format)) <==> Titled(UpdatesOf(events, id))
      {
        ScanKnows(events, session, format, s, id);
        TitleDecides(s, id, UpdatesOf(events, id), format);
      }
      if Convertible(events, session, format) {
        forall id
          ensures Titled(UpdatesOf(events, id))
        {
          assert id in s.updates ==> Projectable(StateOf(s.updates[id], format), format);
        }
      } else {
        var id :| id in s.updates && !Projectable(StateOf(s.updates[id], format), format);
        assert !Titled(UpdatesOf(events, id));
      }
    }
  }
}
