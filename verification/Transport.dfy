/** The strict JSON-RPC transport: it retains every line and every event before it acts on it.

    What is abstract about the wire is collected in `Wire`: the encoding of messages and events, the
    decoding and validation of a line, and the validators of known methods.  The message forms are those
    of sections 4 and 5 of the JSON-RPC 2.0 Specification. */
module Transport {
  import opened Evidence
  import opened EvidenceReading

  const MAX_FRAME: nat := 16 * 1024 * 1024
  const MAX_PENDING: nat := 32

  // The order in which the harness opens the writers.
  const STDERR: nat := 0
  const STDOUT: nat := 1
  const STDIN: nat := 2
  const EVENTS: nat := 3

  datatype Id = Number(n: int) | Text(s: string)
  datatype Message =
    | Request(id: Id, name: string, payload: Bytes)
    | Notification(name: string, payload: Bytes)
    | Response(id: Id, success: bool, payload: Bytes)
  {
    predicate HasMethod() { !Response? }
    predicate HasId() { !Notification? }
  }

  datatype Phase = Setup | Replay | Prompt
  datatype Direction = Sent | Received
  datatype Event = Event(direction: Direction, phase: Phase, message: Message)

  datatype Wire = Wire(
    encode: Message -> Bytes,                  // without the newline
    valid: Message -> bool,                    // _validate_message on the way out
    decode: Bytes -> Option<Message>,          // a whole line
    encodeEvent: Event -> Bytes,               // without the newline
    parseEvent: Bytes -> Option<Event>,
    known: string -> bool,                     // a validator exists for the method
    validPayload: (string, Message) -> bool,
    wellFormedError: Message -> bool,
    otherModel: Message -> bool)               // an update that names another model than the expected one
  {
    ghost predicate Lawful() {
      && (forall e: Event :: NEWLINE !in encodeEvent(e))
      && (forall e: Event :: parseEvent(encodeEvent(e)) == Some(e))
    }

    function EventLine(e: Event): Bytes { encodeEvent(e) + [NEWLINE] }
  }

  datatype Outcome = Rejected | Failed | Submitted | Delivered(message: Message) | Ended

  /** A send that waits for the child to drain, with what it restores on failure. */
  datatype Flight = Flight(message: Message, phase: Phase, replayId: Option<Id>)

  /** `handed`, `read` and `wire` are facts about the child: the lines it was given, the lines it wrote,
      and both directions in the order in which they happened. */
  datatype State = State(
    budget: Budget,
    pending: map<Id, string>,
    phase: Phase,
    replayId: Option<Id>,
    handed: seq<Bytes>,
    read: seq<Bytes>,
    wire: seq<Event>,
    recorded: seq<Event>)
  {
    function Incomplete(): State { this.(budget := budget.(complete := false)) }

    function WithPending(id: Id, name: string): State { this.(pending := pending[id := name]) }
  }

  const LOAD := "session/load"
  const PROMPT := "session/prompt"
  const UPDATE := "session/update"

  /* ------------------------------------------------------------------ sending */

  function WriteRaw(codec: Codec, s: State, i: nat, data: Bytes, io: Io): (State, bool)
    requires i < |s.budget.writers|
  {
    var (budget, outcome) := s.budget.Write(codec, i, data, io);
    (s.(budget := budget), outcome.Done?)
  }

  function Record(codec: Codec, w: Wire, s: State, direction: Direction, m: Message, io: Io): (State, bool)
    requires |s.budget.writers| == 4
  {
    var event := Event(direction, s.phase, m);
    if |w.EventLine(event)| > MAX_EVENT_FRAME then (s, false)
    else
      var (after, ok) := WriteRaw(codec, s, EVENTS, w.EventLine(event), io);
      (if ok then after.(recorded := after.recorded + [event]) else after, ok)
  }

  /** The handler of a failed send. */
  function Undo(s: State, m: Message, phase: Phase, replayId: Option<Id>): State {
    s.Incomplete().(
      pending := if m.Request? then s.pending - {m.id} else s.pending,
      phase := phase, replayId := replayId)
  }

  /** What a send assigns before it writes anything. */
  function Announce(s: State, m: Message): State {
    var asked := if m.Request? then s.WithPending(m.id, m.name) else s;
    if !m.HasMethod() then asked
    else if m.name == LOAD && m.HasId() then asked.(phase := Replay, replayId := Some(m.id))
    else if m.name == PROMPT then asked.(phase := Prompt)
    else asked
  }

  /** The atomic part of `send`, up to the wait for the child to drain. */
  function Send(codec: Codec, w: Wire, s: State, m: Message, raw: Io, event: Io): (State, Outcome)
    requires |s.budget.writers| == 4
  {
    if !w.valid(m) || |w.encode(m)| > MAX_FRAME then (s, Rejected)
    else
      var (budget, admitted) := s.budget.AdmitFrame();
      var framed := s.(budget := budget);
      if !admitted.Done? then (framed, Rejected)
      else if m.Request? && |s.pending| >= MAX_PENDING then (framed, Rejected)
      else if m.Notification? && m.name == LOAD then (framed, Rejected)   // it has no id to wait for
      else
        Submit(codec, w, framed, m, raw, event)
  }

  /** The three ways a submission ends, given what writing and recording did. */
  function Conclude(s: State, m: Message, line: Bytes, written: State, ok: bool, recorded: State, noted: bool): (State, Outcome) {
    if !ok then (Undo(written, m, s.phase, s.replayId), Failed)
    else if !noted then (Undo(recorded, m, s.phase, s.replayId), Failed)
    else (recorded.(handed := recorded.handed + [line], wire := recorded.wire + [Event(Sent, recorded.phase, m)]), Submitted)
  }

  /** The guarded part of `send`: retain the line, record the event, hand the line to the child. */
  function Submit(codec: Codec, w: Wire, s: State, m: Message, raw: Io, event: Io): (State, Outcome)
    requires |s.budget.writers| == 4
  {
    var line := w.encode(m) + [NEWLINE];
    var (written, ok) := WriteRaw(codec, Announce(s, m), STDIN, line, raw);
    var (recorded, noted) := Record(codec, w, written, Sent, m, event);
    Conclude(s, m, line, written, ok, recorded, noted)
  }

  /* ------------------------------------------------------------------ receiving */

  datatype Input = Line(line: Bytes) | EndOfInput | Overrun(prefix: Bytes)

  function Fail(s: State): (State, Outcome) { (s.Incomplete(), Failed) }

  /** Validation of a decoded message; a response removes the request it answers. */
  function Validate(w: Wire, s: State, m: Message): (State, bool) {
    if m.HasMethod() then
      (s, if w.known(m.name) then w.validPayload(m.name, m) else !m.HasId() || (m.name != "" && m.name[0] == '_'))
    else if m.id !in s.pending then (s, false)
    else
      var name := s.pending[m.id];
      var answered := s.(pending := s.pending - {m.id});
      (answered, if m.success then w.known(name) && w.validPayload(name, m) else w.wellFormedError(m))
  }

  function Receive(codec: Codec, w: Wire, s: State, input: Input, raw: Io, event: Io): (State, Outcome)
    requires |s.budget.writers| == 4
  {
    match input
    case EndOfInput => (if s.pending != map[] then s.Incomplete() else s, Ended)
    case Overrun(prefix) =>
      var seen := s.(read := s.read + [prefix]);
      Fail(WriteRaw(codec, seen, STDOUT, prefix, raw).0)
    case Line(line) =>
      var seen := s.(read := s.read + [line]);
      var (budget, admitted) := seen.budget.AdmitFrame();
      var framed := seen.(budget := budget);
      if !admitted.Done? then Fail(framed)
      else
        var (written, ok) := WriteRaw(codec, framed, STDOUT, line, raw);
        var decoded := w.decode(line);
        if !ok || decoded.None? then Fail(written) else Process(codec, w, written, decoded.value, event)
  }

  /** A decoded message: validate it, then record it, then act on it. */
  function Process(codec: Codec, w: Wire, s: State, m: Message, event: Io): (State, Outcome)
    requires |s.budget.writers| == 4
  {
    var (checked, fine) := Validate(w, s, m);
    if !fine then Fail(checked)
    else
      var (noted, kept) := Record(codec, w, checked, Received, m, event);
      if !kept then Fail(noted) else Deliver(w, noted, m)
  }

  /** An event was recorded: the model check, and the end of a replay. */
  function Deliver(w: Wire, s: State, m: Message): (State, Outcome) {
    var onWire := s.(wire := s.wire + [Event(Received, s.phase, m)]);
    if s.phase.Prompt? && m.HasMethod() && m.name == UPDATE && w.otherModel(m) then Fail(onWire)
    else if m.Response? && Some(m.id) == s.replayId then (onWire.(phase := Setup, replayId := None), Delivered(m))
    else (onWire, Delivered(m))
  }

  /* ------------------------------------------------------------------ runs */

  datatype Action =
    | Sends(message: Message, raw: Io, event: Io)
    | DrainFails(flight: Flight)
    | Receives(input: Input, raw: Io, event: Io)
    | WritesStderr(data: Bytes, io: Io)
    | Retains(size: nat)
    | Closes(i: nat, io: Io)

  function Step(codec: Codec, w: Wire, s: State, a: Action): State
    requires |s.budget.writers| == 4 && (a.Closes? ==> a.i < 4)
  {
    match a
    case Sends(m, raw, event) => Send(codec, w, s, m, raw, event).0
    case DrainFails(f) => Undo(s, f.message, f.phase, f.replayId)
    case Receives(input, raw, event) => Receive(codec, w, s, input, raw, event).0
    case WritesStderr(data, io) =>
      var (budget, outcome) := s.budget.Write(codec, STDERR, data, io);
      if outcome.Done? then s.(budget := budget) else s.(budget := budget).Incomplete()
    case Retains(size) => s.(budget := s.budget.Retain(size).0)
    case Closes(i, io) =>
      var (budget, outcome) := s.budget.Close(codec, i, io);
      if outcome.Done? then s.(budget := budget) else s.(budget := budget).Incomplete()
  }

  ghost predicate IsRun(codec: Codec, w: Wire, states: seq<State>, actions: seq<Action>) {
    && |states| == |actions| + 1
    && Opened(codec, states[0])
    && forall k | 0 <= k < |actions| ::
         |states[k].budget.writers| == 4 && (actions[k].Closes? ==> actions[k].i < 4) &&
         states[k + 1] == Step(codec, w, states[k], actions[k])
  }

  /** The transport right after its writers were opened. */
  ghost predicate Opened(codec: Codec, s: State) {
    && Inv(codec, s.budget) && s.budget.complete && s.budget.frames == 0
    && |s.budget.writers| == 4 && (forall i | 0 <= i < 4 :: s.budget.writers[i] == Writer([], [], false, false, false))
    && s.pending == map[] && s.phase.Setup? && s.replayId.None?
    && s.handed == [] && s.read == [] && s.wire == [] && s.recorded == []
  }

  /* ------------------------------------------------------------------ what the log means */

  /** The requests that are unanswered after the log. */
  function Outstanding(log: seq<Event>): set<Id> {
    if log == [] then {}
    else
      var before := Outstanding(log[..|log| - 1]);
      var e := log[|log| - 1];
      if e.direction.Sent? && e.message.Request? then before + {e.message.id}
      else if e.direction.Received? && e.message.Response? then before - {e.message.id}
      else before
  }

  /** The phase and the awaited load that the log leads to. */
  function PhaseAfter(log: seq<Event>): (Phase, Option<Id>) {
    if log == [] then (Setup, None)
    else
      var (phase, replayId) := PhaseAfter(log[..|log| - 1]);
      var e := log[|log| - 1];
      var m := e.message;
      if e.direction.Sent? && m.HasMethod() && m.name == LOAD && m.HasId() then (Replay, Some(m.id))
      else if e.direction.Sent? && m.HasMethod() && m.name == PROMPT then (Prompt, replayId)
      else if e.direction.Received? && m.Response? && Some(m.id) == replayId then (Setup, None)
      else (phase, replayId)
  }

  /** Every received response answers a request outstanding at that point, and every event carries the
      phase of its moment: a sent load or prompt the phase it starts, a response the phase it ends. */
  predicate Consistent(log: seq<Event>) {
    forall k | 0 <= k < |log| :: EntryOk(log[..k], log[k])
  }

  predicate EntryOk(before: seq<Event>, e: Event) {
    && (e.direction.Received? && e.message.Response? ==> e.message.id in Outstanding(before))
    && e.phase == if e.direction.Sent? then PhaseAfter(before + [e]).0 else PhaseAfter(before).0
  }

  function EventLines(w: Wire, log: seq<Event>): seq<Bytes> { seq(|log|, i requires 0 <= i < |log| => w.EventLine(log[i])) }

  /** `part` is what remains of `whole` after dropping some of its elements. */
  ghost predicate Subsequence(part: seq<Bytes>, whole: seq<Bytes>) {
    part == [] ||
    (whole != [] &&
      (Subsequence(part, whole[..|whole| - 1]) ||
       (part[|part| - 1] == whole[|whole| - 1] && Subsequence(part[..|part| - 1], whole[..|whole| - 1]))))
  }

  /* ------------------------------------------------------------------ the invariant */

  /** `slack` frames were admitted whose event is still to be recorded. */
  ghost predicate Retained(w: Wire, s: State, slack: nat) {
    && |s.budget.writers| == 4
    && |s.pending| <= MAX_PENDING
    && s.budget.writers[EVENTS].records == EventLines(w, s.recorded)
    && (forall i | 0 <= i < |s.recorded| :: |w.EventLine(s.recorded[i])| <= MAX_EVENT_FRAME)
    && |s.recorded| + slack <= s.budget.frames
    && Subsequence(s.handed, s.budget.writers[STDIN].records)
  }

  /** What `protocol_complete` promises. */
  ghost predicate Faithful(s: State) {
    && |s.budget.writers| == 4
    && s.budget.writers[STDIN].records == s.handed
    && s.budget.writers[STDOUT].records == s.read
    && s.recorded == s.wire
    && Consistent(s.wire)
    && s.pending.Keys == Outstanding(s.wire)
    && (s.phase, s.replayId) == PhaseAfter(s.wire)
  }

  ghost predicate TransportInv(w: Wire, s: State) {
    Retained(w, s, 0) && (s.budget.complete ==> Faithful(s))
  }

  /* ------------------------------------------------------------------ pieces */

  lemma LogGrows(log: seq<Event>, e: Event)
    requires Consistent(log) && EntryOk(log, e)
    ensures Consistent(log + [e])
    ensures (log + [e])[..|log|] == log
  {
    forall k | 0 <= k < |log + [e]|
      ensures EntryOk((log + [e])[..k], (log + [e])[k])
    {
      assert (log + [e])[..k] == log[..k];
      assert k == |log| ==> log[..k] == log;
    }
  }

  /** The effect of writing one line to the file of writer `i`. */
  ghost predicate Wrote(s: State, i: nat, data: Bytes, after: State, ok: bool)
    requires |s.budget.writers| == 4 && i < 4
  {
    && |after.budget.writers| == 4
    && after == s.(budget := after.budget)
    && after.budget.frames == s.budget.frames
    && (forall j | 0 <= j < 4 && j != i :: after.budget.writers[j].records == s.budget.writers[j].records)
    && after.budget.writers[i].records == (if ok then s.budget.writers[i].records + [data] else s.budget.writers[i].records)
    && (ok ==> after.budget.complete == s.budget.complete)
  }

  lemma WriteRawEffect(codec: Codec, s: State, i: nat, data: Bytes, io: Io)
    requires |s.budget.writers| == 4 && i < 4
    ensures Wrote(s, i, data, WriteRaw(codec, s, i, data, io).0, WriteRaw(codec, s, i, data, io).1)
  {
  }

  lemma WroteKeepsRetained(w: Wire, s: State, i: nat, data: Bytes, after: State, ok: bool, slack: nat)
    requires Retained(w, s, slack) && (i == STDIN || i == STDOUT) && Wrote(s, i, data, after, ok)
    ensures Retained(w, after, slack)
  {
  }

  /** The effect of recording one event. */
  ghost predicate Noted(s: State, event: Event, after: State, ok: bool)
    requires |s.budget.writers| == 4
  {
    && |after.budget.writers| == 4
    && after == s.(budget := after.budget, recorded := if ok then s.recorded + [event] else s.recorded)
    && after.budget.writers[STDIN].records == s.budget.writers[STDIN].records
    && after.budget.writers[STDOUT].records == s.budget.writers[STDOUT].records
    && (ok ==> after.budget.complete == s.budget.complete)
  }

  lemma RecordEffect(codec: Codec, w: Wire, s: State, direction: Direction, m: Message, io: Io)
    requires Retained(w, s, 1)
    ensures Noted(s, Event(direction, s.phase, m), Record(codec, w, s, direction, m, io).0, Record(codec, w, s, direction, m, io).1)
    ensures Retained(w, Record(codec, w, s, direction, m, io).0, 0)
  {
    var event := Event(direction, s.phase, m);
    WriteRawEffect(codec, s, EVENTS, w.EventLine(event), io);
  }

  /* ------------------------------------------------------------------ sending keeps the invariant */

  /** The state after a line was handed to the child. */
  function Handed(s: State, m: Message, line: Bytes, recorded: State): State {
    recorded.(handed := s.handed + [line], wire := s.wire + [Event(Sent, Announce(s, m).phase, m)])
  }

  lemma HandedIsFaithful(s: State, m: Message, line: Bytes, written: State, recorded: State)
    requires |s.budget.writers| == 4 && Faithful(s) && (m.Notification? ==> m.name != LOAD)
    requires Wrote(Announce(s, m), STDIN, line, written, true)
    requires Noted(written, Event(Sent, Announce(s, m).phase, m), recorded, true)
    ensures Faithful(Handed(s, m, line, recorded))
  {
    var e := Event(Sent, Announce(s, m).phase, m);
    LogGrows(s.wire, e);
  }

  /** After a failed send only the retained evidence is promised. */
  lemma SubsequenceGrows(part: seq<Bytes>, whole: seq<Bytes>, x: Bytes)
    requires Subsequence(part, whole)
    ensures Subsequence(part, whole + [x])
    ensures Subsequence(part + [x], whole + [x])
  {
    assert (whole + [x])[..|whole|] == whole && (part + [x])[..|part|] == part;
  }

  lemma UndoKeepsInv(w: Wire, s: State, m: Message, phase: Phase, replayId: Option<Id>)
    requires Retained(w, s, 0)
    ensures TransportInv(w, Undo(s, m, phase, replayId))
  {
    if m.Request? {
      assert (s.pending - {m.id}).Keys == s.pending.Keys - {m.id};
      assert |s.pending - {m.id}| == |s.pending.Keys - {m.id}| <= |s.pending.Keys|;
    }
  }

  lemma FailedSendKeepsInv(w: Wire, s: State, m: Message, line: Bytes, written: State, ok: bool, recorded: State)
    requires Retained(w, s, 1) && Wrote(Announce(s, m), STDIN, line, written, ok)
    requires Retained(w, Announce(s, m), 1)
    requires ok ==> Noted(written, Event(Sent, Announce(s, m).phase, m), recorded, false) && Retained(w, recorded, 0)
    ensures TransportInv(w, Conclude(s, m, line, written, ok, recorded, false).0)
  {
    var result := Conclude(s, m, line, written, ok, recorded, false).0;
    if !ok {
      WroteKeepsRetained(w, Announce(s, m), STDIN, line, written, ok, 1);
      UndoKeepsInv(w, written, m, s.phase, s.replayId);
      assert result == Undo(written, m, s.phase, s.replayId);
    } else {
      UndoKeepsInv(w, recorded, m, s.phase, s.replayId);
      assert result == Undo(recorded, m, s.phase, s.replayId);
    }
  }

  lemma HandedKeepsRetained(w: Wire, s: State, m: Message, line: Bytes, written: State, recorded: State)
    requires Retained(w, s, 1) && Retained(w, recorded, 0) && Wrote(Announce(s, m), STDIN, line, written, true)
    requires Noted(written, Event(Sent, Announce(s, m).phase, m), recorded, true)
    ensures Retained(w, Handed(s, m, line, recorded), 0)
  {
    SubsequenceGrows(s.handed, s.budget.writers[STDIN].records, line);
  }

  lemma ConcludeKeepsInv(w: Wire, s: State, m: Message, line: Bytes, written: State, ok: bool, recorded: State, noted: bool)
    requires Retained(w, s, 1) && (s.budget.complete ==> Faithful(s)) && Retained(w, Announce(s, m), 1)
    requires m.Notification? ==> m.name != LOAD
    requires Wrote(Announce(s, m), STDIN, line, written, ok)
    requires ok ==> Noted(written, Event(Sent, Announce(s, m).phase, m), recorded, noted) && Retained(w, recorded, 0)
    ensures TransportInv(w, Conclude(s, m, line, written, ok, recorded, noted).0)
  {
    if !ok || !noted {
      FailedSendKeepsInv(w, s, m, line, written, ok, recorded);
      assert Conclude(s, m, line, written, ok, recorded, noted) == Conclude(s, m, line, written, ok, recorded, false);
    } else {
      HandedKeepsRetained(w, s, m, line, written, recorded);
      if s.budget.complete {
        HandedIsFaithful(s, m, line, written, recorded);
      }
      assert Conclude(s, m, line, written, ok, recorded, noted).0 == Handed(s, m, line, recorded);
    }
  }

  lemma SubmitKeepsInv(codec: Codec, w: Wire, s: State, m: Message, raw: Io, event: Io)
    requires Retained(w, s, 1) && (s.budget.complete ==> Faithful(s)) && (m.Request? ==> |s.pending| < MAX_PENDING)
    requires m.Notification? ==> m.name != LOAD
    ensures TransportInv(w, Submit(codec, w, s, m, raw, event).0)
  {
    var announced := Announce(s, m);
    var line := w.encode(m) + [NEWLINE];
    var (written, ok) := WriteRaw(codec, announced, STDIN, line, raw);
    WriteRawEffect(codec, announced, STDIN, line, raw);
    WroteKeepsRetained(w, announced, STDIN, line, written, ok, 1);
    RecordEffect(codec, w, written, Sent, m, event);
    var (recorded, noted) := Record(codec, w, written, Sent, m, event);
    ConcludeKeepsInv(w, s, m, line, written, ok, recorded, noted);
  }

  lemma SendKeepsInv(codec: Codec, w: Wire, s: State, m: Message, raw: Io, event: Io)
    requires TransportInv(w, s)
    ensures TransportInv(w, Send(codec, w, s, m, raw, event).0)
  {
    var (budget, admitted) := s.budget.AdmitFrame();
    if admitted.Done? && !(m.Request? && |s.pending| >= MAX_PENDING) && !(m.Notification? && m.name == LOAD) {
      SubmitKeepsInv(codec, w, s.(budget := budget), m, raw, event);
    }
  }

  /* ------------------------------------------------------------------ receiving keeps the invariant */

  lemma FailKeepsInv(w: Wire, s: State)
    requires Retained(w, s, 0)
    ensures TransportInv(w, Fail(s).0)
  {
  }

  lemma ValidateEffect(w: Wire, s: State, m: Message, slack: nat)
    requires Retained(w, s, slack)
    ensures var (checked, fine) := Validate(w, s, m);
      && Retained(w, checked, slack) && checked == s.(pending := checked.pending)
      && (fine && m.Response? ==> m.id in s.pending && checked.pending.Keys == s.pending.Keys - {m.id})
      && (fine && !m.Response? ==> checked.pending == s.pending)
  {
  }

  lemma DeliverIsFaithful(w: Wire, s: State, m: Message, before: State)
    requires |s.budget.writers| == 4 && Consistent(before.wire) && before.pending.Keys == Outstanding(before.wire)
    requires (before.phase, before.replayId) == PhaseAfter(before.wire)
    requires s.phase == before.phase && s.replayId == before.replayId && s.wire == before.wire
    requires s.recorded == before.wire + [Event(Received, s.phase, m)]
    requires s.budget.writers[STDIN].records == s.handed && s.budget.writers[STDOUT].records == s.read
    requires s.pending.Keys == if m.Response? then before.pending.Keys - {m.id} else before.pending.Keys
    requires m.Response? ==> m.id in before.pending
    requires Deliver(w, s, m).1.Delivered?
    ensures Faithful(Deliver(w, s, m).0)
  {
    var e := Event(Received, s.phase, m);
    LogGrows(before.wire, e);
  }

  lemma AcceptedKeepsInv(w: Wire, s: State, line: Bytes, m: Message, written: State, checked: State, noted: State)
    requires Retained(w, s, 1) && (s.budget.complete ==> Faithful(s))
    requires Wrote(s.(read := s.read + [line]), STDOUT, line, written, true)
    requires (checked, true) == Validate(w, written, m) && Retained(w, written, 1)
    requires Noted(checked, Event(Received, checked.phase, m), noted, true) && Retained(w, noted, 0)
    ensures TransportInv(w, Deliver(w, noted, m).0)
  {
    ValidateEffect(w, written, m, 1);
    var (after, outcome) := Deliver(w, noted, m);
    if outcome.Delivered? && s.budget.complete {
      DeliverIsFaithful(w, noted, m, s);
    }
  }

  /** The ways an admitted line ends, given what writing, validating and recording did. */
  lemma ReceiveLineKeepsInv(codec: Codec, w: Wire, s: State, line: Bytes, raw: Io, event: Io)
    requires TransportInv(w, s)
    ensures TransportInv(w, Receive(codec, w, s, Line(line), raw, event).0)
  {
    var seen := s.(read := s.read + [line]);
    var result := Receive(codec, w, s, Line(line), raw, event).0;
    var (budget, admitted) := s.budget.AdmitFrame();
    var framed := seen.(budget := budget);
    if !admitted.Done? {
      FailKeepsInv(w, framed);
      assert result == Fail(framed).0;
    } else {
      var (written, ok) := WriteRaw(codec, framed, STDOUT, line, raw);
      WriteRawEffect(codec, framed, STDOUT, line, raw);
      WroteKeepsRetained(w, framed, STDOUT, line, written, ok, 1);
      if !ok || w.decode(line).None? {
        FailKeepsInv(w, written);
        assert result == Fail(written).0;
      } else {
        DecodedKeepsInv(codec, w, s.(budget := budget), line, written, w.decode(line).value, event);
      }
    }
  }

  lemma DecodedKeepsInv(codec: Codec, w: Wire, s: State, line: Bytes, written: State, m: Message, event: Io)
    requires Retained(w, s, 1) && (s.budget.complete ==> Faithful(s))
    requires Wrote(s.(read := s.read + [line]), STDOUT, line, written, true) && Retained(w, written, 1)
    ensures TransportInv(w, Process(codec, w, written, m, event).0)
  {
    ValidateEffect(w, written, m, 1);
    var (checked, fine) := Validate(w, written, m);
    var result := Process(codec, w, written, m, event).0;
    if !fine {
      FailKeepsInv(w, checked);
      assert result == Fail(checked).0;
    } else {
      var (noted, kept) := Record(codec, w, checked, Received, m, event);
      RecordEffect(codec, w, checked, Received, m, event);
      if !kept {
        FailKeepsInv(w, noted);
        assert result == Fail(noted).0;
      } else {
        AcceptedKeepsInv(w, s, line, m, written, checked, noted);
        assert result == Deliver(w, noted, m).0;
      }
    }
  }

  lemma ReceiveKeepsInv(codec: Codec, w: Wire, s: State, input: Input, raw: Io, event: Io)
    requires TransportInv(w, s)
    ensures TransportInv(w, Receive(codec, w, s, input, raw, event).0)
  {
    match input {
      case EndOfInput =>
      case Line(line) => ReceiveLineKeepsInv(codec, w, s, line, raw, event);
      case Overrun(prefix) =>
        var seen := s.(read := s.read + [prefix]);
        var (written, ok) := WriteRaw(codec, seen, STDOUT, prefix, raw);
        WriteRawEffect(codec, seen, STDOUT, prefix, raw);
        WroteKeepsRetained(w, seen, STDOUT, prefix, written, ok, 0);
        FailKeepsInv(w, written);
        assert Receive(codec, w, s, input, raw, event).0 == Fail(written).0;
    }
  }

  /* ------------------------------------------------------------------ runs keep both invariants */

  lemma RecordKeepsBudget(codec: Codec, w: Wire, s: State, direction: Direction, m: Message, io: Io)
    requires Inv(codec, s.budget) && |s.budget.writers| == 4
    ensures Inv(codec, Record(codec, w, s, direction, m, io).0.budget)
    ensures |Record(codec, w, s, direction, m, io).0.budget.writers| == 4
  {
    WriteKeepsInv(codec, s.budget, EVENTS, w.EventLine(Event(direction, s.phase, m)), io);
    WriteEffect(codec, s.budget, EVENTS, w.EventLine(Event(direction, s.phase, m)), io);
  }

  lemma IncompleteKeepsBudget(codec: Codec, s: State)
    requires Inv(codec, s.budget)
    ensures Inv(codec, s.Incomplete().budget)
  {
  }

  lemma SubmitKeepsBudget(codec: Codec, w: Wire, s: State, m: Message, raw: Io, event: Io)
    requires Inv(codec, s.budget) && |s.budget.writers| == 4
    ensures Inv(codec, Submit(codec, w, s, m, raw, event).0.budget)
  {
    var line := w.encode(m) + [NEWLINE];
    WriteKeepsInv(codec, s.budget, STDIN, line, raw);
    WriteEffect(codec, s.budget, STDIN, line, raw);
    var (written, ok) := WriteRaw(codec, Announce(s, m), STDIN, line, raw);
    assert written.budget == s.budget.Write(codec, STDIN, line, raw).0;
    RecordKeepsBudget(codec, w, written, Sent, m, event);
    var (recorded, noted) := Record(codec, w, written, Sent, m, event);
    IncompleteKeepsBudget(codec, written);
    IncompleteKeepsBudget(codec, recorded);
    var result := Conclude(s, m, line, written, ok, recorded, noted).0.budget;
    assert result == written.Incomplete().budget || result == recorded.Incomplete().budget || result == recorded.budget;
  }

  lemma ProcessKeepsBudget(codec: Codec, w: Wire, s: State, m: Message, event: Io)
    requires Inv(codec, s.budget) && |s.budget.writers| == 4
    ensures Inv(codec, Process(codec, w, s, m, event).0.budget)
  {
    var (checked, fine) := Validate(w, s, m);
    var result := Process(codec, w, s, m, event).0;
    assert checked.budget == s.budget;
    if !fine {
      IncompleteKeepsBudget(codec, checked);
      assert result == checked.Incomplete();
    } else {
      RecordKeepsBudget(codec, w, checked, Received, m, event);
      var noted := Record(codec, w, checked, Received, m, event).0;
      IncompleteKeepsBudget(codec, noted);
      assert result.budget == noted.budget || result.budget == noted.Incomplete().budget;
    }
  }

  lemma ReceiveKeepsBudget(codec: Codec, w: Wire, s: State, input: Input, raw: Io, event: Io)
    requires Inv(codec, s.budget) && |s.budget.writers| == 4
    ensures Inv(codec, Receive(codec, w, s, input, raw, event).0.budget)
  {
    match input {
      case EndOfInput =>
      case Overrun(prefix) =>
        WriteKeepsInv(codec, s.budget, STDOUT, prefix, raw);
        IncompleteKeepsBudget(codec, WriteRaw(codec, s, STDOUT, prefix, raw).0);
      case Line(line) => ReceiveLineKeepsBudget(codec, w, s, line, raw, event);
    }
  }

  /** Where the receipt of a line ends. */
  lemma LineEnds(codec: Codec, w: Wire, s: State, line: Bytes, raw: Io, event: Io)
    requires |s.budget.writers| == 4
    ensures var framed := s.(read := s.read + [line], budget := s.budget.AdmitFrame().0);
      var written := WriteRaw(codec, framed, STDOUT, line, raw).0;
      var result := Receive(codec, w, s, Line(line), raw, event).0;
      && |written.budget.writers| == 4
      && (result == framed.Incomplete() || result == written.Incomplete() ||
          (w.decode(line).Some? && result == Process(codec, w, written, w.decode(line).value, event).0))
  {
    WriteEffect(codec, s.budget.AdmitFrame().0, STDOUT, line, raw);
  }

  lemma ReceiveLineKeepsBudget(codec: Codec, w: Wire, s: State, line: Bytes, raw: Io, event: Io)
    requires Inv(codec, s.budget) && |s.budget.writers| == 4
    ensures Inv(codec, Receive(codec, w, s, Line(line), raw, event).0.budget)
  {
    var framed := s.(read := s.read + [line], budget := s.budget.AdmitFrame().0);
    var written := WriteRaw(codec, framed, STDOUT, line, raw).0;
    LineEnds(codec, w, s, line, raw, event);
    WriteKeepsInv(codec, framed.budget, STDOUT, line, raw);
    IncompleteKeepsBudget(codec, framed);
    IncompleteKeepsBudget(codec, written);
    if w.decode(line).Some? {
      ProcessKeepsBudget(codec, w, written, w.decode(line).value, event);
    }
  }

  lemma SendKeepsBudget(codec: Codec, w: Wire, s: State, m: Message, raw: Io, event: Io)
    requires Inv(codec, s.budget) && |s.budget.writers| == 4
    ensures Inv(codec, Send(codec, w, s, m, raw, event).0.budget)
  {
    var framed := s.(budget := s.budget.AdmitFrame().0);
    SubmitKeepsBudget(codec, w, framed, m, raw, event);
    var result := Send(codec, w, s, m, raw, event).0;
    assert result == s || result == framed || result == Submit(codec, w, framed, m, raw, event).0;
  }

  lemma StderrKeepsBudget(codec: Codec, w: Wire, s: State, data: Bytes, io: Io)
    requires Inv(codec, s.budget) && |s.budget.writers| == 4
    ensures Inv(codec, Step(codec, w, s, WritesStderr(data, io)).budget)
  {
    WriteKeepsInv(codec, s.budget, STDERR, data, io);
    var after := s.(budget := s.budget.Write(codec, STDERR, data, io).0);
    IncompleteKeepsBudget(codec, after);
    var result := Step(codec, w, s, WritesStderr(data, io));
    assert result == after || result == after.Incomplete();
  }

  lemma OthersKeepBudget(codec: Codec, w: Wire, s: State, a: Action)
    requires codec.Lawful() && Inv(codec, s.budget) && |s.budget.writers| == 4 && (a.Closes? ==> a.i < 4)
    requires !a.Sends? && !a.Receives?
    ensures Inv(codec, Step(codec, w, s, a).budget)
  {
    if a.WritesStderr? {
      StderrKeepsBudget(codec, w, s, a.data, a.io);
    } else if a.Closes? {
      CloseIsAdmitted(codec, s.budget, a.i, a.io);
    }
  }

  lemma StepKeepsBudget(codec: Codec, w: Wire, s: State, a: Action)
    requires codec.Lawful() && Inv(codec, s.budget) && |s.budget.writers| == 4 && (a.Closes? ==> a.i < 4)
    ensures Inv(codec, Step(codec, w, s, a).budget)
  {
    if a.Sends? {
      SendKeepsBudget(codec, w, s, a.message, a.raw, a.event);
    } else if a.Receives? {
      ReceiveKeepsBudget(codec, w, s, a.input, a.raw, a.event);
    } else {
      OthersKeepBudget(codec, w, s, a);
    }
  }

  lemma OthersKeepInv(codec: Codec, w: Wire, s: State, a: Action)
    requires TransportInv(w, s) && (a.WritesStderr? || a.Retains? || a.Closes?) && (a.Closes? ==> a.i < 4)
    ensures TransportInv(w, Step(codec, w, s, a))
  {
    var after := Step(codec, w, s, a);
    if a.WritesStderr? {
      WriteEffect(codec, s.budget, STDERR, a.data, a.io);
    }
    assert forall j | 1 <= j < 4 :: after.budget.writers[j].records == s.budget.writers[j].records;
    assert after.budget.complete ==> s.budget.complete;
    assert after == s.(budget := after.budget) && after.budget.frames == s.budget.frames;
  }

  lemma StepKeepsInv(codec: Codec, w: Wire, s: State, a: Action)
    requires TransportInv(w, s) && (a.Closes? ==> a.i < 4)
    ensures TransportInv(w, Step(codec, w, s, a))
  {
    match a {
      case Sends(m, raw, event) => SendKeepsInv(codec, w, s, m, raw, event);
      case DrainFails(f) =>
      case Receives(input, raw, event) => ReceiveKeepsInv(codec, w, s, input, raw, event);
      case _ => OthersKeepInv(codec, w, s, a);
    }
  }

  lemma {:induction false} RunKeepsInv(codec: Codec, w: Wire, states: seq<State>, actions: seq<Action>, n: nat)
    requires codec.Lawful() && IsRun(codec, w, states, actions) && n < |states|
    ensures Inv(codec, states[n].budget) && TransportInv(w, states[n])
  {
    if n > 0 {
      RunKeepsInv(codec, w, states, actions, n - 1);
      StepKeepsBudget(codec, w, states[n - 1], actions[n - 1]);
      StepKeepsInv(codec, w, states[n - 1], actions[n - 1]);
    }
  }

  /** In every run: a line reaches the child only after it was retained, in order; at most 32 requests are
      outstanding; and while `protocol_complete` is true the decoded evidence is exactly the traffic, the
      log is the traffic in wire order with its phases, every accepted response answers an outstanding
      request, and the pending table holds exactly the unanswered ones. */
  lemma EvidenceIsTraffic(codec: Codec, w: Wire, states: seq<State>, actions: seq<Action>, n: nat)
    requires codec.Lawful() && IsRun(codec, w, states, actions) && n < |states|
    ensures var s := states[n];
      && |s.budget.writers| == 4 && |s.pending| <= 32
      && Subsequence(s.handed, s.budget.writers[STDIN].records)
      && (s.budget.complete ==>
            && Concat(s.budget.writers[STDIN].records) == Concat(s.handed)
            && Concat(s.budget.writers[STDOUT].records) == Concat(s.read)
            && s.budget.writers[EVENTS].records == EventLines(w, s.wire)
            && Consistent(s.wire) && s.pending.Keys == Outstanding(s.wire)
            && (s.phase, s.replayId) == PhaseAfter(s.wire))
  {
    RunKeepsInv(codec, w, states, actions, n);
  }

  /* ------------------------------------------------------------------ reading the log back */

  function Bodies(w: Wire, log: seq<Event>): (bodies: seq<Bytes>)
    ensures |bodies| == |log| && forall i | 0 <= i < |log| :: bodies[i] == w.encodeEvent(log[i])
  {
    seq(|log|, i requires 0 <= i < |log| => w.encodeEvent(log[i]))
  }

  lemma {:induction false} ConcatLines(w: Wire, log: seq<Event>)
    ensures Concat(EventLines(w, log)) == Lines(Bodies(w, log))
  {
    if log == [] {
      assert EventLines(w, log) == [];
    } else {
      var init, last := log[..|log| - 1], log[|log| - 1];
      ConcatLines(w, init);
      assert EventLines(w, log)[..|log| - 1] == EventLines(w, init);
      LinesAppend(Bodies(w, init), w.encodeEvent(last));
      assert Bodies(w, log) == Bodies(w, init) + [w.encodeEvent(last)];
    }
  }

  lemma {:induction false} LinesAppend(bodies: seq<Bytes>, body: Bytes)
    ensures Lines(bodies + [body]) == Lines(bodies) + body + [NEWLINE]
  {
    if bodies != [] {
      LinesAppend(bodies[1..], body);
      assert (bodies + [body])[1..] == bodies[1..] + [body];
    }
  }

  /** The frame limit, the event size test and the buffer test never reject what the transport wrote. */
  lemma RecordedEventsFrame(w: Wire, log: seq<Event>, frames: nat)
    requires w.Lawful() && |log| <= frames
    requires forall i | 0 <= i < |log| :: |w.EventLine(log[i])| <= MAX_EVENT_FRAME
    ensures Framed(w.parseEvent, frames, Concat(EventLines(w, log)), 0) == (log, true)
  {
    ConcatLines(w, log);
    forall i | 0 <= i < |log|
      ensures NEWLINE !in Bodies(w, log)[i] && |Bodies(w, log)[i]| + 1 <= MAX_EVENT_FRAME
      ensures w.parseEvent(Bodies(w, log)[i]) == Some(log[i])
    {
      assert |w.EventLine(log[i])| == |w.encodeEvent(log[i])| + 1;
    }
    FramedLines(w.parseEvent, frames, Bodies(w, log), log, 0);
  }

  lemma FilesDecode(codec: Codec, b: Budget)
    requires codec.Lawful() && Inv(codec, b) && ClosedCleanly(b)
    ensures codec.inflate(FilesOf(b.writers)[Stdin]).data == Concat(b.writers[STDIN].records)
    ensures codec.inflate(FilesOf(b.writers)[Stdout]).data == Concat(b.writers[STDOUT].records)
    ensures codec.inflate(FilesOf(b.writers)[Events]).data == Concat(b.writers[EVENTS].records)
  {
  }

  /** Round trip: in every run whose writers were all closed without an I/O error, whatever was refused on
      the way, the files pass the manifest under the same limits and the event file frames to exactly the
      recorded events; while the protocol is complete those are the whole traffic. */
  lemma ClosedEvidenceReadsBack(codec: Codec, w: Wire, states: seq<State>, actions: seq<Action>, n: nat)
    requires codec.Lawful() && w.Lawful() && IsRun(codec, w, states, actions) && n < |states|
    requires ClosedCleanly(states[n].budget)
    ensures var s := states[n];
      var dir := FilesOf(s.budget.writers);
      && Accepted(codec, dir, EVIDENCE_FILES, s.budget.maximum, s.budget.decodedMaximum)
      && Framed(w.parseEvent, FrameLimit(s.budget.maximum), codec.inflate(dir[Events]).data, 0) == (s.recorded, true)
      && (s.budget.complete ==>
            && s.recorded == s.wire
            && codec.inflate(dir[Stdin]).data == Concat(s.handed)
            && codec.inflate(dir[Stdout]).data == Concat(s.read))
  {
    var s := states[n];
    RunKeepsInv(codec, w, states, actions, n);
    ClosedFilesAreAccepted(codec, s.budget);
    FilesDecode(codec, s.budget);
    RecordedEventsFrame(w, s.recorded, FrameLimit(s.budget.maximum));
  }

  lemma EventsFileIsAcceptable(codec: Codec, dir: Directory, maximum: nat, decodedMaximum: nat)
    requires Accepted(codec, dir, EVIDENCE_FILES, maximum, decodedMaximum) && Events in dir
    ensures Acceptable(codec, dir[Events], maximum, decodedMaximum)
  {
    TotalsGrow(codec, dir, EVIDENCE_FILES, 3);
    assert EVIDENCE_FILES[..3][..2] == EVIDENCE_FILES[..2] && EVIDENCE_FILES[..3][2] == Events;
    assert Events in EVIDENCE_FILES by {
      assert EVIDENCE_FILES[2] == Events;
    }
  }

  /** What happens to the files of any reachable transport that was closed cleanly: the manifest is made,
      verification passes against it, and the reader yields the recorded events, however it cuts the stream. */
  method ReadEvidenceBack(codec: Codec, w: Wire, dir: Directory, invocation: string, maximum: nat, decodedMaximum: nat,
                          ghost states: seq<State>, ghost actions: seq<Action>, ghost n: nat)
    returns (files: Option<map<FileName, Entry>>, verified: bool, events: seq<Event>, ok: bool)
    requires codec.Lawful() && w.Lawful() && IsRun(codec, w, states, actions) && n < |states|
    requires ClosedCleanly(states[n].budget) && dir == FilesOf(states[n].budget.writers) && invocation != ""
    requires maximum == states[n].budget.maximum && decodedMaximum == states[n].budget.decodedMaximum
    ensures files.Some? && verified && ok && events == states[n].recorded
    ensures states[n].budget.complete ==> events == states[n].wire
  {
    RunKeepsInv(codec, w, states, actions, n);
    ClosedFilesAreAccepted(codec, states[n].budget);
    ClosedEvidenceReadsBack(codec, w, states, actions, n);
    EventsFileIsAcceptable(codec, dir, maximum, decodedMaximum);
    files := EvidenceManifest(codec, dir, maximum, decodedMaximum);
    assert forall name | name in EVIDENCE_FILES :: name in files.value;
    verified := VerifyEvidence(codec, dir, files.value, invocation, maximum, decodedMaximum);
    events, ok := ReadEvents(codec, dir[Events], w.parseEvent, maximum, decodedMaximum);
  }

  /* ------------------------------------------------------------------ the replay phase */

  /** While the protocol stays complete, exactly two actions end a replay: the response to the load, and
      a prompt that is sent before that response arrived. */
  lemma LeavingReplay(codec: Codec, w: Wire, s: State, a: Action)
    requires |s.budget.writers| == 4 && (a.Closes? ==> a.i < 4)
    requires s.phase.Replay? && s.budget.complete && Step(codec, w, s, a).budget.complete
    ensures !Step(codec, w, s, a).phase.Replay? <==>
      || (a.Receives? && EndsReplay(codec, w, s, a.input, a.raw, a.event))
      || (a.Sends? && Send(codec, w, s, a.message, a.raw, a.event).1.Submitted? && IsPrompt(a.message))
  {
    if a.Sends? {
      SendLeavesReplay(codec, w, s, a.message, a.raw, a.event);
    } else if a.Receives? {
      ReceiveLeavesReplay(codec, w, s, a.input, a.raw, a.event);
    }
  }

  predicate IsPrompt(m: Message) { m.HasMethod() && m.name == PROMPT }

  /** The response to the awaited load is accepted. */
  predicate EndsReplay(codec: Codec, w: Wire, s: State, input: Input, raw: Io, event: Io)
    requires |s.budget.writers| == 4
  {
    input.Line? && Receive(codec, w, s, input, raw, event).1.Delivered? &&
    w.decode(input.line).value.Response? && Some(w.decode(input.line).value.id) == s.replayId
  }

  lemma SendLeavesReplay(codec: Codec, w: Wire, s: State, m: Message, raw: Io, event: Io)
    requires |s.budget.writers| == 4 && s.phase.Replay?
    requires var after := Send(codec, w, s, m, raw, event).0; after.budget.complete
    ensures !Send(codec, w, s, m, raw, event).0.phase.Replay? <==>
      Send(codec, w, s, m, raw, event).1.Submitted? && IsPrompt(m)
  {
  }

  lemma ReceiveLeavesReplay(codec: Codec, w: Wire, s: State, input: Input, raw: Io, event: Io)
    requires |s.budget.writers| == 4 && s.phase.Replay?
    requires var after := Receive(codec, w, s, input, raw, event).0; after.budget.complete
    ensures !Receive(codec, w, s, input, raw, event).0.phase.Replay? <==> EndsReplay(codec, w, s, input, raw, event)
  {
  }

  /* ------------------------------------------------------------------ a prompt during the replay */

  /** A wire on which all texts are as short as they can be, and every line answers the first request. */
  const TERSE := Wire((m: Message) => [], (m: Message) => true, (b: Bytes) => Some(Response(Number(1), true, [])),
                      (e: Event) => [], (b: Bytes) => None, (name: string) => true, (name: string, m: Message) => true,
                      (m: Message) => true, (m: Message) => false)

  /** All writers are open, and there is room for so many bytes. */
  predicate Roomy(b: Budget, n: nat) {
    && |b.writers| == 4 && (forall i | 0 <= i < 4 :: !b.writers[i].closed && !b.writers[i].failed)
    && b.maximum - b.bytes - b.reserved >= n && b.decodedMaximum - b.decoded >= n && b.complete &&
          b.frames + n <= FrameLimit(b.maximum)
  }

  lemma FeedIsWritten(b: Budget, i: nat, n: nat)
    requires Roomy(b, n + 2) && i < 4
    ensures var (after, outcome) := b.Write(TOY, i, [NEWLINE], Written);
      outcome.Done? && Roomy(after, n) && after.frames == b.frames
  {
    assert [NEWLINE][..0] == [] && Mark([NEWLINE]) == [] + [1, NEWLINE];
  }

  lemma TerseSend(s: State, m: Message, n: nat)
    requires Roomy(s.budget, n + 5) && m.Request? && |s.pending| < MAX_PENDING
    ensures var (after, outcome) := Send(TOY, TERSE, s, m, Written, Written);
      && outcome.Submitted? && Roomy(after.budget, n)
      && after.pending == Announce(s, m).pending && after.phase == Announce(s, m).phase &&
            after.replayId == Announce(s, m).replayId
  {
    var (budget, _) := s.budget.AdmitFrame();
    var asked := Announce(s.(budget := budget), m);
    var line: Bytes := [NEWLINE];
    assert TERSE.encode(m) + [NEWLINE] == line && TERSE.EventLine(Event(Sent, asked.phase, m)) == line;
    assert Roomy(budget, n + 4);
    FeedIsWritten(budget, STDIN, n + 2);
    var (written, _) := WriteRaw(TOY, asked, STDIN, line, Written);
    FeedIsWritten(written.budget, EVENTS, n);
  }

  lemma TerseReceive(s: State, n: nat)
    requires Roomy(s.budget, n + 5) && Number(1) in s.pending && s.replayId == Some(Number(1))
    ensures var (after, outcome) := Receive(TOY, TERSE, s, Line([NEWLINE]), Written, Written);
      && outcome.Delivered? && after.budget.complete && after.phase.Setup? && after.replayId.None? &&
            after.pending == s.pending - {Number(1)}
  {
    var line: Bytes := [NEWLINE];
    var seen := s.(read := s.read + [line]);
    var (budget, _) := seen.budget.AdmitFrame();
    assert Roomy(budget, n + 4);
    FeedIsWritten(budget, STDOUT, n + 2);
    var (written, _) := WriteRaw(TOY, seen.(budget := budget), STDOUT, line, Written);
    var m := Response(Number(1), true, []);
    var (checked, fine) := Validate(TERSE, written, m);
    assert fine && TERSE.EventLine(Event(Received, checked.phase, m)) == line;
    FeedIsWritten(checked.budget, EVENTS, n);
  }

  const EMPTY := Writer([], [], false, false, false)

  /** A budget for which so many writers were opened and nothing else happened. */
  ghost predicate Started(b: Budget, n: nat) {
    && Inv(TOY, b) && |b.writers| == n && (forall i | 0 <= i < n :: b.writers[i] == EMPTY)
    && b.maximum == b.decodedMaximum == 1000 && b.bytes == b.decoded == b.frames == 0 &&
          b.reserved == CLOSING_RESERVE * n && b.complete
  }

  lemma OneMoreWriter(b: Budget, n: nat)
    requires Started(b, n) && n < 4
    ensures Started(b.Open().0, n + 1)
  {
    OpenKeepsInv(TOY, b);
  }

  lemma FourWriters() returns (b: Budget)
    ensures Started(b, 4)
  {
    b := Fresh(1000, 1000);
    OneMoreWriter(b, 0);
    b := b.Open().0;
    OneMoreWriter(b, 1);
    b := b.Open().0;
    OneMoreWriter(b, 2);
    b := b.Open().0;
    OneMoreWriter(b, 3);
    b := b.Open().0;
  }

  lemma Extend(codec: Codec, w: Wire, states: seq<State>, actions: seq<Action>, a: Action, after: State)
    requires IsRun(codec, w, states, actions) && |states[|actions|].budget.writers| == 4 && !a.Closes?
    requires after == Step(codec, w, states[|actions|], a)
    ensures IsRun(codec, w, states + [after], actions + [a])
  {
    var longer, more := states + [after], actions + [a];
    forall k | 0 <= k < |more|
      ensures |longer[k].budget.writers| == 4 && (more[k].Closes? ==> more[k].i < 4) &&
            longer[k + 1] == Step(codec, w, longer[k], more[k])
    {
      if k < |actions| {
        assert longer[k] == states[k] && longer[k + 1] == states[k + 1] && more[k] == actions[k];
      } else {
        assert longer[k] == states[|actions|] && longer[k + 1] == after && more[k] == a;
      }
    }
    assert Opened(codec, longer[0]);
  }

  const LOADS := Sends(Request(Number(1), LOAD, []), Written, Written)
  const PROMPTS := Sends(Request(Number(2), PROMPT, []), Written, Written)
  const ANSWERS := Receives(Line([NEWLINE]), Written, Written)

  lemma LoadIsSent() returns (states: seq<State>)
    ensures IsRun(TOY, TERSE, states, [LOADS])
    ensures Replaying(states[1])
  {
    var b := FourWriters();
    var s := State(b, map[], Setup, None, [], [], [], []);
    TerseSend(s, LOADS.message, 20);
    var after := Send(TOY, TERSE, s, LOADS.message, Written, Written).0;
    assert IsRun(TOY, TERSE, [s], []);
    Extend(TOY, TERSE, [s], [], LOADS, after);
    states := [s] + [after];
    assert [] + [LOADS] == [LOADS];
  }

  lemma PromptIsAnnounced(s: State)
    ensures Announce(s, PROMPTS.message) == s.(pending := s.pending[Number(2) := PROMPT], phase := Prompt)
  {
    assert PROMPT[8] != LOAD[8];
  }

  predicate Replaying(s: State) {
    Roomy(s.budget, 20) && s.pending == map[Number(1) := LOAD] && s.phase.Replay? && s.replayId == Some(Number(1))
  }

  predicate Prompted(s: State) {
    Roomy(s.budget, 10) && s.pending == map[Number(1) := LOAD, Number(2) := PROMPT] && s.phase.Prompt? && s.replayId == Some(Number(1))
  }

  lemma PromptFollows(s: State)
    requires Replaying(s)
    ensures Prompted(Step(TOY, TERSE, s, PROMPTS))
  {
    TerseSend(s, PROMPTS.message, 10);
    PromptIsAnnounced(s);
  }

  lemma PromptExtends(states: seq<State>) returns (longer: seq<State>)
    requires IsRun(TOY, TERSE, states, [LOADS]) && Replaying(states[1])
    ensures IsRun(TOY, TERSE, longer, [LOADS] + [PROMPTS]) && states < longer && Prompted(longer[2])
  {
    PromptFollows(states[1]);
    longer := states + [Step(TOY, TERSE, states[1], PROMPTS)];
    Extend(TOY, TERSE, states, [LOADS], PROMPTS, longer[2]);
  }

  lemma PromptIsSent() returns (states: seq<State>)
    ensures IsRun(TOY, TERSE, states, [LOADS, PROMPTS]) && Replaying(states[1]) && Prompted(states[2])
  {
    var before := LoadIsSent();
    states := PromptExtends(before);
    assert before[1] == states[1] && [LOADS] + [PROMPTS] == [LOADS, PROMPTS];
  }

  /** The second way happens: a prompt is sent during a replay and ends it, and the response to the load then
      ends the prompt phase while the prompt is still unanswered. */
  lemma PromptEndsReplay() returns (states: seq<State>)
    ensures IsRun(TOY, TERSE, states, [LOADS, PROMPTS, ANSWERS])
    ensures states[1].phase.Replay? && states[2].phase.Prompt? && states[2].replayId == Some(Number(1))
    ensures states[3].phase.Setup? && states[3].budget.complete && states[3].pending.Keys == {Number(2)}
  {
    var before := PromptIsSent();
    TerseReceive(before[2], 5);
    var after := Receive(TOY, TERSE, before[2], Line([NEWLINE]), Written, Written).0;
    Extend(TOY, TERSE, before, [LOADS, PROMPTS], ANSWERS, after);
    states := before + [after];
    assert [LOADS, PROMPTS] + [ANSWERS] == [LOADS, PROMPTS, ANSWERS];
  }
}
