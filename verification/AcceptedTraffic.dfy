/** What the transport accepts, read off the wire log alone: which answers of the child get through, what
    each outcome of a send or a receive leaves behind, and that an incomplete protocol stays incomplete. */
module AcceptedTraffic {
  import opened Evidence
  import opened EvidenceReading
  import opened T = Transport

  /* ------------------------------------------------------------------ the log alone */

  /** The method of the latest request that was sent with this id. */
  function NameOf(log: seq<Event>, id: Id): Option<string> {
    if log == [] then None
    else
      var e := log[|log| - 1];
      if e.direction.Sent? && e.message.Request? && e.message.id == id then Some(e.message.name)
      else NameOf(log[..|log| - 1], id)
  }

  /** A message of the child that may follow the log. */
  predicate Admissible(w: Wire, log: seq<Event>, m: Message) {
    match m
    case Response(id, success, _) =>
      && id in Outstanding(log) && NameOf(log, id).Some?
      && (success ==> w.known(NameOf(log, id).value) && w.validPayload(NameOf(log, id).value, m))
      && (!success ==> w.wellFormedError(m))
    case Request(_, name, _) => if w.known(name) then w.validPayload(name, m) else "_" <= name
    case Notification(name, _) => w.known(name) ==> w.validPayload(name, m)
  }

  /** An update, during a prompt, that names another model than the expected one. */
  predicate SwitchesModel(w: Wire, phase: Phase, m: Message) {
    phase.Prompt? && m.HasMethod() && m.name == UPDATE && w.otherModel(m)
  }

  predicate AcceptedEntry(w: Wire, before: seq<Event>, e: Event) {
    e.direction.Received? ==> Admissible(w, before, e.message) && !SwitchesModel(w, PhaseAfter(before).0, e.message)
  }

  predicate AllAccepted(w: Wire, log: seq<Event>) {
    forall k | 0 <= k < |log| :: AcceptedEntry(w, log[..k], log[k])
  }

  /** The pending table is what the log says about the unanswered requests. */
  ghost predicate PendingIs(s: State) {
    && s.pending.Keys == Outstanding(s.wire)
    && forall id | id in s.pending :: NameOf(s.wire, id) == Some(s.pending[id])
  }

  /* ------------------------------------------------------------------ what a send does */

  /** What is announced by a message that goes out. */
  ghost predicate Announced(s: State, m: Message, after: State) {
    && after.pending == (if m.Request? then s.pending[m.id := m.name] else s.pending)
    && (m.Request? && m.name == LOAD ==> after.phase.Replay? && after.replayId == Some(m.id))
    && (IsPrompt(m) ==> after.phase.Prompt? && after.replayId == s.replayId)
    && (!IsPrompt(m) && !(m.Request? && m.name == LOAD) ==> (after.phase, after.replayId) == (s.phase, s.replayId))
  }

  lemma NamesDiffer()
    ensures LOAD != PROMPT && LOAD != UPDATE && PROMPT != UPDATE
  {
    assert LOAD[8] == 'l' && PROMPT[8] == 'p' && UPDATE[8] == 'u';
  }

  lemma AnnounceEffect(s: State, m: Message)
    requires m.Notification? ==> m.name != LOAD
    ensures Announced(s, m, Announce(s, m))
    ensures Announce(s, m) == s.(pending := Announce(s, m).pending, phase := Announce(s, m).phase, replayId := Announce(s, m).replayId)
  {
    NamesDiffer();
  }

  /** Every event is retained in the phase that it starts or finds. */
  predicate Recordable(codec: Codec, w: Wire, b: Budget, e: Event, io: Io)
    requires |b.writers| == 4
  {
    |w.EventLine(e)| <= MAX_EVENT_FRAME && b.Write(codec, EVENTS, w.EventLine(e), io).1.Done?
  }

  /** A message may be sent: valid, not too long, within the frames, and if it is a request one of at most 32. */
  predicate Sendable(w: Wire, s: State, m: Message) {
    && w.valid(m) && |w.encode(m)| <= MAX_FRAME
    && s.budget.frames < FrameLimit(s.budget.maximum)
    && (m.Request? ==> |s.pending| < 32)
    && (m.Notification? ==> m.name != LOAD)
  }

  /** A refused message leaves nothing but its frame behind, if it was given one. */
  lemma RefusedSend(codec: Codec, w: Wire, s: State, m: Message, raw: Io, event: Io)
    requires |s.budget.writers| == 4 && !Sendable(w, s, m)
    ensures var (after, outcome) := Send(codec, w, s, m, raw, event);
      && outcome.Rejected? && after == s.(budget := after.budget) && after.budget.writers == s.budget.writers
      && (after.budget.complete ==> s.budget.complete)
  {
    if !w.valid(m) || |w.encode(m)| > MAX_FRAME {
    } else if s.budget.frames >= FrameLimit(s.budget.maximum) {
      assert Send(codec, w, s, m, raw, event).0 == s.(budget := s.budget.Exhaust(Frames));
    } else {
      assert Send(codec, w, s, m, raw, event).0 == s.(budget := s.budget.(frames := s.budget.frames + 1));
    }
  }

  /** What a submission leaves when it fails: the request is forgotten, the phase is what it was. */
  ghost predicate TakenBack(s: State, m: Message, after: State) {
    && !after.budget.complete
    && after == s.(budget := after.budget, pending := if m.Request? then s.pending - {m.id} else s.pending)
  }

  /** What it leaves when it succeeds: the message is on the wire, in the phase that it starts. */
  ghost predicate GoneOut(w: Wire, s: State, m: Message, after: State) {
    && Announced(s, m, after) && after.budget.complete == s.budget.complete
    && after.wire == s.wire + [Event(Sent, after.phase, m)] && after.recorded == s.recorded + [Event(Sent, after.phase, m)]
    && after.handed == s.handed + [w.encode(m) + [NEWLINE]] && after.read == s.read
  }

  lemma ConcludeEffect(w: Wire, s: State, m: Message, line: Bytes, written: State, ok: bool, recorded: State, noted: bool)
    requires |s.budget.writers| == 4 && (m.Notification? ==> m.name != LOAD) && line == w.encode(m) + [NEWLINE]
    requires T.Wrote(Announce(s, m), STDIN, line, written, ok)
    requires Noted(written, Event(Sent, Announce(s, m).phase, m), recorded, noted)
    ensures var (after, outcome) := Conclude(s, m, line, written, ok, recorded, noted);
      && (outcome.Submitted? <==> ok && noted) && (!outcome.Submitted? ==> outcome.Failed? && TakenBack(s, m, after))
      && (outcome.Submitted? ==> GoneOut(w, s, m, after))
  {
    AnnounceEffect(s, m);
    if m.Request? {
      assert s.pending[m.id := m.name] - {m.id} == s.pending - {m.id};
    }
    var (after, outcome) := Conclude(s, m, line, written, ok, recorded, noted);
    if !ok {
      assert after == Undo(written, m, s.phase, s.replayId);
    } else if !noted {
      assert after == Undo(recorded, m, s.phase, s.replayId);
    } else {
      assert after == recorded.(handed := recorded.handed + [line], wire := recorded.wire + [Event(Sent, recorded.phase, m)]);
    }
  }

  lemma RecordNotes(codec: Codec, w: Wire, s: State, direction: Direction, m: Message, io: Io)
    requires |s.budget.writers| == 4
    ensures var e := Event(direction, s.phase, m);
      var (after, ok) := Record(codec, w, s, direction, m, io);
      Noted(s, e, after, ok) && (ok <==> Recordable(codec, w, s.budget, e, io)) && after.budget.frames == s.budget.frames
  {
    WriteRawEffect(codec, s, EVENTS, w.EventLine(Event(direction, s.phase, m)), io);
  }

  /** A line and its event are retained one after the other. */
  predicate BothRetained(codec: Codec, w: Wire, b: Budget, i: nat, line: Bytes, raw: Io, e: Event, event: Io)
    requires |b.writers| == 4 && i < 4
  {
    var (after, outcome) := b.Write(codec, i, line, raw);
    outcome.Done? && |after.writers| == 4 && Recordable(codec, w, after, e, event)
  }

  lemma BothRetainedExactly(codec: Codec, w: Wire, s: State, i: nat, line: Bytes, raw: Io, direction: Direction,
        m: Message, event: Io)
    requires |s.budget.writers| == 4 && i < 4
    ensures var (written, ok) := WriteRaw(codec, s, i, line, raw);
      && T.Wrote(s, i, line, written, ok)
      && Noted(written, Event(direction, s.phase, m), Record(codec, w, written, direction, m, event).0, Record(codec, w, written, direction, m, event).1)
      && (ok && Record(codec, w, written, direction, m, event).1 <==>
            BothRetained(codec, w, s.budget, i, line, raw, Event(direction, s.phase, m), event))
  {
    WriteRawEffect(codec, s, i, line, raw);
    RecordNotes(codec, w, WriteRaw(codec, s, i, line, raw).0, direction, m, event);
  }

  lemma SubmitEffect(codec: Codec, w: Wire, s: State, m: Message, raw: Io, event: Io)
    requires |s.budget.writers| == 4 && (m.Notification? ==> m.name != LOAD)
    ensures var (after, outcome) := Submit(codec, w, s, m, raw, event);
      && (outcome.Submitted? <==>
            BothRetained(codec, w, s.budget, STDIN, w.encode(m) + [NEWLINE], raw, Event(Sent, Announce(s, m).phase, m), event))
      && (!outcome.Submitted? ==> outcome.Failed? && TakenBack(s, m, after))
      && (outcome.Submitted? ==> GoneOut(w, s, m, after))
  {
    var line := w.encode(m) + [NEWLINE];
    BothRetainedExactly(codec, w, Announce(s, m), STDIN, line, raw, Sent, m, event);
    var (written, ok) := WriteRaw(codec, Announce(s, m), STDIN, line, raw);
    var (recorded, noted) := Record(codec, w, written, Sent, m, event);
    ConcludeEffect(w, s, m, line, written, ok, recorded, noted);
  }

  /** The phase in which a message that goes out is recorded. */
  function PhaseFor(phase: Phase, m: Message): Phase {
    if m.Request? && m.name == LOAD then Replay else if IsPrompt(m) then Prompt else phase
  }

  lemma SendIsSubmit(codec: Codec, w: Wire, s: State, m: Message, raw: Io, event: Io)
    requires |s.budget.writers| == 4 && Sendable(w, s, m)
    ensures Send(codec, w, s, m, raw, event) == Submit(codec, w, s.(budget := s.budget.(frames := s.budget.frames + 1)), m, raw, event)
  {
    var framed := s.budget.(frames := s.budget.frames + 1);
    assert s.budget.AdmitFrame() == (framed, Done);
    var result := Submit(codec, w, s.(budget := framed), m, raw, event);
    assert Send(codec, w, s, m, raw, event) == result;
  }

  /** The frame does not matter to what a send leaves. */
  lemma SentBehind(w: Wire, s: State, m: Message, after: State)
    ensures var framed := s.(budget := s.budget.(frames := s.budget.frames + 1));
      && (TakenBack(framed, m, after) <==> TakenBack(s, m, after))
      && (GoneOut(w, framed, m, after) <==> GoneOut(w, s, m, after))
  {
  }

  /** A message is submitted if and only if it may be sent and both its line and its event are retained.  A
      failure takes it back; either way the state is known. */
  lemma SubmittedExactly(codec: Codec, w: Wire, s: State, m: Message, raw: Io, event: Io)
    requires |s.budget.writers| == 4
    ensures var (after, outcome) := Send(codec, w, s, m, raw, event);
      && (outcome.Submitted? <==>
            && Sendable(w, s, m)
            && BothRetained(codec, w, s.budget.(frames := s.budget.frames + 1), STDIN, w.encode(m) + [NEWLINE], raw,
                            Event(Sent, PhaseFor(s.phase, m), m), event))
      && (outcome.Failed? ==> TakenBack(s, m, after))
      && (outcome.Submitted? ==> GoneOut(w, s, m, after))
      && (outcome.Rejected? ==> after == s.(budget := after.budget) && after.budget.writers == s.budget.writers)
      && (outcome.Submitted? || outcome.Failed? || outcome.Rejected?)
      && (after.budget.complete ==> s.budget.complete)
  {
    if !Sendable(w, s, m) {
      RefusedSend(codec, w, s, m, raw, event);
    } else {
      var framed := s.(budget := s.budget.(frames := s.budget.frames + 1));
      SendIsSubmit(codec, w, s, m, raw, event);
      SubmitEffect(codec, w, framed, m, raw, event);
      assert Announce(framed, m).phase == PhaseFor(s.phase, m) by {
        AnnounceEffect(framed, m);
        NamesDiffer();
      }
      SentBehind(w, s, m, Send(codec, w, s, m, raw, event).0);
    }
  }

  /* ------------------------------------------------------------------ what a receive does */

  /** The pending table behind an accepted message. */
  function Answered(pending: map<Id, string>, m: Message): map<Id, string> {
    if m.Response? then pending - {m.id} else pending
  }

  lemma ValidateExactly(w: Wire, s: State, m: Message)
    requires PendingIs(s)
    ensures var (checked, fine) := Validate(w, s, m);
      && (fine <==> Admissible(w, s.wire, m)) && checked == s.(pending := Answered(s.pending, m))
  {
    if !m.Response? && m.name != "" {
      assert "_" <= m.name <==> m.name[0] == '_';
    }
    if m.Response? && m.id !in s.pending {
      assert s.pending - {m.id} == s.pending;
    }
  }

  /** A line whose message is accepted: within the frames, decoded, admissible behind the log, retained with
      its event, and no switch of the model. */
  predicate Acceptable(codec: Codec, w: Wire, s: State, line: Bytes, raw: Io, event: Io)
    requires |s.budget.writers| == 4
  {
    && s.budget.frames < FrameLimit(s.budget.maximum)
    && w.decode(line).Some?
    && Admissible(w, s.wire, w.decode(line).value)
    && BothRetained(codec, w, s.budget.(frames := s.budget.frames + 1), STDOUT, line, raw,
                    Event(Received, s.phase, w.decode(line).value), event)
    && !SwitchesModel(w, s.phase, w.decode(line).value)
  }

  /** What an accepted message leaves: it is on the wire, and a request that it answers is gone. */
  ghost predicate Arrived(s: State, m: Message, after: State) {
    var ends := m.Response? && Some(m.id) == s.replayId;
    && after.budget.complete == s.budget.complete
    && after == s.(budget := after.budget, read := after.read, pending := Answered(s.pending, m),
                   wire := s.wire + [Event(Received, s.phase, m)], recorded := s.recorded + [Event(Received, s.phase, m)],
                   phase := if ends then Setup else s.phase, replayId := if ends then None else s.replayId)
  }

  /** What any other line leaves: the protocol is incomplete, and nothing went out. */
  ghost predicate Spoilt(s: State, after: State) {
    !after.budget.complete && after.handed == s.handed && after.phase == s.phase && after.replayId == s.replayId
  }

  lemma DeliverExactly(w: Wire, s: State, m: Message)
    ensures var (after, outcome) := Deliver(w, s, m);
      var ends := m.Response? && Some(m.id) == s.replayId;
      && (outcome == if SwitchesModel(w, s.phase, m) then T.Outcome.Failed else Delivered(m))
      && (outcome.Failed? ==> !after.budget.complete && after == s.(budget := after.budget, wire := after.wire))
      && (outcome.Delivered? ==>
            after == s.(wire := s.wire + [Event(Received, s.phase, m)],
                        phase := if ends then Setup else s.phase, replayId := if ends then None else s.replayId))
  {
  }

  lemma ProcessExactly(codec: Codec, w: Wire, s: State, m: Message, event: Io)
    requires |s.budget.writers| == 4 && PendingIs(s)
    ensures var (after, outcome) := Process(codec, w, s, m, event);
      var e := Event(Received, s.phase, m);
      && (outcome.Delivered? <==>
            Admissible(w, s.wire, m) && Recordable(codec, w, s.budget, e, event) && !SwitchesModel(w, s.phase, m))
      && (outcome.Delivered? ==> outcome == Delivered(m) && Arrived(s, m, after))
      && (!outcome.Delivered? ==> outcome.Failed? && Spoilt(s, after))
      && after.read == s.read
  {
    ValidateExactly(w, s, m);
    var (checked, fine) := Validate(w, s, m);
    RecordNotes(codec, w, checked, Received, m, event);
    var (noted, kept) := Record(codec, w, checked, Received, m, event);
    DeliverExactly(w, noted, m);
    if !fine {
      assert Process(codec, w, s, m, event) == Fail(checked);
    } else if !kept {
      assert Process(codec, w, s, m, event) == Fail(noted);
    } else {
      assert Process(codec, w, s, m, event) == Deliver(w, noted, m);
    }
  }

  lemma LineExactly(codec: Codec, w: Wire, s: State, line: Bytes, raw: Io, event: Io)
    requires |s.budget.writers| == 4 && PendingIs(s)
    ensures var (after, outcome) := Receive(codec, w, s, Line(line), raw, event);
      && (outcome.Delivered? <==> Acceptable(codec, w, s, line, raw, event))
      && (outcome.Delivered? ==> outcome == Delivered(w.decode(line).value) && Arrived(s, w.decode(line).value, after))
      && (!outcome.Delivered? ==> outcome.Failed? && Spoilt(s, after))
      && after.read == s.read + [line]
  {
    var framed := s.(read := s.read + [line], budget := s.budget.(frames := s.budget.frames + 1));
    if s.budget.frames < FrameLimit(s.budget.maximum) {
      WriteRawEffect(codec, framed, STDOUT, line, raw);
      var (written, ok) := WriteRaw(codec, framed, STDOUT, line, raw);
      if !ok || w.decode(line).None? {
        assert Receive(codec, w, s, Line(line), raw, event) == Fail(written);
      } else {
        ProcessExactly(codec, w, written, w.decode(line).value, event);
        assert Receive(codec, w, s, Line(line), raw, event) == Process(codec, w, written, w.decode(line).value, event);
      }
    }
  }

  /** At the end of the input the protocol is incomplete if a request is unanswered, and nothing else changes.
      Of a line that is too long the beginning is retained, if it fits, and the protocol is incomplete. */
  lemma OtherInput(codec: Codec, w: Wire, s: State, input: Input, raw: Io, event: Io)
    requires |s.budget.writers| == 4 && !input.Line?
    ensures var (after, outcome) := Receive(codec, w, s, input, raw, event);
      && (input.EndOfInput? ==>
            && outcome.Ended?
            && after == s.(budget := s.budget.(complete := s.budget.complete && s.pending == map[])))
      && (input.Overrun? ==>
            && outcome.Failed? && Spoilt(s, after) && |after.budget.writers| == 4
            && after == s.(budget := after.budget, read := s.read + [input.prefix])
            && after.budget.writers[STDOUT].records ==
                 s.budget.writers[STDOUT].records +
                 (if s.budget.Write(codec, STDOUT, input.prefix, raw).1.Done? then [input.prefix] else []))
  {
    if input.Overrun? {
      WriteRawEffect(codec, s.(read := s.read + [input.prefix]), STDOUT, input.prefix, raw);
    }
  }

  /* ------------------------------------------------------------------ runs */

  /** Nothing makes an incomplete protocol complete again. */
  lemma IncompleteStays(codec: Codec, w: Wire, s: State, a: T.Action)
    requires |s.budget.writers| == 4 && (a.Closes? ==> a.i < 4)
    ensures T.Step(codec, w, s, a).budget.complete ==> s.budget.complete
  {
    match a {
      case Sends(m, raw, event) => SubmittedExactly(codec, w, s, m, raw, event);
      case Receives(input, raw, event) => ReceiveStaysIncomplete(codec, w, s, input, raw, event);
      case _ =>
    }
  }

  lemma ReceiveStaysIncomplete(codec: Codec, w: Wire, s: State, input: Input, raw: Io, event: Io)
    requires |s.budget.writers| == 4
    ensures Receive(codec, w, s, input, raw, event).0.budget.complete ==> s.budget.complete
  {
    if input.Line? {
      LineEnds(codec, w, s, input.line, raw, event);
      var framed := s.(read := s.read + [input.line], budget := s.budget.AdmitFrame().0);
      WriteRawEffect(codec, framed, STDOUT, input.line, raw);
      var written := WriteRaw(codec, framed, STDOUT, input.line, raw).0;
      if w.decode(input.line).Some? {
        var m := w.decode(input.line).value;
        var checked := Validate(w, written, m).0;
        RecordNotes(codec, w, checked, Received, m, event);
      }
    }
  }

  lemma AcceptedGrows(w: Wire, log: seq<Event>, e: Event)
    requires AllAccepted(w, log) && AcceptedEntry(w, log, e)
    ensures AllAccepted(w, log + [e])
  {
    forall k | 0 <= k < |log + [e]|
      ensures AcceptedEntry(w, (log + [e])[..k], (log + [e])[k])
    {
      assert (log + [e])[..k] == log[..k];
      assert k == |log| ==> log[..k] == log;
    }
  }

  lemma LastName(log: seq<Event>, e: Event, id: Id)
    ensures NameOf(log + [e], id) ==
      if e.direction.Sent? && e.message.Request? && e.message.id == id then Some(e.message.name) else NameOf(log, id)
  {
    assert (log + [e])[..|log|] == log;
  }

  lemma SendKeepsAccepting(w: Wire, s: State, m: Message, after: State)
    requires PendingIs(s) && AllAccepted(w, s.wire) && GoneOut(w, s, m, after) && after.pending.Keys == Outstanding(after.wire)
    ensures PendingIs(after) && AllAccepted(w, after.wire)
  {
    var e := Event(Sent, after.phase, m);
    AcceptedGrows(w, s.wire, e);
    forall id | id in after.pending
      ensures NameOf(after.wire, id) == Some(after.pending[id])
    {
      LastName(s.wire, e, id);
    }
  }

  lemma ReceiveKeepsAccepting(w: Wire, s: State, m: Message, after: State)
    requires PendingIs(s) && AllAccepted(w, s.wire) && Arrived(s, m, after) && after.pending.Keys == Outstanding(after.wire)
    requires Admissible(w, s.wire, m) && !SwitchesModel(w, s.phase, m) && s.phase == PhaseAfter(s.wire).0
    ensures PendingIs(after) && AllAccepted(w, after.wire)
  {
    var e := Event(Received, s.phase, m);
    AcceptedGrows(w, s.wire, e);
    forall id | id in after.pending
      ensures NameOf(after.wire, id) == Some(after.pending[id])
    {
      LastName(s.wire, e, id);
    }
  }

  lemma StepKeepsAccepting(codec: Codec, w: Wire, s: State, a: T.Action)
    requires |s.budget.writers| == 4 && (a.Closes? ==> a.i < 4)
    requires Faithful(s) && PendingIs(s) && AllAccepted(w, s.wire)
    requires var after := T.Step(codec, w, s, a); after.budget.complete && Faithful(after)
    ensures PendingIs(T.Step(codec, w, s, a)) && AllAccepted(w, T.Step(codec, w, s, a).wire)
  {
    var after := T.Step(codec, w, s, a);
    match a {
      case Sends(m, raw, event) =>
        SubmittedExactly(codec, w, s, m, raw, event);
        if Send(codec, w, s, m, raw, event).1.Submitted? {
          SendKeepsAccepting(w, s, m, after);
        }
      case Receives(input, raw, event) =>
        if input.Line? {
          LineExactly(codec, w, s, input.line, raw, event);
          ReceiveKeepsAccepting(w, s, w.decode(input.line).value, after);
        } else {
          OtherInput(codec, w, s, input, raw, event);
        }
      case _ =>
    }
  }

  /** What accepting means in one state of a run. */
  ghost predicate Accepting(w: Wire, s: State) {
    s.budget.complete ==> Faithful(s) && PendingIs(s) && AllAccepted(w, s.wire)
  }

  lemma AcceptsNext(codec: Codec, w: Wire, s: State, a: T.Action, after: State)
    requires |s.budget.writers| == 4 && (a.Closes? ==> a.i < 4) && after == T.Step(codec, w, s, a)
    requires Accepting(w, s) && TransportInv(w, after)
    ensures Accepting(w, after)
  {
    if after.budget.complete {
      IncompleteStays(codec, w, s, a);
      StepKeepsAccepting(codec, w, s, a);
    }
  }

  lemma RunAcceptsNext(codec: Codec, w: Wire, states: seq<State>, actions: seq<T.Action>, n: nat)
    requires T.IsRun(codec, w, states, actions) && n + 1 < |states|
    requires Accepting(w, states[n]) && TransportInv(w, states[n + 1])
    ensures Accepting(w, states[n + 1])
  {
    AcceptsNext(codec, w, states[n], actions[n], states[n + 1]);
  }

  lemma RunStartsAccepting(codec: Codec, w: Wire, states: seq<State>, actions: seq<T.Action>)
    requires T.IsRun(codec, w, states, actions)
    ensures Accepting(w, states[0])
  {
    assert T.Opened(codec, states[0]);
  }

  lemma {:induction false} RunAccepts(codec: Codec, w: Wire, states: seq<State>, actions: seq<T.Action>, n: nat)
    requires codec.Lawful() && T.IsRun(codec, w, states, actions) && n < |states|
    ensures Accepting(w, states[n])
  {
    if n == 0 {
      RunStartsAccepting(codec, w, states, actions);
    } else {
      T.RunKeepsInv(codec, w, states, actions, n);
      RunAccepts(codec, w, states, actions, n - 1);
      RunAcceptsNext(codec, w, states, actions, n - 1);
    }
  }

  /** In every run, while the protocol is complete: the pending table holds exactly the unanswered requests of
      the log with their methods; every response of the child that got through answers one of them, with a
      payload that is valid for its method or with a well-formed error; every request and notification that
      got through is valid, or not known and allowed all the same; and no update switched the model. */
  lemma OnlyAdmissibleGetsThrough(codec: Codec, w: Wire, states: seq<State>, actions: seq<T.Action>, n: nat, k: nat)
    requires codec.Lawful() && T.IsRun(codec, w, states, actions) && n < |states| && states[n].budget.complete
    requires k < |states[n].wire| && states[n].wire[k].direction.Received?
    ensures var s := states[n];
      && s.pending.Keys == Outstanding(s.wire) && (forall id | id in s.pending :: NameOf(s.wire, id) == Some(s.pending[id]))
      && Admissible(w, s.wire[..k], s.wire[k].message)
      && !SwitchesModel(w, PhaseAfter(s.wire[..k]).0, s.wire[k].message)
  {
    RunAccepts(codec, w, states, actions, n);
    assert AcceptedEntry(w, states[n].wire[..k], states[n].wire[k]);
  }

  /** Conversely, in every run, while the protocol is complete: a line is delivered if and only if there is a
      frame for it, it decodes, its message is admissible behind the log and switches no model, and both the
      line and its event are retained.  Any other line makes the protocol incomplete. */
  lemma DeliveredExactly(codec: Codec, w: Wire, states: seq<State>, actions: seq<T.Action>, n: nat, line: Bytes,
        raw: Io, event: Io)
    requires codec.Lawful() && T.IsRun(codec, w, states, actions) && n < |states| && states[n].budget.complete
    ensures |states[n].budget.writers| == 4
    ensures var (after, outcome) := Receive(codec, w, states[n], Line(line), raw, event);
      && (outcome.Delivered? <==> Acceptable(codec, w, states[n], line, raw, event))
      && (outcome.Delivered? ==> outcome == Delivered(w.decode(line).value) && Arrived(states[n], w.decode(line).value, after))
      && (!outcome.Delivered? ==> outcome.Failed? && Spoilt(states[n], after))
      && after.read == states[n].read + [line]
  {
    RunAccepts(codec, w, states, actions, n);
    LineExactly(codec, w, states[n], line, raw, event);
  }

  /** In every run an incomplete protocol is never complete again. */
  lemma {:induction false} CompletenessIsLost(codec: Codec, w: Wire, states: seq<State>, actions: seq<T.Action>, k: nat, n: nat)
    requires T.IsRun(codec, w, states, actions) && k <= n < |states| && !states[k].budget.complete
    ensures !states[n].budget.complete
  {
    if k < n {
      CompletenessIsLost(codec, w, states, actions, k, n - 1);
      IncompleteStays(codec, w, states[n - 1], actions[n - 1]);
    }
  }
}
