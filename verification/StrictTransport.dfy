/** `StrictTransport`, whose methods update the protocol state in place; each is proved against the
    function of module `Transport` that says what it does to the whole state. */
module StrictTransports {
  import opened Evidence
  import opened EvidenceReading
  import T = Transport

  class StrictTransport {
    const codec: Codec
    const protocol: T.Wire
    const budget: EvidenceBudget
    const rawIn: EvidenceWriter
    const rawOut: EvidenceWriter
    const events: EvidenceWriter
    var pending: map<T.Id, string>
    var phase: T.Phase
    var replayId: Option<T.Id>
    ghost var handed: seq<Bytes>
    ghost var read: seq<Bytes>
    ghost var wire: seq<T.Event>
    ghost var recorded: seq<T.Event>

    ghost predicate Valid()
      reads this, budget, budget.writers
    {
      && budget.Valid() && |budget.writers| == 4
      && budget.writers[T.STDOUT] == rawIn && budget.writers[T.STDIN] == rawOut && budget.writers[T.EVENTS] == events
      && rawIn.codec == rawOut.codec == events.codec == codec
    }

    ghost function View(): T.State
      reads this, budget, budget.writers
    {
      T.State(budget.View(), pending, phase, replayId, handed, read, wire, recorded)
    }

    /** The three writers of the transport are opened after that of the error stream. */
    constructor (codec: Codec, protocol: T.Wire, budget: EvidenceBudget,
                 rawIn: EvidenceWriter, rawOut: EvidenceWriter, events: EvidenceWriter)
      requires budget.Valid() && |budget.writers| == 4
      requires budget.writers[1] == rawIn && budget.writers[2] == rawOut && budget.writers[3] == events
      requires rawIn.codec == rawOut.codec == events.codec == codec
      ensures Valid() && this.budget == budget && this.codec == codec && this.protocol == protocol
      ensures View() == T.State(budget.View(), map[], T.Setup, None, [], [], [], [])
    {
      this.codec, this.protocol, this.budget := codec, protocol, budget;
      this.rawIn, this.rawOut, this.events := rawIn, rawOut, events;
      pending, phase, replayId := map[], T.Setup, None;
      handed, read, wire, recorded := [], [], [], [];
    }

    method Record(direction: T.Direction, m: T.Message, io: Io) returns (ok: bool)
      requires Valid()
      modifies this`recorded, budget, events
      ensures Valid()
      ensures (View(), ok) == T.Record(codec, protocol, old(View()), direction, m, io)
    {
      var event := T.Event(direction, phase, m);
      var line := protocol.EventLine(event);
      if |line| > MAX_EVENT_FRAME {
        return false;
      }
      var outcome := events.Write(T.EVENTS, line, io);
      if !outcome.Done? {
        return false;
      }
      recorded := recorded + [event];
      return true;
    }

    /** The handler of a failed send; `formerPhase` and `formerReplay` were saved before it. */
    method Undo(m: T.Message, formerPhase: T.Phase, formerReplay: Option<T.Id>)
      requires Valid()
      modifies this`pending, this`phase, this`replayId, budget`complete
      ensures Valid() && View() == T.Undo(old(View()), m, formerPhase, formerReplay)
    {
      budget.complete := false;
      if m.Request? {
        pending := pending - {m.id};
      }
      phase, replayId := formerPhase, formerReplay;
    }

    method Announce(m: T.Message)
      requires Valid()
      modifies this`pending, this`phase, this`replayId
      ensures Valid() && View() == T.Announce(old(View()), m)
    {
      if m.Request? {
        pending := pending[m.id := m.name];
      }
      if m.HasMethod() {
        if m.name == T.LOAD && m.HasId() {
          phase, replayId := T.Replay, Some(m.id);
        } else if m.name == T.PROMPT {
          phase := T.Prompt;
        }
      }
    }

    /** `send` up to the wait for the child to drain. */
    method Send(m: T.Message, raw: Io, event: Io) returns (outcome: T.Outcome)
      requires Valid()
      modifies this, budget, rawOut, events
      ensures Valid()
      ensures (View(), outcome) == T.Send(codec, protocol, old(View()), m, raw, event)
    {
      if !protocol.valid(m) {
        return T.Rejected;
      }
      var body := protocol.encode(m);
      if |body| > T.MAX_FRAME {
        return T.Rejected;
      }
      var admitted := budget.AdmitFrame();
      if !admitted.Done? {
        return T.Rejected;
      }
      if m.Request? && |pending| >= T.MAX_PENDING {
        return T.Rejected;
      }
      if m.Notification? && m.name == T.LOAD {
        return T.Rejected;
      }
      outcome := Submit(m, body + [NEWLINE], raw, event);
    }

    method Submit(m: T.Message, line: Bytes, raw: Io, event: Io) returns (outcome: T.Outcome)
      requires Valid() && line == protocol.encode(m) + [NEWLINE]
      modifies this, budget, rawOut, events
      ensures Valid()
      ensures (View(), outcome) == T.Submit(codec, protocol, old(View()), m, raw, event)
    {
      var oldPhase, oldReplay := phase, replayId;
      Announce(m);
      ghost var announced := View();
      var written := rawOut.Write(T.STDIN, line, raw);
      assert (View(), written.Done?) == T.WriteRaw(codec, announced, T.STDIN, line, raw);
      if !written.Done? {
        Undo(m, oldPhase, oldReplay);
        return T.Failed;
      }
      outcome := HandOver(m, line, event, oldPhase, oldReplay, old(View()));
    }

    /** The line was retained: record the event, then hand the line to the child. */
    method HandOver(m: T.Message, line: Bytes, event: Io, oldPhase: T.Phase, oldReplay: Option<T.Id>, ghost before: T.State)
      returns (outcome: T.Outcome)
      requires Valid() && before.phase == oldPhase && before.replayId == oldReplay
      modifies this, budget, events
      ensures Valid()
      ensures var (recorded, noted) := T.Record(codec, protocol, old(View()), T.Sent, m, event);
        (View(), outcome) == T.Conclude(before, m, line, old(View()), true, recorded, noted)
    {
      var noted := Record(T.Sent, m, event);
      if !noted {
        Undo(m, oldPhase, oldReplay);
        return T.Failed;
      }
      handed := handed + [line];
      wire := wire + [T.Event(T.Sent, phase, m)];
      return T.Submitted;
    }

    method Fail()
      requires Valid()
      modifies budget`complete
      ensures Valid() && View() == old(View()).Incomplete()
    {
      budget.complete := false;
    }

    method Validate(m: T.Message) returns (fine: bool)
      requires Valid()
      modifies this`pending
      ensures Valid() && (View(), fine) == T.Validate(protocol, old(View()), m)
    {
      if m.HasMethod() {
        if protocol.known(m.name) {
          return protocol.validPayload(m.name, m);
        }
        return !m.HasId() || (m.name != "" && m.name[0] == '_');
      }
      if m.id !in pending {
        return false;
      }
      var name := pending[m.id];
      pending := pending - {m.id};
      if m.success {
        return protocol.known(name) && protocol.validPayload(name, m);
      }
      return protocol.wellFormedError(m);
    }

    method Receive(input: T.Input, raw: Io, event: Io) returns (outcome: T.Outcome)
      requires Valid()
      modifies this, budget, rawIn, events
      ensures Valid()
      ensures (View(), outcome) == T.Receive(codec, protocol, old(View()), input, raw, event)
    {
      match input {
        case EndOfInput =>
          if pending != map[] {
            Fail();
          }
          outcome := T.Ended;
        case Overrun(prefix) =>
          read := read + [prefix];
          var written := rawIn.Write(T.STDOUT, prefix, raw);
          Fail();
          outcome := T.Failed;
        case Line(line) =>
          outcome := ReceiveLine(line, raw, event);
      }
    }

    method ReceiveLine(line: Bytes, raw: Io, event: Io) returns (outcome: T.Outcome)
      requires Valid()
      modifies this, budget, rawIn, events
      ensures Valid()
      ensures (View(), outcome) == T.Receive(codec, protocol, old(View()), T.Line(line), raw, event)
    {
      read := read + [line];
      var admitted := budget.AdmitFrame();
      if !admitted.Done? {
        Fail();
        return T.Failed;
      }
      ghost var framed := View();
      var written := rawIn.Write(T.STDOUT, line, raw);
      ghost var after := View();
      assert (after, written.Done?) == T.WriteRaw(codec, framed, T.STDOUT, line, raw);
      if !written.Done? {
        Fail();
        return T.Failed;
      }
      var decoded := protocol.decode(line);
      if decoded.None? {
        Fail();
        return T.Failed;
      }
      outcome := Process(decoded.value, event);
    }

    method Process(m: T.Message, event: Io) returns (outcome: T.Outcome)
      requires Valid()
      modifies this, budget, events
      ensures Valid()
      ensures (View(), outcome) == T.Process(codec, protocol, old(View()), m, event)
    {
      var fine := Validate(m);
      if !fine {
        Fail();
        return T.Failed;
      }
      var kept := Record(T.Received, m, event);
      if !kept {
        Fail();
        return T.Failed;
      }
      outcome := Deliver(m);
    }

    method Deliver(m: T.Message) returns (outcome: T.Outcome)
      requires Valid()
      modifies this`wire, this`phase, this`replayId, budget`complete
      ensures Valid()
      ensures (View(), outcome) == T.Deliver(protocol, old(View()), m)
    {
      wire := wire + [T.Event(T.Received, phase, m)];
      if phase.Prompt? && m.HasMethod() && m.name == T.UPDATE && protocol.otherModel(m) {
        Fail();
        return T.Failed;
      }
      if m.Response? && Some(m.id) == replayId {
        phase, replayId := T.Setup, None;
      }
      return T.Delivered(m);
    }
  }
}
