/** Shared admission of retained evidence: one budget, many gzip writers.

    gzip (RFC 1952) is abstract: a `Codec` gives the bytes a compressor emits, and `Lawful` lists what
    is used about them. */
module Evidence {
  newtype Byte = b: int | 0 <= b < 256
  type Bytes = seq<Byte>

  datatype Option<+T> = None | Some(value: T)

  function Concat(parts: seq<Bytes>): Bytes {
    if parts == [] then [] else Concat(parts[..|parts| - 1]) + parts[|parts| - 1]
  }

  lemma ConcatAppend(parts: seq<Bytes>, part: Bytes)
    ensures Concat(parts + [part]) == Concat(parts) + part
  {
  }

  /* ------------------------------------------------------------------ gzip */

  /** What inflating a file finds: a whole member in its first `size` bytes, the beginning of a member,
      or `data` followed by an error at byte `size`. */
  datatype Member =
    | Complete(size: nat, data: Bytes)
    | Truncated(size: nat, data: Bytes)
    | Corrupt(size: nat, data: Bytes)

  /** A compressor is determined by the records it compressed and sync-flushed so far. */
  datatype Codec = Codec(
    sync: (seq<Bytes>, Bytes) -> Bytes,
    finish: seq<Bytes> -> Bytes,
    inflate: Bytes -> Member)
  {
    function Stream(records: seq<Bytes>): Bytes {
      if records == [] then []
      else
        var before := records[..|records| - 1];
        Stream(before) + sync(before, records[|records| - 1])
    }

    function Closed(records: seq<Bytes>): Bytes { Stream(records) + finish(records) }

    ghost predicate Lawful() {
      && (forall h: seq<Bytes> :: |finish(h)| <= CLOSING_RESERVE)
      && (forall h: seq<Bytes> :: inflate(Closed(h)) == Complete(|Closed(h)|, Concat(h)))
      && (forall h: seq<Bytes> :: inflate(Stream(h)) == Truncated(|Stream(h)|, Concat(h)))
      && (forall f: Bytes :: inflate(f).size <= |f|)
      && (forall f: Bytes :: inflate(f).Truncated? ==> inflate(f).size == |f|)
      && (forall f: Bytes :: inflate(f).Complete? ==> inflate(f).size > 0)
    }
  }

  /** The laws have a model: every data byte becomes two bytes and a zero byte ends the member. */
  function Mark(data: Bytes): Bytes {
    if data == [] then [] else Mark(data[..|data| - 1]) + [1, data[|data| - 1]]
  }

  function Scan(f: Bytes): (m: Member)
    ensures m.size <= |f| && (m.Truncated? ==> m.size == |f|) && (m.Complete? ==> m.size > 0)
  {
    if f == [] then Truncated(0, [])
    else if f[0] == 0 then Complete(1, [])
    else if |f| == 1 then Truncated(1, [])
    else
      match Scan(f[2..])
      case Complete(n, d) => Complete(n + 2, [f[1]] + d)
      case Truncated(n, d) => Truncated(n + 2, [f[1]] + d)
      case Corrupt(n, d) => Corrupt(n + 2, [f[1]] + d)
  }

  const TOY := Codec((h: seq<Bytes>, d: Bytes) => Mark(d), (h: seq<Bytes>) => [0], (f: Bytes) => Scan(f))

  lemma {:induction false} MarkAppend(a: Bytes, b: Bytes)
    ensures Mark(a + b) == Mark(a) + Mark(b)
  {
    if b == [] {
      assert a + b == a;
    } else {
      MarkAppend(a, b[..|b| - 1]);
      assert (a + b)[..|a + b| - 1] == a + b[..|b| - 1];
    }
  }

  lemma {:induction false} ToyStream(h: seq<Bytes>)
    ensures TOY.Stream(h) == Mark(Concat(h))
  {
    if h != [] {
      ToyStream(h[..|h| - 1]);
      MarkAppend(Concat(h[..|h| - 1]), h[|h| - 1]);
    }
  }

  lemma {:induction false} ScanMark(d: Bytes, tail: Bytes)
    requires tail == [] || tail == [0]
    ensures Scan(Mark(d) + tail) ==
      if tail == [] then Truncated(|Mark(d)|, d) else Complete(|Mark(d)| + 1, d)
    decreases |d|
  {
    if d == [] {
      assert Mark(d) + tail == tail;
    } else {
      MarkAppend(d[..1], d[1..]);
      assert d[..1] + d[1..] == d && d[..1] == [d[0]];
      assert d[..1][..0] == [] && Mark(d[..1]) == [1, d[0]];
      ScanMark(d[1..], tail);
      assert (Mark(d) + tail)[2..] == Mark(d[1..]) + tail;
    }
  }

  lemma LawsAreSatisfiable()
    ensures TOY.Lawful()
  {
    forall h: seq<Bytes>
      ensures TOY.inflate(TOY.Closed(h)) == Complete(|TOY.Closed(h)|, Concat(h))
      ensures TOY.inflate(TOY.Stream(h)) == Truncated(|TOY.Stream(h)|, Concat(h))
    {
      ToyStream(h);
      ScanMark(Concat(h), [0]);
      ScanMark(Concat(h), []);
      assert Mark(Concat(h)) + [] == Mark(Concat(h));
    }
  }

  const CLOSING_RESERVE: nat := 20
  const MAX_EVIDENCE_FRAMES: nat := 65536
  const MAX_EXTENDED_EVIDENCE_FRAMES: nat := 1024 * 1024

  function FrameLimit(maximum: nat): (limit: nat)
    ensures MAX_EVIDENCE_FRAMES <= limit <= MAX_EXTENDED_EVIDENCE_FRAMES
  {
    var scaled := maximum / 1024;
    var raised := if scaled > MAX_EVIDENCE_FRAMES then scaled else MAX_EVIDENCE_FRAMES;
    if raised < MAX_EXTENDED_EVIDENCE_FRAMES then raised else MAX_EXTENDED_EVIDENCE_FRAMES
  }

  /* ------------------------------------------------------------------ values */

  datatype Kind = Frames | StoredBytes | DecodedBytes

  /** How writing to a file ends: fully, or with an error after some prefix reached it. */
  datatype Io = Written | Breaks(prefix: nat)

  datatype Outcome = Done | Refused | IoError | Unavailable

  /** `broken`: an I/O error may have left a partial write at the end of the stream. */
  datatype Writer = Writer(stream: Bytes, records: seq<Bytes>, closed: bool, failed: bool, broken: bool)

  datatype Budget = Budget(
    maximum: nat, decodedMaximum: nat,
    bytes: int, decoded: int, frames: int, reserved: int,
    complete: bool, exhausted: Option<Kind>,
    writers: seq<Writer>)
  {
    function Exhaust(kind: Kind): Budget {
      this.(complete := false, exhausted := if exhausted.None? then Some(kind) else exhausted)
    }

    /** The budget test: `None` admits. */
    function Refusal(stored: int, decodedSize: int): Option<Kind> {
      if stored > maximum - bytes - reserved then Some(StoredBytes)
      else if decodedSize > decodedMaximum - decoded then Some(DecodedBytes)
      else None
    }

    function AdmitFrame(): (Budget, Outcome) {
      if frames >= FrameLimit(maximum) then (Exhaust(Frames), Refused) else (this.(frames := frames + 1), Done)
    }

    function Retain(size: nat): (Budget, Outcome) {
      var refusal := Refusal(size, size);
      if refusal.Some? then (Exhaust(refusal.value), Refused)
      else (this.(bytes := bytes + size, decoded := decoded + size), Done)
    }

    function Open(): (Budget, Outcome) {
      var refusal := Refusal(CLOSING_RESERVE, 0);
      if refusal.Some? then (Exhaust(refusal.value), Refused)
      else (this.(reserved := reserved + CLOSING_RESERVE, writers := writers + [Writer([], [], false, false, false)]), Done)
    }

    /** Appending encoded bytes to the file of writer `i`. */
    function Append(i: nat, data: Bytes, decodedSize: nat, io: Io): (Budget, Outcome)
      requires i < |writers|
    {
      var refusal := Refusal(|data|, decodedSize);
      var w := writers[i];
      if refusal.Some? then (Exhaust(refusal.value), Refused)
      else match io
        case Written =>
          (this.(bytes := bytes + |data|, decoded := decoded + decodedSize,
                 writers := writers[i := w.(stream := w.stream + data)]), Done)
        case Breaks(n) =>
          (this.(writers := writers[i := w.(stream := w.stream + data[..Min(n, |data|)], broken := true)]), IoError)
    }

    function Write(codec: Codec, i: nat, data: Bytes, io: Io): (Budget, Outcome)
      requires i < |writers|
    {
      var w := writers[i];
      if w.closed || w.failed then (this, Unavailable)
      else
        var refusal := Refusal(0, |data|);
        if refusal.Some? then (Exhaust(refusal.value), Refused)
        else
          var (after, outcome) := Append(i, codec.sync(w.records, data), |data|, io);
          (after.Settle(i, data, outcome), outcome)
    }

    /** The new compressor state is committed only when the write was admitted and did not fail. */
    function Settle(i: nat, data: Bytes, outcome: Outcome): Budget
      requires i < |writers|
    {
      match outcome
      case Done => this.(writers := writers[i := writers[i].(records := writers[i].records + [data])])
      case IoError => this.(writers := writers[i := writers[i].(failed := true)])
      case _ => this
    }

    function Close(codec: Codec, i: nat, io: Io): (Budget, Outcome)
      requires i < |writers|
    {
      var w := writers[i];
      if w.closed then (this, Done)
      else
        var released := this.(reserved := reserved - CLOSING_RESERVE, writers := writers[i := w.(closed := true)]);
        if w.failed then (released, Done) else released.Append(i, codec.finish(w.records), 0, io)
    }

    /** Closes the writers from `i` on; an error in one does not keep the others open. */
    function CloseFrom(codec: Codec, i: nat, ios: seq<Io>): Budget
      requires i <= |writers| == |ios|
      decreases |ios| - i
    {
      if i == |writers| then this else Close(codec, i, ios[i]).0.CloseFrom(codec, i + 1, ios)
    }
  }

  function Min(a: nat, b: nat): nat { if a < b then a else b }

  function Fresh(maximum: nat, decodedMaximum: nat): Budget {
    Budget(maximum, decodedMaximum, 0, 0, 0, 0, true, None, [])
  }

  /* ------------------------------------------------------------------ the invariant */

  function OpenCount(ws: seq<Writer>): nat {
    if ws == [] then 0 else OpenCount(ws[..|ws| - 1]) + if ws[|ws| - 1].closed then 0 else 1
  }

  /** Bytes in the files whose streams were never broken. */
  function StoredSum(ws: seq<Writer>): nat {
    if ws == [] then 0 else StoredSum(ws[..|ws| - 1]) + if ws[|ws| - 1].broken then 0 else |ws[|ws| - 1].stream|
  }

  function DecodedSum(ws: seq<Writer>): nat {
    if ws == [] then 0 else DecodedSum(ws[..|ws| - 1]) + |Concat(ws[|ws| - 1].records)|
  }

  /** An unbroken stream holds exactly its admitted records, and its trailer once it is closed. */
  ghost predicate Intact(codec: Codec, w: Writer) {
    && (w.failed ==> w.broken)
    && (!w.broken ==> w.stream == if w.closed then codec.Closed(w.records) else codec.Stream(w.records))
  }

  ghost predicate Inv(codec: Codec, b: Budget) {
    && b.bytes + b.reserved <= b.maximum
    && b.decoded <= b.decodedMaximum
    && 0 <= b.frames <= FrameLimit(b.maximum)
    && b.reserved == CLOSING_RESERVE * OpenCount(b.writers)
    && StoredSum(b.writers) <= b.bytes
    && DecodedSum(b.writers) <= b.decoded
    && (forall i | 0 <= i < |b.writers| :: Intact(codec, b.writers[i]))
    && (b.exhausted.Some? ==> !b.complete)
  }

  lemma {:induction false} UpdateSums(ws: seq<Writer>, i: nat, w: Writer)
    requires i < |ws|
    ensures OpenCount(ws[i := w]) == OpenCount(ws) + (if w.closed then 0 else 1) - (if ws[i].closed then 0 else 1)
    ensures StoredSum(ws[i := w]) == StoredSum(ws) + (if w.broken then 0 else |w.stream|) - (if ws[i].broken then 0 else |ws[i].stream|)
    ensures DecodedSum(ws[i := w]) == DecodedSum(ws) + |Concat(w.records)| - |Concat(ws[i].records)|
  {
    var n := |ws| - 1;
    if i < n {
      UpdateSums(ws[..n], i, w);
      assert ws[i := w][..n] == ws[..n][i := w];
    } else {
      assert ws[i := w][..n] == ws[..n];
    }
  }

  lemma AppendSums(ws: seq<Writer>, w: Writer)
    ensures OpenCount(ws + [w]) == OpenCount(ws) + if w.closed then 0 else 1
    ensures StoredSum(ws + [w]) == StoredSum(ws) + if w.broken then 0 else |w.stream|
    ensures DecodedSum(ws + [w]) == DecodedSum(ws) + |Concat(w.records)|
  {
  }

  lemma StreamAppend(codec: Codec, records: seq<Bytes>, data: Bytes)
    ensures codec.Stream(records + [data]) == codec.Stream(records) + codec.sync(records, data)
  {
  }

  /* ------------------------------------------------------------------ runs */

  datatype Action =
    | FrameAdmitted
    | Retained(size: nat)
    | Opened
    | Wrote(i: nat, data: Bytes, io: Io)
    | ClosedOne(i: nat, io: Io)

  function Step(codec: Codec, b: Budget, a: Action): (Budget, Outcome)
    requires (a.Wrote? || a.ClosedOne?) ==> a.i < |b.writers|
  {
    match a
    case FrameAdmitted => b.AdmitFrame()
    case Retained(size) => b.Retain(size)
    case Opened => b.Open()
    case Wrote(i, data, io) => b.Write(codec, i, data, io)
    case ClosedOne(i, io) => b.Close(codec, i, io)
  }

  lemma OpenKeepsInv(codec: Codec, b: Budget)
    requires Inv(codec, b)
    ensures Inv(codec, b.Open().0)
  {
    var w := Writer([], [], false, false, false);
    AppendSums(b.writers, w);
    if b.Open().1.Done? {
      assert b.Open().0.writers == b.writers + [w];
      assert Intact(codec, w);
      assert Concat(w.records) == [];
    }
  }

  lemma WrittenWriter(codec: Codec, b: Budget, i: nat, data: Bytes, io: Io)
    requires Inv(codec, b) && i < |b.writers|
    ensures var after := b.Write(codec, i, data, io).0;
      |after.writers| == |b.writers| && after.writers == b.writers[i := after.writers[i]] && Intact(codec, after.writers[i])
  {
    assert Intact(codec, b.writers[i]);
    StreamAppend(codec, b.writers[i].records, data);
  }

  /** Replacing one writer keeps the invariant when the counters move with it. */
  lemma ReplaceKeepsInv(codec: Codec, b: Budget, after: Budget, i: nat)
    requires Inv(codec, b) && i < |b.writers| == |after.writers|
    requires after.writers == b.writers[i := after.writers[i]] && Intact(codec, after.writers[i])
    requires after.maximum == b.maximum && after.decodedMaximum == b.decodedMaximum && after.frames == b.frames
    requires after.reserved ==
      b.reserved + CLOSING_RESERVE * ((if after.writers[i].closed then 0 else 1) - (if b.writers[i].closed then 0 else 1))
    requires after.bytes + after.reserved <= after.maximum && after.decoded <= after.decodedMaximum
    requires after.bytes - b.bytes >=
      (if after.writers[i].broken then 0 else |after.writers[i].stream|) - (if b.writers[i].broken then 0 else |b.writers[i].stream|)
    requires after.decoded - b.decoded >= |Concat(after.writers[i].records)| - |Concat(b.writers[i].records)|
    requires after.exhausted.Some? ==> !after.complete
    ensures Inv(codec, after)
  {
    UpdateSums(b.writers, i, after.writers[i]);
    assert forall k | 0 <= k < |after.writers| && k != i :: after.writers[k] == b.writers[k];
  }

  /** What a write changes: on success one more record in `i`, otherwise no record anywhere. */
  lemma WriteEffect(codec: Codec, b: Budget, i: nat, data: Bytes, io: Io)
    requires i < |b.writers|
    ensures var (after, outcome) := b.Write(codec, i, data, io);
      && |after.writers| == |b.writers| && after.frames == b.frames
      && after.maximum == b.maximum && after.decodedMaximum == b.decodedMaximum
      && (forall j | 0 <= j < |b.writers| && j != i :: after.writers[j] == b.writers[j])
      && after.writers[i].records == (if outcome.Done? then b.writers[i].records + [data] else b.writers[i].records)
      && (outcome.Done? ==> after.complete == b.complete) && (after.complete ==> b.complete)
  {
  }

  /** What a write leaves: the counters grow by what was written, a refusal changes no writer, and after an I/O
      error the writer is out of use. */
  ghost predicate WriteLeaves(codec: Codec, b: Budget, i: nat, data: Bytes, after: Budget, outcome: Outcome)
    requires i < |b.writers|
  {
    var w := b.writers[i];
    var encoded := codec.sync(w.records, data);
    match outcome
    case Done =>
      after == b.(bytes := b.bytes + |encoded|, decoded := b.decoded + |data|,
                  writers := b.writers[i := w.(stream := w.stream + encoded, records := w.records + [data])])
    case Refused => after == b.(complete := false, exhausted := after.exhausted) && after.exhausted.Some?
    case IoError =>
      && |after.writers| == |b.writers| && after == b.(writers := b.writers[i := after.writers[i]])
      && after.writers[i] == w.(stream := after.writers[i].stream, failed := true, broken := true) &&
            w.stream <= after.writers[i].stream
    case Unavailable => after == b
  }

  /** A write is done if and only if the writer is usable, the data fit the decoded budget, what the
      compressor makes of them fits what is stored beside the reserve, and the file takes it. */
  lemma WrittenExactly(codec: Codec, b: Budget, i: nat, data: Bytes, io: Io)
    requires i < |b.writers|
    ensures var (after, outcome) := b.Write(codec, i, data, io);
      var w := b.writers[i];
      var fits := b.decoded + |data| <= b.decodedMaximum && b.bytes + b.reserved + |codec.sync(w.records, data)| <= b.maximum;
      && (outcome.Done? <==> !w.closed && !w.failed && fits && io.Written?)
      && (outcome.Refused? <==> !w.closed && !w.failed && !fits)
      && (outcome.Unavailable? <==> w.closed || w.failed)
      && WriteLeaves(codec, b, i, data, after, outcome)
  {
  }

  /** The counters move with the stream and the records of the writer. */
  lemma WriteCounts(codec: Codec, b: Budget, i: nat, data: Bytes, after: Budget, outcome: Outcome)
    requires i < |b.writers| && b.bytes + b.reserved <= b.maximum && b.decoded <= b.decodedMaximum
    requires b.exhausted.Some? ==> !b.complete
    requires WriteLeaves(codec, b, i, data, after, outcome)
    requires outcome.Done? ==> after.bytes + b.reserved <= b.maximum && after.decoded <= b.decodedMaximum
    ensures |after.writers| == |b.writers| && after.reserved == b.reserved && after.writers[i].closed == b.writers[i].closed
    ensures after.bytes + after.reserved <= after.maximum && after.decoded <= after.decodedMaximum
    ensures after.bytes - b.bytes >=
      (if after.writers[i].broken then 0 else |after.writers[i].stream|) - (if b.writers[i].broken then 0 else |b.writers[i].stream|)
    ensures after.decoded - b.decoded >= |Concat(after.writers[i].records)| - |Concat(b.writers[i].records)|
    ensures after.exhausted.Some? ==> !after.complete
  {
    ConcatAppend(b.writers[i].records, data);
  }

  lemma WriteKeepsInv(codec: Codec, b: Budget, i: nat, data: Bytes, io: Io)
    requires Inv(codec, b) && i < |b.writers|
    ensures Inv(codec, b.Write(codec, i, data, io).0)
  {
    var after := b.Write(codec, i, data, io).0;
    WriteEffect(codec, b, i, data, io);
    WrittenWriter(codec, b, i, data, io);
    WrittenExactly(codec, b, i, data, io);
    WriteCounts(codec, b, i, data, after, b.Write(codec, i, data, io).1);
    ReplaceKeepsInv(codec, b, after, i);
  }

  /** Closing writer `i` succeeds or breaks on I/O; the budget never refuses the trailer. */
  lemma CloseIsAdmitted(codec: Codec, b: Budget, i: nat, io: Io)
    requires codec.Lawful() && Inv(codec, b) && i < |b.writers|
    ensures !b.Close(codec, i, io).1.Refused?
    ensures io.Written? ==> b.Close(codec, i, io).1.Done?
    ensures |b.Close(codec, i, io).0.writers| == |b.writers| && b.Close(codec, i, io).0.writers[i].closed
    ensures forall k | 0 <= k < |b.writers| && k != i :: b.Close(codec, i, io).0.writers[k] == b.writers[k]
    ensures Inv(codec, b.Close(codec, i, io).0)
  {
    var after := b.Close(codec, i, io).0;
    assert Intact(codec, b.writers[i]);
    ReplaceKeepsInv(codec, b, after, i);
  }

  lemma StepKeepsInv(codec: Codec, b: Budget, a: Action)
    requires codec.Lawful() && Inv(codec, b)
    requires (a.Wrote? || a.ClosedOne?) ==> a.i < |b.writers|
    ensures Inv(codec, Step(codec, b, a).0)
  {
    match a {
      case FrameAdmitted =>
      case Retained(_) =>
      case Opened => OpenKeepsInv(codec, b);
      case Wrote(i, data, io) => WriteKeepsInv(codec, b, i, data, io);
      case ClosedOne(i, io) => CloseIsAdmitted(codec, b, i, io);
    }
  }

  ghost predicate IsRun(codec: Codec, states: seq<Budget>, actions: seq<Action>) {
    && |states| == |actions| + 1
    && states[0] == Fresh(states[0].maximum, states[0].decodedMaximum)
    && forall k | 0 <= k < |actions| ::
         var a := actions[k];
         ((a.Wrote? || a.ClosedOne?) ==> a.i < |states[k].writers|) && states[k + 1] == Step(codec, states[k], a).0
  }

  /** In every run of opens, writes, retains and closes, admitted, refused or broken, the counters stay
      within the limits, the reserve is 20 bytes per open writer, and every unbroken stream decodes to
      the concatenation of what was admitted. */
  lemma {:induction false} RunKeepsInv(codec: Codec, states: seq<Budget>, actions: seq<Action>, k: nat)
    requires codec.Lawful() && IsRun(codec, states, actions) && k < |states|
    ensures Inv(codec, states[k])
    ensures forall i | 0 <= i < |states[k].writers| && !states[k].writers[i].broken ::
      var w := states[k].writers[i];
      codec.inflate(w.stream) ==
        if w.closed then Complete(|w.stream|, Concat(w.records)) else Truncated(|w.stream|, Concat(w.records))
  {
    if k > 0 {
      RunKeepsInv(codec, states, actions, k - 1);
      StepKeepsInv(codec, states[k - 1], actions[k - 1]);
    }
  }

  /** A frame is admitted as long as the limit is not reached, and the limit follows the byte budget. */
  lemma FramesAreLimited(b: Budget)
    ensures b.AdmitFrame().1.Done? <==>
      b.frames < 65536 || (b.frames < 1048576 && b.frames < b.maximum / 1024)
  {
  }

  /** A refused write changes neither stream nor compressor, and is recorded as an exhausted budget. */
  lemma RefusedWriteLeavesWriters(codec: Codec, b: Budget, i: nat, data: Bytes, io: Io)
    requires i < |b.writers| && b.Write(codec, i, data, io).1.Refused?
    ensures var after := b.Write(codec, i, data, io).0;
      after.writers == b.writers && after.bytes == b.bytes && after.decoded == b.decoded && after.reserved == b.reserved &&
      !after.complete && after.exhausted.Some?
  {
  }

  /** Closing everything, whatever fails on the way, releases the whole reserve. */
  lemma {:induction false} CloseFromClosesAll(codec: Codec, b: Budget, i: nat, ios: seq<Io>)
    requires codec.Lawful() && Inv(codec, b) && i <= |b.writers| == |ios|
    requires forall k | 0 <= k < i :: b.writers[k].closed
    ensures var after := b.CloseFrom(codec, i, ios);
      Inv(codec, after) && |after.writers| == |b.writers| && after.reserved == 0 &&
      (forall k | 0 <= k < |after.writers| :: after.writers[k].closed)
    decreases |ios| - i
  {
    if i < |b.writers| {
      CloseIsAdmitted(codec, b, i, ios[i]);
      CloseFromClosesAll(codec, b.Close(codec, i, ios[i]).0, i + 1, ios);
    } else {
      AllClosed(b.writers);
    }
  }

  lemma {:induction false} AllClosed(ws: seq<Writer>)
    requires forall k | 0 <= k < |ws| :: ws[k].closed
    ensures OpenCount(ws) == 0
  {
    if ws != [] {
      AllClosed(ws[..|ws| - 1]);
    }
  }

  /* ------------------------------------------------------------------ the classes */

  class EvidenceBudget {
    const maximum: nat
    const decodedMaximum: nat
    var bytes: int
    var decodedBytes: int
    var frames: int
    var reserved: int
    var complete: bool
    var exhausted: Option<Kind>
    var writers: seq<EvidenceWriter>

    ghost predicate Valid()
      reads this, writers
    {
      && (forall i, j | 0 <= i < j < |writers| :: writers[i] != writers[j])
      && (forall i | 0 <= i < |writers| :: writers[i].budget == this)
    }

    ghost function View(): Budget
      reads this, writers
    {
      Budget(maximum, decodedMaximum, bytes, decodedBytes, frames, reserved, complete, exhausted, Views(writers))
    }

    constructor (maximum: nat, decodedMaximum: nat)
      ensures Valid() && View() == Fresh(maximum, decodedMaximum)
    {
      this.maximum, this.decodedMaximum := maximum, decodedMaximum;
      bytes, decodedBytes, frames, reserved := 0, 0, 0, 0;
      complete, exhausted, writers := true, None, [];
    }

    method Exhausted(kind: Kind)
      requires Valid()
      modifies this`complete, this`exhausted
      ensures Valid() && View() == old(View()).Exhaust(kind)
    {
      complete := false;
      if exhausted.None? {
        exhausted := Some(kind);
      }
    }

    method AdmitFrame() returns (outcome: Outcome)
      requires Valid()
      modifies this`complete, this`exhausted, this`frames
      ensures Valid() && (View(), outcome) == old(View()).AdmitFrame()
    {
      if frames >= FrameLimit(maximum) {
        Exhausted(Frames);
        return Refused;
      }
      frames := frames + 1;
      return Done;
    }

    method Check(stored: int, decodedSize: int) returns (ok: bool)
      requires Valid()
      modifies this`complete, this`exhausted
      ensures Valid() && ok == old(View()).Refusal(stored, decodedSize).None?
      ensures View() == if ok then old(View()) else old(View()).Exhaust(old(View()).Refusal(stored, decodedSize).value)
    {
      if stored > maximum - bytes - reserved {
        Exhausted(StoredBytes);
        return false;
      }
      if decodedSize > decodedMaximum - decodedBytes {
        Exhausted(DecodedBytes);
        return false;
      }
      return true;
    }

    method Retain(size: nat) returns (outcome: Outcome)
      requires Valid()
      modifies this
      ensures Valid() && writers == old(writers) && (View(), outcome) == old(View()).Retain(size)
    {
      var ok := Check(size, size);
      if !ok {
        return Refused;
      }
      bytes := bytes + size;
      decodedBytes := decodedBytes + size;
      return Done;
    }

    /** The constructor of `EvidenceWriter`; `null` when the closing reserve is refused. */
    method OpenWriter(codec: Codec) returns (writer: EvidenceWriter?)
      requires Valid()
      modifies this
      ensures Valid() && View() == old(View()).Open().0
      ensures writer != null <==> old(View()).Open().1.Done?
      ensures writer != null ==> fresh(writer) && writers == old(writers) + [writer] && writer.codec == codec
    {
      var ok := Check(CLOSING_RESERVE, 0);
      if !ok {
        return null;
      }
      ghost var before := View().writers;
      var w := new EvidenceWriter(this, codec);
      reserved := reserved + CLOSING_RESERVE;
      writers := writers + [w];
      assert View().writers == before + [w.View()];
      return w;
    }

    method Write(writer: EvidenceWriter, ghost i: nat, data: Bytes, decodedSize: nat, io: Io) returns (outcome: Outcome)
      requires Valid() && i < |writers| && writers[i] == writer
      modifies this, writer`stream, writer`broken
      ensures Valid() && writers == old(writers)
      ensures (View(), outcome) == old(View()).Append(i, data, decodedSize, io)
    {
      ghost var before := View().writers;
      var ok := Check(|data|, decodedSize);
      if !ok {
        return Refused;
      }
      match io {
        case Written =>
          writer.stream := writer.stream + data;
          bytes := bytes + |data|;
          decodedBytes := decodedBytes + decodedSize;
          outcome := Done;
        case Breaks(n) =>
          writer.stream := writer.stream + data[..Min(n, |data|)];
          writer.broken := true;
          outcome := IoError;
      }
      assert View().writers == before[i := writer.View()];
    }

    /** Closes every writer, also when closing one of them fails. */
    method Close(ios: seq<Io>) returns (failed: bool)
      requires Valid() && |ios| == |writers|
      requires forall i | 0 <= i < |writers| :: writers[i].codec == writers[0].codec
      modifies this, writers
      ensures Valid() && writers == old(writers)
      ensures writers != [] ==> View() == old(View()).CloseFrom(writers[0].codec, 0, ios)
    {
      failed := false;
      ghost var before := View();
      for i := 0 to |writers|
        invariant Valid() && writers == old(writers)
        invariant forall k | 0 <= k < |writers| :: writers[k].codec == old(writers[0].codec)
        invariant writers != [] ==> before.CloseFrom(writers[0].codec, 0, ios) == View().CloseFrom(writers[0].codec, i, ios)
      {
        var outcome := writers[i].Close(i, ios[i]);
        if outcome.IoError? || outcome.Refused? {
          failed := true;
        }
      }
    }
  }

  ghost function Views(writers: seq<EvidenceWriter>): (views: seq<Writer>)
    reads writers
    ensures |views| == |writers| && forall i | 0 <= i < |writers| :: views[i] == writers[i].View()
  {
    seq(|writers|, i requires 0 <= i < |writers| reads writers => writers[i].View())
  }

  class EvidenceWriter {
    const budget: EvidenceBudget
    const codec: Codec
    var stream: Bytes
    var compressor: seq<Bytes>   // the records compressed so far
    var closed: bool
    var failed: bool
    ghost var broken: bool

    ghost function View(): Writer
      reads this
    {
      Writer(stream, compressor, closed, failed, broken)
    }

    constructor (budget: EvidenceBudget, codec: Codec)
      ensures this.budget == budget && this.codec == codec && View() == Writer([], [], false, false, false)
    {
      this.budget, this.codec := budget, codec;
      stream, compressor, closed, failed, broken := [], [], false, false, false;
    }

    method Write(ghost i: nat, data: Bytes, io: Io) returns (outcome: Outcome)
      requires budget.Valid() && i < |budget.writers| && budget.writers[i] == this
      modifies this, budget
      ensures budget.Valid() && budget.writers == old(budget.writers)
      ensures (budget.View(), outcome) == old(budget.View()).Write(codec, i, data, io)
    {
      if closed || failed {
        return Unavailable;
      }
      var ok := budget.Check(0, |data|);
      if !ok {
        return Refused;
      }
      outcome := budget.Write(this, i, codec.sync(compressor, data), |data|, io);
      Settle(i, data, outcome);
    }

    method Settle(ghost i: nat, data: Bytes, outcome: Outcome)
      requires budget.Valid() && i < |budget.writers| && budget.writers[i] == this
      modifies this
      ensures budget.Valid() && budget.View() == old(budget.View()).Settle(i, data, outcome)
    {
      ghost var before := budget.View().writers;
      if outcome.IoError? {
        failed := true;
      } else if outcome.Done? {
        compressor := compressor + [data];
      }
      assert budget.View().writers == before[i := View()];
    }

    method Close(ghost i: nat, io: Io) returns (outcome: Outcome)
      requires budget.Valid() && i < |budget.writers| && budget.writers[i] == this
      modifies this, budget
      ensures budget.Valid() && budget.writers == old(budget.writers)
      ensures (budget.View(), outcome) == old(budget.View()).Close(codec, i, io)
    {
      if closed {
        return Done;
      }
      ghost var before := budget.View().writers;
      closed := true;
      budget.reserved := budget.reserved - CLOSING_RESERVE;
      assert budget.View().writers == before[i := View()];
      if !failed {
        outcome := budget.Write(this, i, codec.finish(compressor), 0, io);
      } else {
        outcome := Done;
      }
    }
  }
}
