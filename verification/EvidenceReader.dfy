/** Reading retained evidence back: an incremental gzip reader, the manifest of closed files, and the
    framing of the event log.  `zlib` decides how much of each chunk it consumes and emits, and the
    operating system how much each read returns; everything below holds for every such choice. */
module EvidenceReading {
  import opened Evidence

  const CHUNK: nat := 64 * 1024
  const MAX_EVENT_FRAME: nat := 2 * 16 * 1024 * 1024

  /** The file is one whole gzip member within both limits. */
  predicate Acceptable(codec: Codec, file: Bytes, maximum: nat, decodedMaximum: nat) {
    var m := codec.inflate(file);
    m.Complete? && m.size == |file| && |file| <= maximum && |m.data| <= decodedMaximum
  }

  /** What the format promises about every file: members end inside it and are never empty. */
  predicate Bounded(codec: Codec, file: Bytes) {
    var m := codec.inflate(file);
    m.size <= |file| && (m.Truncated? ==> m.size == |file|) && (m.Complete? ==> m.size > 0)
  }

  datatype Inflated = ZlibError | Inflated(output: Bytes, unconsumed: Bytes, unused: Bytes)

  /** `zlib.decompressobj`, as a position in a file whose contents are known in advance. */
  class Decoder {
    const codec: Codec
    const file: Bytes
    var taken: nat
    var produced: nat
    var eof: bool

    function Member(): Member { codec.inflate(file) }

    ghost predicate Valid()
      reads this
    {
      && Bounded(codec, file)
      && taken <= Member().size && produced <= |Member().data|
      && (eof <==> Member().Complete? && taken == Member().size)
      && (eof ==> produced == |Member().data|)
    }

    constructor (codec: Codec, file: Bytes)
      requires Bounded(codec, file)
      ensures Valid() && this.codec == codec && this.file == file && taken == 0 && produced == 0 && !eof
    {
      this.codec, this.file := codec, file;
      taken, produced, eof := 0, 0, false;
    }

    /** What one call on `size` bytes of input may do: consume `n` bytes and emit `m`. */
    predicate Allowed(size: nat, limit: nat, n: nat, m: nat)
      reads this
    {
      && n <= size && taken + n <= Member().size
      && m <= limit && produced + m <= |Member().data|
      // input is left over only when the output limit was reached or the member ended
      && (n < size && taken + n < Member().size ==> m == limit)
      // the trailer is consumed after everything was emitted
      && (Member().Complete? && taken + n == Member().size ==> produced + m == |Member().data|)
      && (n == 0 && m == 0 ==> Member().Corrupt?)
    }

    method Decompress(chunk: Bytes, limit: nat) returns (r: Inflated)
      requires Valid() && !eof && |chunk| > 0 && limit > 0
      requires taken + |chunk| <= |file| && chunk == file[taken..taken + |chunk|]
      modifies this
      ensures Valid()
      ensures r.ZlibError? ==> Member().Corrupt?
      ensures r.Inflated? ==>
        && |r.unconsumed| + |r.unused| <= |chunk| && |r.output| <= limit
        && taken == old(taken) + |chunk| - |r.unconsumed| - |r.unused| && produced == old(produced) + |r.output|
        && r.output == Member().data[old(produced)..produced]
        && r.unconsumed + r.unused == file[taken..old(taken) + |chunk|]
        && (if eof then r.unconsumed == [] else r.unused == [])
        && (taken > old(taken) || produced > old(produced))
    {
      var left := |Member().data| - produced;
      assert left <= limit ==> Allowed(|chunk|, limit, Min(|chunk|, Member().size - taken), left);
      assert left > limit ==> Allowed(|chunk|, limit, 0, limit);
      var n: nat, m: nat :| Allowed(|chunk|, limit, n, m);
      assert Allowed(|chunk|, limit, n, m);
      if n == 0 && m == 0 {
        return ZlibError;
      }
      var output := Member().data[produced..produced + m];
      taken, produced := taken + n, produced + m;
      eof := Member().Complete? && taken == Member().size;
      return if eof then Inflated(output, [], chunk[n..]) else Inflated(output, chunk[n..], []);
    }
  }

  datatype ReadResult = Data(bytes: Bytes) | ReadError

  class EvidenceReader {
    const maximum: nat
    const decodedMaximum: nat
    const file: Bytes
    const decoder: Decoder
    var position: nat        // of the underlying file
    var pending: Bytes
    var bytes: nat
    var decodedBytes: nat
    var digest: Bytes        // everything the stored hash has seen
    var decodedDigest: Bytes

    ghost predicate Valid()
      reads this, decoder
    {
      && decoder.Valid() && decoder.file == file
      && position <= |file| && bytes == position <= maximum && digest == file[..position]
      && decodedBytes == decoder.produced <= decodedMaximum
      && decodedDigest == decoder.Member().data[..decoder.produced]
      && decoder.taken + |pending| == position && pending == file[decoder.taken..position]
    }

    /** `chunk` is the last part of the decoded data emitted so far. */
    ghost predicate Delivered(chunk: Bytes)
      reads this, decoder
    {
      && Valid() && |chunk| <= decoder.produced
      && chunk == decoder.Member().data[decoder.produced - |chunk|..decoder.produced]
    }

    ghost predicate Good() { Acceptable(decoder.codec, file, maximum, decodedMaximum) }

    constructor (codec: Codec, file: Bytes, maximum: nat, decodedMaximum: nat)
      requires Bounded(codec, file)
      ensures Valid() && fresh(decoder) && decoder.codec == codec && this.file == file
      ensures this.maximum == maximum && this.decodedMaximum == decodedMaximum && position == 0 && decoder.produced == 0
    {
      this.maximum, this.decodedMaximum, this.file := maximum, decodedMaximum, file;
      decoder := new Decoder(codec, file);
      position, pending, bytes, decodedBytes, digest, decodedDigest := 0, [], 0, 0, [], [];
    }

    /** The unconsumed input, or the next part of the file; `[]` at its end, `None` over the limit. */
    method NextChunk() returns (chunk: Option<Bytes>)
      requires Valid()
      modifies this
      ensures chunk.None? ==> |file| > maximum
      ensures chunk.Some? ==> Valid() && pending == chunk.value && decodedDigest == old(decodedDigest)
      ensures chunk.Some? && chunk.value == [] ==> position == |file|
    {
      if pending != [] {
        return Some(pending);
      }
      var wanted := Min(CHUNK, maximum - bytes + 1);
      var left := |file| - position;
      assert left == 0 ==> position == |file|;
      var got: nat :| got <= wanted && got <= left && (got == 0 ==> left == 0);
      pending := file[position..position + got];
      position := position + got;
      bytes := bytes + got;
      if bytes > maximum {
        return None;
      }
      digest := digest + pending;
      return Some(pending);
    }

    /** One chunk of decoded data; empty data only at the end of the file. */
    method Read(limit: nat) returns (r: ReadResult)
      requires Valid() && limit > 0
      modifies this, decoder
      ensures r.ReadError? ==> !Good()
      ensures r.Data? ==> Delivered(r.bytes) && |r.bytes| == decoder.produced - old(decoder.produced)
      ensures r.Data? && r.bytes == [] ==> position == |file| && pending == []
    {
      ghost var before := decodedDigest;
      while true
        invariant Valid() && decodedDigest == before && decoder.produced == |before|
        decreases |file| - decoder.taken
      {
        var chunk := NextChunk();
        if chunk.None? {
          return ReadError;
        }
        if chunk.value == [] {
          return Data([]);
        }
        if decoder.eof {
          return ReadError;
        }
        var inflated := decoder.Decompress(chunk.value, Min(limit, decodedMaximum - decodedBytes + 1));
        if inflated.ZlibError? {
          return ReadError;
        }
        pending := inflated.unconsumed;
        if inflated.unused != [] {
          return ReadError;
        }
        decodedBytes := decodedBytes + |inflated.output|;
        if decodedBytes > decodedMaximum {
          return ReadError;
        }
        decodedDigest := decodedDigest + inflated.output;
        if inflated.output != [] {
          return Data(inflated.output);
        }
      }
    }

    method Finish() returns (ok: bool)
      requires Valid()
      ensures ok == (decoder.eof && pending == [])
    {
      if !decoder.eof || pending != [] {
        return false;
      }
      return true;
    }

    /** At the end of the file, `Finish` accepts exactly the acceptable files. */
    lemma EndOfFile()
      requires Valid() && position == |file| && pending == []
      ensures decoder.eof <==> Good()
      ensures Good() ==> digest == file && decodedDigest == decoder.codec.inflate(file).data
    {
    }
  }

  /* ------------------------------------------------------------------ the manifest */

  datatype FileName = Stdin | Stdout | Events | Stderr
  const EVIDENCE_FILES: seq<FileName> := [Stdin, Stdout, Events, Stderr]

  /** What the two hashes of a manifest entry were computed from; the sizes are their lengths. */
  datatype Entry = Entry(stored: Bytes, decoded: Bytes)

  type Directory = map<FileName, Bytes>

  function EntryOf(codec: Codec, file: Bytes): Entry { Entry(file, codec.inflate(file).data) }

  function StoredTotal(dir: Directory, names: seq<FileName>): nat {
    if names == [] then 0
    else StoredTotal(dir, names[..|names| - 1]) + if names[|names| - 1] in dir then |dir[names[|names| - 1]]| else 0
  }

  function DecodedTotal(codec: Codec, dir: Directory, names: seq<FileName>): nat {
    if names == [] then 0
    else
      DecodedTotal(codec, dir, names[..|names| - 1]) +
      if names[|names| - 1] in dir then |codec.inflate(dir[names[|names| - 1]]).data| else 0
  }

  predicate WholeFiles(codec: Codec, dir: Directory, names: seq<FileName>) {
    forall name | name in names && name in dir ::
      var m := codec.inflate(dir[name]);
      m.Complete? && m.size == |dir[name]|
  }

  predicate Accepted(codec: Codec, dir: Directory, names: seq<FileName>, maximum: nat, decodedMaximum: nat) {
    && WholeFiles(codec, dir, names)
    && StoredTotal(dir, names) <= maximum
    && DecodedTotal(codec, dir, names) <= decodedMaximum
  }

  function ManifestOf(codec: Codec, dir: Directory, names: seq<FileName>): map<FileName, Entry> {
    map name | name in names && name in dir :: EntryOf(codec, dir[name])
  }

  lemma TotalsGrow(codec: Codec, dir: Directory, names: seq<FileName>, k: nat)
    requires k <= |names|
    ensures StoredTotal(dir, names[..k]) <= StoredTotal(dir, names)
    ensures DecodedTotal(codec, dir, names[..k]) <= DecodedTotal(codec, dir, names)
    decreases |names|
  {
    if k == |names| {
      assert names[..k] == names;
    } else {
      TotalsGrow(codec, dir, names[..|names| - 1], k);
      assert names[..|names| - 1][..k] == names[..k];
    }
  }

  /** Adding one present file to an accepted prefix. */
  lemma ExtendAccepted(codec: Codec, dir: Directory, names: seq<FileName>, name: FileName, maximum: nat, decodedMaximum: nat)
    requires Accepted(codec, dir, names, maximum, decodedMaximum)
    ensures Accepted(codec, dir, names + [name], maximum, decodedMaximum) <==>
      (name in dir ==>
        && codec.inflate(dir[name]).Complete? && codec.inflate(dir[name]).size == |dir[name]|
        && StoredTotal(dir, names) + |dir[name]| <= maximum
        && DecodedTotal(codec, dir, names) + |codec.inflate(dir[name]).data| <= decodedMaximum)
    ensures ManifestOf(codec, dir, names + [name]) ==
      if name in dir then ManifestOf(codec, dir, names)[name := EntryOf(codec, dir[name])] else ManifestOf(codec, dir, names)
  {
  }

  lemma PrefixAccepted(codec: Codec, dir: Directory, names: seq<FileName>, k: nat, maximum: nat, decodedMaximum: nat)
    requires k <= |names| && Accepted(codec, dir, names, maximum, decodedMaximum)
    ensures Accepted(codec, dir, names[..k], maximum, decodedMaximum)
  {
    TotalsGrow(codec, dir, names, k);
  }

  /** The manifest exists exactly when every present file is one whole member and the totals fit. */
  method EvidenceManifest(codec: Codec, dir: Directory, maximum: nat, decodedMaximum: nat)
    returns (files: Option<map<FileName, Entry>>)
    requires forall name | name in dir :: Bounded(codec, dir[name])
    ensures files.Some? <==> maximum > 0 && decodedMaximum > 0 && Accepted(codec, dir, EVIDENCE_FILES, maximum, decodedMaximum)
    ensures files.Some? ==> files.value == ManifestOf(codec, dir, EVIDENCE_FILES)
  {
    if maximum == 0 || decodedMaximum == 0 {
      return None;
    }
    var found: map<FileName, Entry>, consumed, decoded := map[], 0, 0;
    assert EVIDENCE_FILES[..0] == [];
    for k := 0 to |EVIDENCE_FILES|
      invariant Accepted(codec, dir, EVIDENCE_FILES[..k], maximum, decodedMaximum)
      invariant found == ManifestOf(codec, dir, EVIDENCE_FILES[..k])
      invariant consumed == StoredTotal(dir, EVIDENCE_FILES[..k])
      invariant decoded == DecodedTotal(codec, dir, EVIDENCE_FILES[..k])
    {
      var name := EVIDENCE_FILES[k];
      ghost var more := EVIDENCE_FILES[..k + 1];
      assert more == EVIDENCE_FILES[..k] + [name] && more[..k] == EVIDENCE_FILES[..k];
      ExtendAccepted(codec, dir, EVIDENCE_FILES[..k], name, maximum, decodedMaximum);
      if Accepted(codec, dir, EVIDENCE_FILES, maximum, decodedMaximum) {
        PrefixAccepted(codec, dir, EVIDENCE_FILES, k + 1, maximum, decodedMaximum);
      }
      if name in dir {
        var read := ReadWhole(codec, dir[name], maximum, decodedMaximum, consumed, decoded);
        if read.None? {
          return None;
        }
        consumed := consumed + |read.value.stored|;
        decoded := decoded + |read.value.decoded|;
        if consumed > maximum || decoded > decodedMaximum {
          return None;
        }
        found := found[name := read.value];
      }
    }
    assert EVIDENCE_FILES[..|EVIDENCE_FILES|] == EVIDENCE_FILES;
    return Some(found);
  }

  /** One file of the manifest; `consumed` and `decoded` count the files before it. */
  method ReadWhole(codec: Codec, file: Bytes, maximum: nat, decodedMaximum: nat, consumed: nat, decoded: nat)
    returns (entry: Option<Entry>)
    requires Bounded(codec, file)
    ensures entry.Some? ==> Acceptable(codec, file, maximum, decodedMaximum) && entry.value == EntryOf(codec, file)
    ensures entry.None? ==>
      !Acceptable(codec, file, maximum, decodedMaximum) ||
      consumed + |file| > maximum || decoded + |codec.inflate(file).data| > decodedMaximum
  {
    var reader := new EvidenceReader(codec, file, maximum, decodedMaximum);
    var chunk := reader.Read(CHUNK);
    while chunk.Data? && chunk.bytes != []
      invariant chunk.ReadError? ==> !Acceptable(codec, file, maximum, decodedMaximum)
      invariant chunk.Data? ==> reader.Valid()
      invariant chunk.Data? && chunk.bytes == [] ==> reader.position == |file| && reader.pending == []
      decreases if chunk.ReadError? then 0 else 1 + |codec.inflate(file).data| - reader.decoder.produced,
                if chunk.Data? && chunk.bytes != [] then 1 else 0
    {
      if consumed + reader.bytes > maximum || decoded + reader.decodedBytes > decodedMaximum {
        return None;
      }
      chunk := reader.Read(CHUNK);
    }
    if chunk.ReadError? {
      return None;
    }
    var ok := reader.Finish();
    reader.EndOfFile();
    if !ok {
      return None;
    }
    return Some(Entry(reader.digest, reader.decodedDigest));
  }

  method VerifyEvidence(codec: Codec, dir: Directory, expected: map<FileName, Entry>, invocation: string,
        maximum: nat, decodedMaximum: nat)
    returns (ok: bool)
    requires forall name | name in dir :: Bounded(codec, dir[name])
    ensures ok <==>
      && invocation != "" && (forall name | name in EVIDENCE_FILES :: name in expected)
      && maximum > 0 && decodedMaximum > 0 && Accepted(codec, dir, EVIDENCE_FILES, maximum, decodedMaximum)
      && ManifestOf(codec, dir, EVIDENCE_FILES) == expected
  {
    if invocation == "" || exists name | name in EVIDENCE_FILES :: name !in expected {
      return false;
    }
    var files := EvidenceManifest(codec, dir, maximum, decodedMaximum);
    return files.Some? && files.value == expected;
  }

  /* ------------------------------------------------------------------ the event log */

  const NEWLINE: Byte := 10

  function Find(data: Bytes): (end: nat)
    ensures end <= |data| && NEWLINE !in data[..end]
    ensures end < |data| ==> data[end] == NEWLINE
  {
    if data == [] || data[0] == NEWLINE then 0 else 1 + Find(data[1..])
  }

  /** The events of a decoded log: those before the first fault, and whether there was none. */
  function Framed<E>(parse: Bytes -> Option<E>, frames: nat, data: Bytes, count: nat): (r: (seq<E>, bool))
    decreases |data|
  {
    var end := Find(data);
    if end == |data| then ([], data == [])
    else if end + 1 > MAX_EVENT_FRAME || count >= frames then ([], false)
    else
      var event := parse(data[..end]);
      if event.None? then ([], false)
      else
        var rest := Framed(parse, frames, data[end + 1..], count + 1);
        ([event.value] + rest.0, rest.1)
  }

  lemma FindIsFirst(data: Bytes, end: nat)
    requires end <= |data| && NEWLINE !in data[..end] && (end < |data| ==> data[end] == NEWLINE)
    ensures Find(data) == end
  {
  }

  /** A line found in the buffer is the line of the whole log; a long buffer without one is a fault. */
  lemma BufferDecides<E>(parse: Bytes -> Option<E>, frames: nat, pending: Bytes, rest: Bytes, count: nat)
    ensures Find(pending) < |pending| ==> Find(pending + rest) == Find(pending)
    ensures Find(pending) == |pending| && |pending| >= MAX_EVENT_FRAME ==>
      Framed(parse, frames, pending + rest, count) == ([], false)
  {
    var end := Find(pending);
    var all := pending + rest;
    if end < |pending| {
      assert all[..end] == pending[..end];
      FindIsFirst(all, end);
    } else if |pending| >= MAX_EVENT_FRAME {
      var found := Find(all);
    }
  }

  function Joined<E>(events: seq<E>, more: (seq<E>, bool)): (seq<E>, bool) { (events + more.0, more.1) }

  lemma JoinedEmpty<E>(more: (seq<E>, bool))
    ensures Joined([], more) == more
  {
    assert [] + more.0 == more.0;
  }

  lemma JoinedTwice<E>(a: seq<E>, b: seq<E>, more: (seq<E>, bool))
    ensures Joined(a, Joined(b, more)) == Joined(a + b, more)
  {
    assert a + (b + more.0) == a + b + more.0;
  }

  /** One line of the buffer is one step of the framing. */
  lemma FirstLine<E>(parse: Bytes -> Option<E>, frames: nat, pending: Bytes, rest: Bytes, count: nat)
    requires Find(pending) < |pending|
    ensures var end := Find(pending);
      Framed(parse, frames, pending + rest, count) ==
        if end + 1 > MAX_EVENT_FRAME || count >= frames || parse(pending[..end]).None? then ([], false)
        else Joined([parse(pending[..end]).value], Framed(parse, frames, pending[end + 1..] + rest, count + 1))
  {
    var end := Find(pending);
    BufferDecides(parse, frames, pending, rest, count);
    assert (pending + rest)[..end] == pending[..end];
    assert (pending + rest)[end + 1..] == pending[end + 1..] + rest;
  }

  /** The inner loop: every complete line of the buffer; `rest` is what is still to come. */
  method TakeLines<E>(parse: Bytes -> Option<E>, frames: nat, buffer: Bytes, start: nat, ghost rest: Bytes)
    returns (events: seq<E>, pending: Bytes, count: nat, ok: bool)
    ensures ok ==> Framed(parse, frames, buffer + rest, start) == Joined(events, Framed(parse, frames, pending + rest, count))
    ensures ok ==> Find(pending) == |pending|
    ensures !ok ==> Framed(parse, frames, buffer + rest, start) == (events, false)
  {
    events, pending, count := [], buffer, start;
    var end := Find(pending);
    JoinedEmpty(Framed(parse, frames, buffer + rest, start));
    while end < |pending|
      invariant end == Find(pending)
      invariant Framed(parse, frames, buffer + rest, start) == Joined(events, Framed(parse, frames, pending + rest, count))
      decreases |pending|
    {
      FirstLine(parse, frames, pending, rest, count);
      assert events + [] == events;
      if end + 1 > MAX_EVENT_FRAME || count >= frames {
        return events, pending, count, false;
      }
      var event := parse(pending[..end]);
      if event.None? {
        return events, pending, count, false;
      }
      JoinedTwice(events, [event.value], Framed(parse, frames, pending[end + 1..] + rest, count + 1));
      pending, count, events := pending[end + 1..], count + 1, events + [event.value];
      end := Find(pending);
    }
    return events, pending, count, true;
  }

  /** After `seen` bytes: what was yielded, and what the buffer and the rest of the log will yield. */
  ghost predicate Follows<E>(parse: Bytes -> Option<E>, frames: nat, data: Bytes, seen: int, events: seq<E>,
        pending: Bytes, count: nat)
  {
    && 0 <= seen <= |data| && NEWLINE !in pending
    && Joined(events, Framed(parse, frames, pending + data[seen..], count)) == Framed(parse, frames, data, 0)
  }

  method AddChunk<E>(parse: Bytes -> Option<E>, frames: nat, ghost data: Bytes, ghost seen: nat,
                     events: seq<E>, pending: Bytes, count: nat, chunk: Bytes)
    returns (events': seq<E>, pending': Bytes, count': nat, ok: bool)
    requires Follows(parse, frames, data, seen, events, pending, count)
    requires seen + |chunk| <= |data| && chunk == data[seen..seen + |chunk|]
    ensures ok ==> Follows(parse, frames, data, seen + |chunk|, events', pending', count')
    ensures !ok ==> (events', false) == Framed(parse, frames, data, 0)
  {
    var buffer := pending + chunk;
    ghost var rest := data[seen + |chunk|..];
    assert pending + data[seen..] == buffer + rest;
    var taken, left, total, fine := TakeLines(parse, frames, buffer, count, rest);
    JoinedTwice(events, taken, Framed(parse, frames, left + rest, total));
    events', pending', count' := events + taken, left, total;
    assert left[..|left|] == left;
    if !fine {
      return events', pending', count', false;
    }
    BufferDecides(parse, frames, left, rest, total);
    if |left| >= MAX_EVENT_FRAME {
      assert events' + [] == events';
      return events', pending', count', false;
    }
    return events', pending', count', true;
  }

  lemma FollowsFromStart<E>(parse: Bytes -> Option<E>, frames: nat, data: Bytes)
    ensures Follows(parse, frames, data, 0, [], [], 0)
  {
    assert [] + data[0..] == data;
    JoinedEmpty(Framed(parse, frames, data, 0));
  }

  lemma FollowsToEnd<E>(parse: Bytes -> Option<E>, frames: nat, data: Bytes, events: seq<E>, pending: Bytes, count: nat)
    requires Follows(parse, frames, data, |data|, events, pending, count)
    ensures Framed(parse, frames, data, 0) == (events, pending == [])
  {
    assert pending + data[|data|..] == pending;
    FindIsFirst(pending, |pending|);
    assert events + [] == events;
  }

  /** The outer loop: `fine` unless a fault was found; a fault of the framing fixes the outcome. */
  method FollowReader<E>(reader: EvidenceReader, parse: Bytes -> Option<E>, frames: nat)
    returns (events: seq<E>, pending: Bytes, count: nat, fine: bool)
    requires reader.Valid() && reader.decoder.produced == 0
    modifies reader, reader.decoder
    ensures fine ==> reader.Valid() && reader.position == |reader.file| && reader.pending == []
    ensures fine ==> Follows(parse, frames, reader.decoder.Member().data, reader.decoder.produced, events, pending, count)
    ensures reader.Good() && !fine ==> Framed(parse, frames, reader.decoder.Member().data, 0) == (events, false)
  {
    ghost var data := reader.decoder.Member().data;
    events, pending, count, fine := [], [], 0, true;
    ghost var seen := 0;
    var chunk := reader.Read(CHUNK);
    FollowsFromStart(parse, frames, data);
    while chunk.Data? && chunk.bytes != []
      invariant chunk.ReadError? ==> !reader.Good()
      invariant chunk.Data? ==> reader.Delivered(chunk.bytes) && seen == reader.decoder.produced - |chunk.bytes|
      invariant chunk.Data? && chunk.bytes == [] ==> reader.position == |reader.file| && reader.pending == []
      invariant Follows(parse, frames, data, seen, events, pending, count)
      decreases |data| - seen
    {
      events, pending, count, fine := AddChunk(parse, frames, data, seen, events, pending, count, chunk.bytes);
      if !fine {
        return;
      }
      seen := seen + |chunk.bytes|;
      chunk := reader.Read(CHUNK);
    }
    fine := chunk.Data?;
  }

  /** `_events`: whatever the chunks, a closed acceptable file yields the frames of its decoded data. */
  method ReadEvents<E>(codec: Codec, file: Bytes, parse: Bytes -> Option<E>, maximum: nat, decodedMaximum: nat)
    returns (events: seq<E>, ok: bool)
    requires Bounded(codec, file)
    ensures ok ==> Acceptable(codec, file, maximum, decodedMaximum)
    ensures Acceptable(codec, file, maximum, decodedMaximum) ==>
      (events, ok) == Framed(parse, FrameLimit(maximum), codec.inflate(file).data, 0)
  {
    var reader := new EvidenceReader(codec, file, maximum, decodedMaximum);
    var pending, count, fine;
    events, pending, count, fine := FollowReader(reader, parse, FrameLimit(maximum));
    if !fine {
      return events, false;
    }
    var finished := reader.Finish();
    reader.EndOfFile();
    if finished {
      FollowsToEnd(parse, FrameLimit(maximum), codec.inflate(file).data, events, pending, count);
    }
    return events, finished && pending == [];
  }

  /** Framing is the inverse of writing lines: every admissible log is read back in order. */
  lemma {:induction false} FramedLines<E>(parse: Bytes -> Option<E>, frames: nat, bodies: seq<Bytes>, events: seq<E>,
        count: nat)
    requires |bodies| == |events| && count + |bodies| <= frames
    requires forall i | 0 <= i < |bodies| ::
      NEWLINE !in bodies[i] && |bodies[i]| + 1 <= MAX_EVENT_FRAME && parse(bodies[i]) == Some(events[i])
    ensures Framed(parse, frames, Lines(bodies), count) == (events, true)
    decreases |bodies|
  {
    if bodies != [] {
      var data := Lines(bodies);
      assert data[..|bodies[0]|] == bodies[0];
      FindIsFirst(data, |bodies[0]|);
      FramedLines(parse, frames, bodies[1..], events[1..], count + 1);
      assert data[|bodies[0]| + 1..] == Lines(bodies[1..]);
      assert events == [events[0]] + events[1..];
    }
  }

  function Lines(bodies: seq<Bytes>): Bytes {
    if bodies == [] then [] else bodies[0] + [NEWLINE] + Lines(bodies[1..])
  }

  /* ------------------------------------------------------------------ writing, closing, reading back */

  /** The files of the four writers, in the order in which the harness opens them. */
  function FilesOf(ws: seq<Writer>): Directory
    requires |ws| == 4
  {
    map[Stderr := ws[0].stream, Stdout := ws[1].stream, Stdin := ws[2].stream, Events := ws[3].stream]
  }

  ghost predicate ClosedCleanly(b: Budget) {
    |b.writers| == 4 && b.maximum > 0 && b.decodedMaximum > 0 &&
    forall i | 0 <= i < 4 :: b.writers[i].closed && !b.writers[i].broken
  }

  lemma SumsOfFour(codec: Codec, ws: seq<Writer>)
    requires |ws| == 4 && forall i | 0 <= i < 4 :: !ws[i].broken
    ensures StoredSum(ws) == |ws[0].stream| + |ws[1].stream| + |ws[2].stream| + |ws[3].stream|
    ensures DecodedSum(ws) ==
      |Concat(ws[0].records)| + |Concat(ws[1].records)| + |Concat(ws[2].records)| + |Concat(ws[3].records)|
  {
    var a, b, c := ws[..3], ws[..2], ws[..1];
    assert a[..2] == b && b[..1] == c && c[..0] == [];
    assert StoredSum(c) == |ws[0].stream| && DecodedSum(c) == |Concat(ws[0].records)|;
    assert StoredSum(b) == StoredSum(c) + |ws[1].stream| && DecodedSum(b) == DecodedSum(c) + |Concat(ws[1].records)|;
    assert StoredSum(a) == StoredSum(b) + |ws[2].stream| && DecodedSum(a) == DecodedSum(b) + |Concat(ws[2].records)|;
  }

  lemma TotalsOfFour(codec: Codec, dir: Directory)
    requires Stdin in dir && Stdout in dir && Events in dir && Stderr in dir
    ensures StoredTotal(dir, EVIDENCE_FILES) == |dir[Stdin]| + |dir[Stdout]| + |dir[Events]| + |dir[Stderr]|
    ensures DecodedTotal(codec, dir, EVIDENCE_FILES) ==
      |codec.inflate(dir[Stdin]).data| + |codec.inflate(dir[Stdout]).data| +
      |codec.inflate(dir[Events]).data| + |codec.inflate(dir[Stderr]).data|
  {
    var all := EVIDENCE_FILES;
    var a, b, c := all[..3], all[..2], all[..1];
    assert a == [Stdin, Stdout, Events] && b == [Stdin, Stdout] && c == [Stdin];
    assert a[..2] == b && b[..1] == c && c[..0] == [];
    assert StoredTotal(dir, c) == |dir[Stdin]| && DecodedTotal(codec, dir, c) == |codec.inflate(dir[Stdin]).data|;
    assert StoredTotal(dir, b) == StoredTotal(dir, c) + |dir[Stdout]|;
    assert DecodedTotal(codec, dir, b) == DecodedTotal(codec, dir, c) + |codec.inflate(dir[Stdout]).data|;
    assert StoredTotal(dir, a) == StoredTotal(dir, b) + |dir[Events]|;
    assert DecodedTotal(codec, dir, a) == DecodedTotal(codec, dir, b) + |codec.inflate(dir[Events]).data|;
  }

  lemma WriterFileIsWhole(codec: Codec, b: Budget, i: nat)
    requires codec.Lawful() && Inv(codec, b) && ClosedCleanly(b) && i < 4
    ensures codec.inflate(b.writers[i].stream) == Complete(|b.writers[i].stream|, Concat(b.writers[i].records))
    ensures Bounded(codec, b.writers[i].stream)
  {
  }

  lemma TotalsFit(codec: Codec, b: Budget)
    requires codec.Lawful() && Inv(codec, b) && ClosedCleanly(b)
    ensures StoredTotal(FilesOf(b.writers), EVIDENCE_FILES) <= b.maximum
    ensures DecodedTotal(codec, FilesOf(b.writers), EVIDENCE_FILES) <= b.decodedMaximum
  {
    SumsOfFour(codec, b.writers);
    TotalsOfFour(codec, FilesOf(b.writers));
    forall i | 0 <= i < 4
      ensures codec.inflate(b.writers[i].stream).data == Concat(b.writers[i].records)
    {
      WriterFileIsWhole(codec, b, i);
    }
  }

  /** Whatever the writers admitted, the closed files pass the manifest under the same limits, and the
      manifest records the admitted data; so verifying them against that manifest succeeds. */
  lemma ClosedFilesAreAccepted(codec: Codec, b: Budget)
    requires codec.Lawful() && Inv(codec, b) && ClosedCleanly(b)
    ensures Accepted(codec, FilesOf(b.writers), EVIDENCE_FILES, b.maximum, b.decodedMaximum)
    ensures forall i | 0 <= i < 4 ::
      && Bounded(codec, b.writers[i].stream)
      && EntryOf(codec, b.writers[i].stream) == Entry(b.writers[i].stream, Concat(b.writers[i].records))
    ensures ManifestOf(codec, FilesOf(b.writers), EVIDENCE_FILES) ==
      map name | name in FilesOf(b.writers) :: EntryOf(codec, FilesOf(b.writers)[name])
  {
    TotalsFit(codec, b);
    WriterFileIsWhole(codec, b, 0);
    WriterFileIsWhole(codec, b, 1);
    WriterFileIsWhole(codec, b, 2);
    WriterFileIsWhole(codec, b, 3);
  }
}
