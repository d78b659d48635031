/** Replacing credential values in text that does not parse as JSON but holds JSON strings. */
module Redaction {
  import opened TextLines

  datatype Option<+T> = None | Some(value: T)

  const MARK := "\"[redacted]\""

  /* ------------------------------------------------------------------ JSON string tokens */

  /** The end of the string whose inside begins at `i`: behind its closing quote, or the end of the text. A
      backslash takes the next character with it. */
  function TokenEnd(t: string, i: nat): (e: nat)
    requires i <= |t|
    ensures i <= e <= |t|
    decreases |t| - i
  {
    if i == |t| then i
    else if t[i] == '"' then i + 1
    else if t[i] == '\\' then (if i + 1 == |t| then |t| else TokenEnd(t, i + 2))
    else TokenEnd(t, i + 1)
  }

  predicate Closed(t: string, i: nat)
    requires i <= |t|
    decreases |t| - i
  {
    i < |t| && (t[i] == '"' || (if t[i] == '\\' then i + 1 < |t| && Closed(t, i + 2) else Closed(t, i + 1)))
  }

  /** The next quote at or behind `i`, or the end of the text. */
  function NextQuote(t: string, i: nat): (q: nat)
    requires i <= |t|
    ensures i <= q <= |t| && (q < |t| ==> t[q] == '"') && forall k | i <= k < q :: t[k] != '"'
    decreases |t| - i
  {
    if i == |t| || t[i] == '"' then i else NextQuote(t, i + 1)
  }

  function SkipSpace(t: string, i: nat): (p: nat)
    requires i <= |t|
    ensures i <= p <= |t| && (p < |t| ==> !IsSpace(t[p])) && forall k | i <= k < p :: IsSpace(t[k])
    decreases |t| - i
  {
    if i < |t| && IsSpace(t[i]) then SkipSpace(t, i + 1) else i
  }

  /* ------------------------------------------------------------------ keys and values */

  predicate NameChar(c: char) { 'A' <= c <= 'Z' || 'a' <= c <= 'z' || c == '_' }

  predicate Name(s: string) {
    s != "" && NameChar(s[0]) && forall i | 0 <= i < |s| :: NameChar(s[i]) || '0' <= s[i] <= '9'
  }

  /** A reference to an environment variable: it stays readable. */
  predicate IsReference(s: string) {
    || (|s| >= 3 && s[..2] == "${" && s[|s| - 1] == '}' && Name(s[2..|s| - 1]))
    || (|s| >= 6 && s[..5] == "{env:" && s[|s| - 1] == '}' && Name(s[5..|s| - 1]))
  }

  /** How strings are decoded and which keys hold credentials. */
  datatype Rules = Rules(decode: string -> Option<string>, field: string -> bool)

  ghost predicate Lawful(r: Rules) { r.decode(MARK) == Some("[redacted]") }

  predicate IsKey(r: Rules, token: string) { r.decode(token).Some? && r.field(r.decode(token).value) }

  predicate Readable(r: Rules, token: string) { r.decode(token).Some? && IsReference(r.decode(token).value) }

  /** Where the string value of a key begins that ends at `i`: behind spaces, a colon and spaces. */
  function ValueStart(t: string, i: nat): (s: Option<nat>)
    requires i <= |t|
    ensures s.Some? ==> i < s.value < |t| && t[s.value] == '"' && NextQuote(t, i) == s.value
  {
    var colon := SkipSpace(t, i);
    if colon == |t| || t[colon] != ':' then None
    else
      var start := SkipSpace(t, colon + 1);
      if start == |t| || t[start] != '"' then None
      else
        QuoteIsNext(t, i, start);
        Some(start)
  }

  lemma {:induction false} QuoteIsNext(t: string, i: nat, q: nat)
    requires i <= q < |t| && t[q] == '"' && forall k | i <= k < q :: t[k] != '"'
    ensures NextQuote(t, i) == q
    decreases q - i
  {
  }

  /* ------------------------------------------------------------------ what the scanner computes */

  /** One string and what belongs to it: the text up to the end, and what takes its place. */
  datatype Bite = Bite(end: nat, output: string)

  function NextBite(t: string, r: Rules): (b: Bite)
    requires NextQuote(t, 0) < |t|
    ensures 0 < b.end <= |t|
  {
    var q := NextQuote(t, 0);
    var e := TokenEnd(t, q + 1);
    var start := ValueStart(t, e);
    if !IsKey(r, t[q..e]) || start.None? then Bite(e, t[..e])
    else
      var v := TokenEnd(t, start.value + 1);
      Bite(v, if Readable(r, t[start.value..v]) then t[..v] else t[..start.value] + MARK)
  }

  function Scan(t: string, r: Rules): string
    decreases |t|
  {
    if NextQuote(t, 0) == |t| then t
    else
      var b := NextBite(t, r);
      b.output + Scan(t[b.end..], r)
  }

  /** No key holds a literal value: each is a reference or already redacted. */
  predicate Protected(t: string, r: Rules)
    decreases |t|
  {
    NextQuote(t, 0) == |t| ||
    var b := NextBite(t, r);
    b.output == t[..b.end] && Protected(t[b.end..], r)
  }

  /** Exactly protected texts are left alone. */
  lemma {:induction false} UnchangedWhenProtected(t: string, r: Rules)
    requires Protected(t, r)
    ensures Scan(t, r) == t
    decreases |t|
  {
    if NextQuote(t, 0) < |t| {
      var b := NextBite(t, r);
      UnchangedWhenProtected(t[b.end..], r);
      assert t == t[..b.end] + t[b.end..];
    }
  }

  /* ------------------------------------------------------------------ a second scan */

  lemma {:induction false} SameTokenEnd(t: string, u: string, i: nat, n: nat)
    requires i <= n <= |t| && n <= |u| && t[..n] == u[..n] && TokenEnd(t, i) == n
    requires Closed(t, i)
    ensures TokenEnd(u, i) == n && Closed(u, i)
    decreases n - i
  {
    assert i < n && t[..n][i] == u[..n][i];
    if t[i] != '"' {
      var next := if t[i] == '\\' then i + 2 else i + 1;
      assert TokenEnd(t, i) == TokenEnd(t, next);
      SameTokenEnd(t, u, next, n);
    }
  }

  lemma {:induction false} OpenEndsText(t: string, i: nat)
    requires i <= |t| && !Closed(t, i)
    ensures TokenEnd(t, i) == |t|
    decreases |t| - i
  {
    if i < |t| && !(t[i] == '\\' && i + 1 == |t|) {
      OpenEndsText(t, if t[i] == '\\' then i + 2 else i + 1);
    }
  }

  lemma {:induction false} SkipIs(t: string, i: nat, p: nat)
    requires i <= p <= |t| && (forall k | i <= k < p :: IsSpace(t[k])) && (p < |t| ==> !IsSpace(t[p]))
    ensures SkipSpace(t, i) == p
    decreases p - i
  {
  }

  /** Up to the next quote behind `e` the texts agree, and they agree that there is one. */
  ghost predicate Agree(t: string, u: string, e: nat)
    requires e <= |t|
  {
    var m := NextQuote(t, e);
    m <= |u| && t[..m] == u[..m] && (if m < |t| then m < |u| && u[m] == '"' else u == t)
  }

  lemma SameSkip(t: string, u: string, e: nat, i: nat)
    requires e <= |t| && e <= i <= NextQuote(t, e) && Agree(t, u, e)
    ensures SkipSpace(t, i) == SkipSpace(u, i) <= NextQuote(t, e)
  {
    var m, p := NextQuote(t, e), SkipSpace(t, i);
    assert p <= m;
    assert forall k | 0 <= k < m :: t[..m][k] == u[..m][k];
    SkipIs(u, i, p);
  }

  lemma SameValueStart(t: string, u: string, e: nat)
    requires e <= |t| && Agree(t, u, e)
    ensures e <= |u| && ValueStart(u, e) == ValueStart(t, e)
  {
    var m := NextQuote(t, e);
    SameSkip(t, u, e, e);
    var colon := SkipSpace(t, e);
    assert forall k | 0 <= k < m :: t[..m][k] == u[..m][k];
    if colon < m && t[colon] == ':' {
      SameSkip(t, u, e, colon + 1);
    }
  }

  lemma SamePart(t: string, u: string, n: nat, a: nat, b: nat)
    requires a <= b <= n <= |t| && n <= |u| && t[..n] == u[..n]
    ensures t[a..b] == u[a..b] && t[..b] == u[..b] && (b < n ==> t[b] == u[b])
  {
    assert t[a..b] == t[..n][a..b] && u[a..b] == u[..n][a..b];
    assert t[..b] == t[..n][..b] && u[..b] == u[..n][..b];
    assert b < n ==> t[b] == t[..n][b] && u[b] == u[..n][b];
  }

  lemma SameQuote(t: string, u: string, n: nat)
    requires n <= |t| && n <= |u| && t[..n] == u[..n] && NextQuote(t, 0) < n
    ensures NextQuote(u, 0) == NextQuote(t, 0)
  {
  }

  /** The first token of a text depends on that token alone. */
  lemma SameToken(t: string, u: string, q: nat, e: nat)
    requires q == NextQuote(t, 0) < |t| && e == TokenEnd(t, q + 1)
    requires e <= |u| && t[..e] == u[..e] && (Closed(t, q + 1) || t == u)
    ensures NextQuote(u, 0) == q && q < |u| && TokenEnd(u, q + 1) == e
  {
    SameQuote(t, u, e);
    if Closed(t, q + 1) {
      SameTokenEnd(t, u, q + 1, e);
    }
  }

  lemma {:induction false} NextQuoteShift(t: string, e: nat, i: nat)
    requires e <= i <= |t|
    ensures NextQuote(t, i) == e + NextQuote(t[e..], i - e)
    decreases |t| - i
  {
  }

  /** A scan changes nothing before the first quote, nor that quote. */
  lemma ScanKeepsFront(t: string, r: Rules)
    ensures Agree(t, Scan(t, r), 0)
  {
    var q := NextQuote(t, 0);
    if q < |t| {
      var b := NextBite(t, r);
      assert q < |b.output| && b.output[..q] == t[..q] && b.output[q] == '"';
    }
  }

  lemma AgreeBehind(t: string, w: string, e: nat)
    requires e <= |t| && Agree(t[e..], w, 0)
    ensures Agree(t, t[..e] + w, e)
  {
  }

  lemma EndLeavesNothing(t: string, w: string)
    requires Agree(t[|t|..], w, 0)
    ensures w == "" && t[..|t|] + w == t
  {
  }

  /** No value was found behind the first token: the next scan finds none either. */
  lemma PlainBiteAgain(t: string, w: string, r: Rules)
    requires NextQuote(t, 0) < |t|
    requires var b := NextBite(t, r); b.end == TokenEnd(t, NextQuote(t, 0) + 1) && Agree(t[b.end..], w, 0)
    ensures var b := NextBite(t, r);
      NextQuote(b.output + w, 0) < |b.output + w| && NextBite(b.output + w, r) == Bite(|b.output|, b.output)
  {
    var q, b := NextQuote(t, 0), NextBite(t, r);
    var e := b.end;
    var u := t[..e] + w;
    OutputOfPlain(t, r);
    AgreeBehind(t, w, e);
    if !Closed(t, q + 1) {
      OpenEndsText(t, q + 1);
      EndLeavesNothing(t, w);
    }
    assert t[..e] == u[..e];
    SameToken(t, u, q, e);
    SameValueStart(t, u, e);
    assert u[q..e] == u[..e][q..] == t[q..e];
  }

  lemma OutputOfPlain(t: string, r: Rules)
    requires NextQuote(t, 0) < |t|
    ensures var q := NextQuote(t, 0); var e := TokenEnd(t, q + 1);
      NextBite(t, r).end == e ==> NextBite(t, r).output == t[..e] && (!IsKey(r, t[q..e]) || ValueStart(t, e).None?)
  {
  }

  /** What the scanner reads of a pair: a key token, a value start and a value token. */
  ghost predicate Pair(t: string, e: nat, start: nat, v: nat) {
    NextQuote(t, 0) < |t| && e == TokenEnd(t, NextQuote(t, 0) + 1) && ValueStart(t, e) == Some(start) && v == TokenEnd(t, start + 1)
  }

  lemma KeyIsClosed(t: string, e: nat, start: nat, v: nat)
    requires Pair(t, e, start, v)
    ensures Closed(t, NextQuote(t, 0) + 1) && NextQuote(t, e) == start && NextQuote(t, 0) < e <= start < v <= |t|
  {
    if !Closed(t, NextQuote(t, 0) + 1) {
      OpenEndsText(t, NextQuote(t, 0) + 1);
    }
  }

  /** A text that agrees up to the quote of the value has the same key and a value there. */
  lemma SamePair(t: string, u: string, e: nat, start: nat, v: nat)
    requires Pair(t, e, start, v) && start < |u| && t[..start] == u[..start] && u[start] == '"'
    ensures Pair(u, e, start, TokenEnd(u, start + 1)) && u[NextQuote(u, 0)..e] == t[NextQuote(t, 0)..e]
  {
    KeyIsClosed(t, e, start, v);
    SamePart(t, u, start, NextQuote(t, 0), e);
    SameToken(t, u, NextQuote(t, 0), e);
    SameValueStart(t, u, e);
  }

  lemma BiteOfPair(t: string, e: nat, start: nat, v: nat, r: Rules)
    requires Pair(t, e, start, v) && IsKey(r, t[NextQuote(t, 0)..e])
    ensures NextBite(t, r) == Bite(v, if Readable(r, t[start..v]) then t[..v] else t[..start] + MARK)
  {
  }

  /** The value token of a reference, with anything that may follow it. */
  lemma SameValue(t: string, w: string, start: nat, v: nat)
    requires start < |t| && v == TokenEnd(t, start + 1) && Agree(t[v..], w, 0)
    ensures var u := t[..v] + w;
      TokenEnd(u, start + 1) == v && u[..start] == t[..start] && u[start] == t[start] && u[start..v] == t[start..v] && u[..v] == t[..v]
  {
    var u := t[..v] + w;
    assert u[..v] == t[..v];
    SamePart(t, u, v, start, v);
    SamePart(t, u, v, start, start);
    if Closed(t, start + 1) {
      SameTokenEnd(t, u, start + 1, v);
    } else {
      OpenEndsText(t, start + 1);
      EndLeavesNothing(t, w);
    }
  }

  /** A reference stays a reference. */
  lemma ReferenceBiteAgain(t: string, w: string, r: Rules, e: nat, start: nat, v: nat)
    requires Pair(t, e, start, v) && IsKey(r, t[NextQuote(t, 0)..e]) && Readable(r, t[start..v]) && Agree(t[v..], w, 0)
    ensures var u := t[..v] + w;
      NextQuote(u, 0) < |u| && NextBite(u, r) == Bite(v, t[..v])
  {
    var u := t[..v] + w;
    SameValue(t, w, start, v);
    SamePair(t, u, e, start, v);
    BiteOfPair(u, e, start, v, r);
  }

  lemma {:induction false} TokenRuns(t: string, i: nat, q: nat)
    requires i <= q < |t| && t[q] == '"' && forall k | i <= k < q :: t[k] != '"' && t[k] != '\\'
    ensures TokenEnd(t, i) == q + 1
    decreases q - i
  {
    if i < q {
      TokenRuns(t, i + 1, q);
    }
  }

  /** A quoted text without quotes and escapes inside. */
  predicate Simple(m: string) {
    |m| >= 2 && m[0] == '"' && m[|m| - 1] == '"' && forall k | 0 < k < |m| - 1 :: m[k] != '"' && m[k] != '\\'
  }

  lemma Inserted(front: string, m: string, w: string)
    ensures var u := front + m + w; var n := |front| + |m|;
      u[|front|..n] == m && u[..|front|] == front && u[..n] == front + m
  {
  }

  lemma SimpleToken(u: string, m: string, n: nat)
    requires Simple(m) && n + |m| <= |u| && u[n..n + |m|] == m
    ensures TokenEnd(u, n + 1) == n + |m| && u[n] == '"'
  {
    forall k | n <= k < n + |m|
      ensures u[k] == m[k - n]
    {
      assert u[n..n + |m|][k - n] == u[k];
    }
    TokenRuns(u, n + 1, n + |m| - 1);
  }

  lemma MarkIsNoReference()
    ensures Simple(MARK) && !IsReference("[redacted]")
  {
  }

  /** A redacted value is redacted to itself. */
  lemma RedactedBiteAgain(t: string, w: string, r: Rules, e: nat, start: nat, v: nat)
    requires Lawful(r) && Pair(t, e, start, v) && IsKey(r, t[NextQuote(t, 0)..e])
    ensures var output := t[..start] + MARK;
      NextQuote(output + w, 0) < |output + w| && NextBite(output + w, r) == Bite(|output|, output)
  {
    var m := MARK;
    var u := t[..start] + m + w;
    MarkIsNoReference();
    KeyIsClosed(t, e, start, v);
    Inserted(t[..start], m, w);
    SimpleToken(u, m, start);
    SamePair(t, u, e, start, v);
    BiteOfPair(u, e, start, start + |m|, r);
    assert !Readable(r, m);
  }

  lemma BiteAgain(t: string, w: string, r: Rules)
    requires Lawful(r) && NextQuote(t, 0) < |t| && Agree(t[NextBite(t, r).end..], w, 0)
    ensures var b := NextBite(t, r);
      NextQuote(b.output + w, 0) < |b.output + w| && NextBite(b.output + w, r) == Bite(|b.output|, b.output)
  {
    var q, b := NextQuote(t, 0), NextBite(t, r);
    var e := TokenEnd(t, q + 1);
    var start := ValueStart(t, e);
    if !IsKey(r, t[q..e]) || start.None? {
      PlainBiteAgain(t, w, r);
    } else {
      var v := TokenEnd(t, start.value + 1);
      BiteOfPair(t, e, start.value, v, r);
      if Readable(r, t[start.value..v]) {
        ReferenceBiteAgain(t, w, r, e, start.value, v);
      } else {
        RedactedBiteAgain(t, w, r, e, start.value, v);
      }
    }
  }

  /** What a scan leaves holds no literal value behind a key. */
  lemma {:induction false} ScanProtects(t: string, r: Rules)
    requires Lawful(r)
    ensures Protected(Scan(t, r), r)
    decreases |t|
  {
    if NextQuote(t, 0) < |t| {
      var b := NextBite(t, r);
      var rest := t[b.end..];
      var w := Scan(rest, r);
      ScanProtects(rest, r);
      ScanKeepsFront(rest, r);
      BiteAgain(t, w, r);
      var u := b.output + w;
      assert u[..|b.output|] == b.output && u[|b.output|..] == w;
    }
  }

  /** Scanning again changes nothing. */
  lemma ScanTwice(t: string, r: Rules)
    requires Lawful(r)
    ensures Scan(Scan(t, r), r) == Scan(t, r)
  {
    ScanProtects(t, r);
    UnchangedWhenProtected(Scan(t, r), r);
  }

  /* ------------------------------------------------------------------ the loop */

  /** A key token and the value token behind it. */
  datatype Found = Found(key: nat, keyEnd: nat, start: nat, end: nat)

  /** A literal value: the string behind a key that holds a credential, when it is no reference. */
  ghost predicate Literal(t: string, r: Rules, f: Found) {
    && f.key < f.keyEnd <= f.start < f.end <= |t| && t[f.key] == '"' && TokenEnd(t, f.key + 1) == f.keyEnd
    && IsKey(r, t[f.key..f.keyEnd]) && ValueStart(t, f.keyEnd) == Some(f.start)
    && TokenEnd(t, f.start + 1) == f.end && !Readable(r, t[f.start..f.end])
  }

  function EndOf(spans: seq<Found>): nat { if spans == [] then 0 else spans[|spans| - 1].end }

  predicate Ordered(spans: seq<Found>, n: nat) {
    spans == [] ||
    var init, last := spans[..|spans| - 1], spans[|spans| - 1];
    EndOf(init) <= last.start < last.end <= n && Ordered(init, n)
  }

  /** The text up to the last span, with the mark for each span. */
  function Spliced(t: string, spans: seq<Found>): string
    requires Ordered(spans, |t|)
  {
    if spans == [] then ""
    else
      var init, last := spans[..|spans| - 1], spans[|spans| - 1];
      Spliced(t, init) + t[EndOf(init)..last.start] + MARK
  }

  lemma {:induction false} TokenEndShift(t: string, n: nat, i: nat)
    requires n <= i <= |t|
    ensures TokenEnd(t, i) == n + TokenEnd(t[n..], i - n)
    decreases |t| - i
  {
    if i < |t| && t[i] != '"' && !(t[i] == '\\' && i + 1 == |t|) {
      TokenEndShift(t, n, if t[i] == '\\' then i + 2 else i + 1);
    }
  }

  lemma ValueShift(t: string, n: nat, i: nat)
    requires n <= i <= |t|
    ensures ValueStart(t, i).Some? <==> ValueStart(t[n..], i - n).Some?
    ensures ValueStart(t, i).Some? ==> ValueStart(t, i).value == n + ValueStart(t[n..], i - n).value
  {
  }

  lemma PartShift(t: string, n: nat, a: nat, b: nat)
    requires n <= a <= b <= |t|
    ensures t[n..][a - n..b - n] == t[a..b]
  {
  }

  lemma BiteOfPlain(t: string, q: nat, e: nat, r: Rules)
    requires NextQuote(t, 0) == q < |t| && e == TokenEnd(t, q + 1) && (!IsKey(r, t[q..e]) || ValueStart(t, e).None?)
    ensures NextBite(t, r) == Bite(e, t[..e])
  {
  }

  /** The next bite of what is left, in positions of the whole text. */
  lemma PlainBiteAt(t: string, n: nat, r: Rules, q: nat, e: nat)
    requires n <= |t| && NextQuote(t, n) == q < |t| && e == TokenEnd(t, q + 1)
    requires !IsKey(r, t[q..e]) || ValueStart(t, e).None?
    ensures NextQuote(t[n..], 0) < |t[n..]| && NextBite(t[n..], r) == Bite(e - n, t[n..e])
  {
    NextQuoteShift(t, n, n);
    TokenEndShift(t, n, q + 1);
    ValueShift(t, n, e);
    PartShift(t, n, q, e);
    PartShift(t, n, n, e);
    BiteOfPlain(t[n..], q - n, e - n, r);
  }

  lemma PairAt(t: string, n: nat, q: nat, e: nat, s: nat, v: nat)
    requires n <= |t| && NextQuote(t, n) == q < |t| && e == TokenEnd(t, q + 1)
    requires ValueStart(t, e) == Some(s) && v == TokenEnd(t, s + 1)
    ensures Pair(t[n..], e - n, s - n, v - n) && NextQuote(t[n..], 0) == q - n
  {
    NextQuoteShift(t, n, n);
    TokenEndShift(t, n, q + 1);
    ValueShift(t, n, e);
    TokenEndShift(t, n, s + 1);
    var u := t[n..];
    assert NextQuote(u, 0) == q - n && TokenEnd(u, q - n + 1) == e - n;
    assert ValueStart(u, e - n) == Some(s - n) && TokenEnd(u, s - n + 1) == v - n;
  }

  lemma BiteOfParts(t: string, e: nat, start: nat, v: nat, r: Rules, key: string, value: string, upTo: string, front: string)
    requires Pair(t, e, start, v) && t[NextQuote(t, 0)..e] == key && IsKey(r, key)
    requires start < v <= |t| && t[start..v] == value && t[..v] == upTo && t[..start] == front
    ensures NextBite(t, r) == Bite(v, if Readable(r, value) then upTo else front + MARK)
  {
    BiteOfPair(t, e, start, v, r);
  }

  lemma PairBiteAt(t: string, n: nat, r: Rules, q: nat, e: nat, s: nat, v: nat)
    requires n <= |t| && NextQuote(t, n) == q < |t| && e == TokenEnd(t, q + 1)
    requires ValueStart(t, e) == Some(s) && v == TokenEnd(t, s + 1) && IsKey(r, t[q..e])
    ensures NextQuote(t[n..], 0) < |t[n..]|
    ensures NextBite(t[n..], r) == Bite(v - n, if Readable(r, t[s..v]) then t[n..v] else t[n..s] + MARK)
  {
    PairAt(t, n, q, e, s, v);
    PartShift(t, n, q, e);
    PartShift(t, n, s, v);
    PartShift(t, n, n, v);
    PartShift(t, n, n, s);
    BiteOfParts(t[n..], e - n, s - n, v - n, r, t[q..e], t[s..v], t[n..v], t[n..s]);
  }

  /** What is written, what is read but not yet written, and the scan of the rest. */
  ghost predicate Progress(t: string, r: Rules, parts: string, cursor: nat, next: nat) {
    cursor <= next <= |t| && parts + t[cursor..next] + Scan(t[next..], r) == Scan(t, r)
  }

  lemma ScanBite(t: string, n: nat, r: Rules, end: nat, output: string)
    requires n <= |t| && NextQuote(t[n..], 0) < |t[n..]| && n <= end <= |t| && NextBite(t[n..], r) == Bite(end - n, output)
    ensures Scan(t[n..], r) == output + Scan(t[end..], r)
  {
    assert t[n..][end - n..] == t[end..];
  }

  lemma JoinParts(t: string, parts: string, cursor: nat, next: nat, end: nat, w: string)
    requires cursor <= next <= end <= |t|
    ensures parts + t[cursor..next] + (t[next..end] + w) == parts + t[cursor..end] + w
  {
  }

  lemma Advance(t: string, r: Rules, parts: string, cursor: nat, next: nat, end: nat)
    requires Progress(t, r, parts, cursor, next) && next <= end <= |t|
    requires NextQuote(t[next..], 0) < |t[next..]| && NextBite(t[next..], r) == Bite(end - next, t[next..end])
    ensures Progress(t, r, parts, cursor, end)
  {
    ScanBite(t, next, r, end, t[next..end]);
    JoinParts(t, parts, cursor, next, end, Scan(t[end..], r));
  }

  lemma JoinMark(t: string, parts: string, cursor: nat, next: nat, s: nat, v: nat, mark: string, w: string)
    requires cursor <= next <= s <= v <= |t|
    ensures parts + t[cursor..next] + ((t[next..s] + mark) + w) == (parts + t[cursor..s] + mark) + t[v..v] + w
  {
  }

  lemma Replace(t: string, r: Rules, parts: string, cursor: nat, next: nat, s: nat, v: nat)
    requires Progress(t, r, parts, cursor, next) && next <= s <= v <= |t|
    requires NextQuote(t[next..], 0) < |t[next..]| && NextBite(t[next..], r) == Bite(v - next, t[next..s] + MARK)
    ensures Progress(t, r, parts + t[cursor..s] + MARK, v, v)
  {
    ScanBite(t, next, r, v, t[next..s] + MARK);
    JoinMark(t, parts, cursor, next, s, v, MARK, Scan(t[v..], r));
  }

  lemma Finish(t: string, r: Rules, parts: string, cursor: nat, next: nat)
    requires Progress(t, r, parts, cursor, next) && NextQuote(t, next) == |t|
    ensures parts + t[cursor..] == Scan(t, r)
  {
    NextQuoteShift(t, next, next);
    assert t[cursor..next] + t[next..] == t[cursor..];
    assert parts + t[cursor..next] + t[next..] == parts + t[cursor..];
  }

  lemma SpliceMore(t: string, spans: seq<Found>, f: Found)
    requires Ordered(spans, |t|) && EndOf(spans) <= f.start < f.end <= |t|
    ensures var more := spans + [f];
      Ordered(more, |t|) && EndOf(more) == f.end && Spliced(t, more) == Spliced(t, spans) + t[EndOf(spans)..f.start] + MARK
  {
  }

  ghost predicate AllLiteral(t: string, r: Rules, spans: seq<Found>) { forall f | f in spans :: Literal(t, r, f) }

  lemma LiteralMore(t: string, r: Rules, spans: seq<Found>, q: nat, e: nat, s: nat, v: nat)
    requires AllLiteral(t, r, spans)
    requires q < e <= s < v <= |t| && t[q] == '"' && TokenEnd(t, q + 1) == e && ValueStart(t, e) == Some(s) && TokenEnd(t, s + 1) == v
    requires IsKey(r, t[q..e]) && !Readable(r, t[s..v])
    ensures AllLiteral(t, r, spans + [Found(q, e, s, v)])
  {
  }

  /** The scanner: only literal values are replaced, everything else is kept in order. The token behind a
      value's quote always exists and begins at that quote. */
  method RedactStrings(text: string, r: Rules) returns (out: string, ghost spans: seq<Found>)
    ensures out == Scan(text, r)
    ensures Ordered(spans, |text|) && out == Spliced(text, spans) + text[EndOf(spans)..]
    ensures AllLiteral(text, r, spans)
  {
    var parts, cursor, next := "", 0, 0;
    spans := [];
    while NextQuote(text, next) < |text|
      invariant Progress(text, r, parts, cursor, next)
      invariant Ordered(spans, |text|) && EndOf(spans) == cursor && parts == Spliced(text, spans)
      invariant AllLiteral(text, r, spans)
      decreases |text| - next
    {
      var q := NextQuote(text, next);
      var e := TokenEnd(text, q + 1);
      var start := ValueStart(text, e);
      if start.None? || !IsKey(r, text[q..e]) {
        PlainBiteAt(text, next, r, q, e);
        Advance(text, r, parts, cursor, next, e);
        next := e;
        continue;
      }
      var value := NextQuote(text, e);
      assert value == start.value;
      var v := TokenEnd(text, value + 1);
      PairBiteAt(text, next, r, q, e, value, v);
      if Readable(r, text[value..v]) {
        Advance(text, r, parts, cursor, next, v);
        next := v;
        continue;
      }
      Replace(text, r, parts, cursor, next, value, v);
      LiteralMore(text, r, spans, q, e, value, v);
      SpliceMore(text, spans, Found(q, e, value, v));
      spans := spans + [Found(q, e, value, v)];
      parts := parts + text[cursor..value] + MARK;
      cursor, next := v, v;
    }
    Finish(text, r, parts, cursor, next);
    out := parts + text[cursor..];
  }
}
