/** What the scanner does to a text, told by where its strings are: a literal value behind a credential key is
    replaced, and nothing else is. */
module RedactionFacts {
  import opened TextLines
  import opened Redaction

  /* ------------------------------------------------------------------ strings and spaces */

  /** The inside of a string: no quote and no backslash but in pairs. */
  predicate Inside(x: string)
    decreases |x|
  {
    x == "" || (x[0] == '\\' && |x| >= 2 && Inside(x[2..])) || (x[0] != '\\' && x[0] != '"' && Inside(x[1..]))
  }

  /** A closed string stands between two positions. */
  predicate IsString(t: string, q: nat, e: nat) {
    q + 2 <= e <= |t| && t[q] == '"' && t[e - 1] == '"' && Inside(t[q + 1..e - 1])
  }

  /** A string that is not closed goes to the end of the text; its last character may be a backslash. */
  predicate IsOpenString(t: string, q: nat) {
    q < |t| && t[q] == '"' && (Inside(t[q + 1..]) || (q + 1 < |t| && t[|t| - 1] == '\\' && Inside(t[q + 1..|t| - 1])))
  }

  predicate Spaces(t: string, i: nat, j: nat)
    requires i <= j <= |t|
  {
    forall k | i <= k < j :: IsSpace(t[k])
  }

  /** Spaces, a colon and spaces between two positions, and a quote behind them. */
  predicate LeadsToValue(t: string, e: nat, colon: nat, start: nat) {
    e <= colon < start < |t| && t[colon] == ':' && Spaces(t, e, colon) && Spaces(t, colon + 1, start) && t[start] == '"'
  }

  lemma {:induction false} StringEnds(t: string, i: nat, n: nat)
    requires i <= n < |t| && t[n] == '"' && Inside(t[i..n])
    ensures TokenEnd(t, i) == n + 1
    decreases n - i
  {
    if i < n {
      assert t[i..n][0] == t[i];
      if t[i] == '\\' {
        assert t[i..n][2..] == t[i + 2..n];
        StringEnds(t, i + 2, n);
      } else {
        assert t[i..n][1..] == t[i + 1..n];
        StringEnds(t, i + 1, n);
      }
    }
  }

  lemma {:induction false} OpenStringEnds(t: string, i: nat)
    requires i <= |t|
    requires Inside(t[i..]) || (i < |t| && t[|t| - 1] == '\\' && Inside(t[i..|t| - 1]))
    ensures TokenEnd(t, i) == |t|
    decreases |t| - i
  {
    var n := |t| - 1;
    if i < |t| {
      assert t[i..][0] == t[i] && (i < n ==> t[i..n][0] == t[i]);
      if t[i] == '\\' && i + 1 < |t| {
        assert t[i..][2..] == t[i + 2..] && (i + 2 <= n ==> t[i..n][2..] == t[i + 2..n]);
        OpenStringEnds(t, i + 2);
      } else if t[i] != '\\' {
        assert t[i..][1..] == t[i + 1..] && (i < n ==> t[i..n][1..] == t[i + 1..n]);
        OpenStringEnds(t, i + 1);
      }
    }
  }

  lemma {:induction false} QuoteAt(t: string, i: nat, q: nat)
    requires i <= q <= |t| && '"' !in t[i..q] && (q < |t| ==> t[q] == '"')
    ensures NextQuote(t, i) == q
    decreases q - i
  {
    if i < q {
      assert t[i..q][0] == t[i] && t[i] in t[i..q] && t[i..q][1..] == t[i + 1..q];
      QuoteAt(t, i + 1, q);
    }
  }

  /** A value is found behind a string exactly when one begins there. */
  lemma ValueExactly(t: string, e: nat, start: nat)
    requires e <= |t|
    ensures ValueStart(t, e) == Some(start) <==> exists colon: nat :: LeadsToValue(t, e, colon, start)
  {
    var colon := SkipSpace(t, e);
    if ValueStart(t, e) == Some(start) {
      assert LeadsToValue(t, e, colon, start);
    }
    if exists colon: nat :: LeadsToValue(t, e, colon, start) {
      var found: nat :| LeadsToValue(t, e, found, start);
      assert !IsSpace(':') && !IsSpace('"');
      SkipIs(t, e, found);
      SkipIs(t, found + 1, start);
    }
  }

  /* ------------------------------------------------------------------ what the scanner does */

  lemma NoStringIsKept(t: string, r: Rules)
    requires '"' !in t
    ensures Scan(t, r) == t
  {
    assert t[0..|t|] == t;
    QuoteAt(t, 0, |t|);
  }

  /** The first string of a text and how far the scanner goes with it. */
  lemma FirstString(t: string, q: nat, e: nat)
    requires IsString(t, q, e) && '"' !in t[..q]
    ensures NextQuote(t, 0) == q && TokenEnd(t, q + 1) == e
  {
    assert t[0..q] == t[..q];
    QuoteAt(t, 0, q);
    StringEnds(t, q + 1, e - 1);
  }

  /** A string that is no credential key, or that no string value follows, is kept, and the scan goes on
      behind it. */
  lemma PlainStringIsKept(t: string, q: nat, e: nat, r: Rules)
    requires IsString(t, q, e) && '"' !in t[..q]
    requires !IsKey(r, t[q..e]) || forall colon: nat, start: nat :: !LeadsToValue(t, e, colon, start)
    ensures Scan(t, r) == t[..e] + Scan(t[e..], r)
  {
    FirstString(t, q, e);
    if ValueStart(t, e).Some? {
      ValueExactly(t, e, ValueStart(t, e).value);
    }
  }

  /** What stands for a value in the end. */
  function Shown(value: string, r: Rules): string { if Readable(r, value) then value else MARK }

  lemma ScanGoesOn(t: string, r: Rules, b: Bite)
    requires NextQuote(t, 0) < |t| && NextBite(t, r) == b
    ensures Scan(t, r) == b.output + Scan(t[b.end..], r)
  {
  }

  lemma TakenTogether(t: string, a: nat, b: nat)
    requires a <= b <= |t|
    ensures t[..b] == t[..a] + t[a..b]
  {
  }

  /** What the scanner makes of a pair whose value ends at `v`. */
  lemma PairEnds(t: string, q: nat, e: nat, colon: nat, start: nat, v: nat, r: Rules)
    requires IsString(t, q, e) && '"' !in t[..q] && IsKey(r, t[q..e])
    requires LeadsToValue(t, e, colon, start) && v == TokenEnd(t, start + 1)
    ensures Scan(t, r) == t[..start] + Shown(t[start..v], r) + Scan(t[v..], r)
  {
    FirstString(t, q, e);
    ValueExactly(t, e, start);
    BiteOfPair(t, e, start, v, r);
    TakenTogether(t, start, v);
    ScanGoesOn(t, r, Bite(v, t[..start] + Shown(t[start..v], r)));
  }

  /** A literal value behind a credential key is replaced, a reference stays, what is before it stays, and the
      scan goes on behind the value. */
  lemma PairIsRedacted(t: string, q: nat, e: nat, colon: nat, start: nat, v: nat, r: Rules)
    requires IsString(t, q, e) && '"' !in t[..q] && IsKey(r, t[q..e])
    requires LeadsToValue(t, e, colon, start) && IsString(t, start, v)
    ensures Scan(t, r) == t[..start] + Shown(t[start..v], r) + Scan(t[v..], r)
  {
    StringEnds(t, start + 1, v - 1);
    PairEnds(t, q, e, colon, start, v, r);
  }

  /** The same for a value without a closing quote: it goes to the end of the text. */
  lemma OpenValueIsRedacted(t: string, q: nat, e: nat, colon: nat, start: nat, r: Rules)
    requires IsString(t, q, e) && '"' !in t[..q] && IsKey(r, t[q..e])
    requires LeadsToValue(t, e, colon, start) && IsOpenString(t, start)
    ensures Scan(t, r) == t[..start] + Shown(t[start..], r)
  {
    OpenStringEnds(t, start + 1);
    PairEnds(t, q, e, colon, start, |t|, r);
    NoStringIsKept("", r);
    assert t[start..|t|] == t[start..] && t[|t|..] == "";
    assert t[..start] + Shown(t[start..], r) + "" == t[..start] + Shown(t[start..], r);
  }

  /** A last string without a closing quote is kept. */
  lemma OpenStringIsKept(t: string, q: nat, r: Rules)
    requires IsOpenString(t, q) && '"' !in t[..q]
    ensures Scan(t, r) == t
  {
    assert t[0..q] == t[..q];
    QuoteAt(t, 0, q);
    OpenStringEnds(t, q + 1);
    assert t[|t|..] == "" && t[..|t|] == t;
    NoStringIsKept("", r);
  }

  /** Every text is of one of these forms: without a quote, or with a first string, closed or open. */
  lemma FormsAreAll(t: string) returns (q: nat, e: nat)
    ensures '"' in t ==> q < |t| && '"' !in t[..q] && (IsString(t, q, e) || IsOpenString(t, q))
  {
    q := NextQuote(t, 0);
    assert forall k | 0 <= k < q :: t[..q][k] == t[k];
    if '"' in t {
      e := TokenEnd(t, q + 1);
      StringOrOpen(t, q + 1);
    } else {
      e := 0;
    }
  }

  lemma {:induction false} StringOrOpen(t: string, i: nat)
    requires i <= |t|
    ensures var e := TokenEnd(t, i);
      || (i < e <= |t| && t[e - 1] == '"' && Inside(t[i..e - 1]))
      || (e == |t| && (Inside(t[i..]) || (i < |t| && t[|t| - 1] == '\\' && Inside(t[i..|t| - 1]))))
    decreases |t| - i
  {
    var e, n := TokenEnd(t, i), |t| - 1;
    if i < |t| && t[i] != '"' && !(t[i] == '\\' && i + 1 == |t|) {
      var next := if t[i] == '\\' then i + 2 else i + 1;
      StringOrOpen(t, next);
      assert t[i..][0] == t[i] && t[i..][next - i..] == t[next..];
      if next < e {
        assert t[i..e - 1][0] == t[i] && t[i..e - 1][next - i..] == t[next..e - 1];
      }
      if next <= n {
        assert t[i..n][0] == t[i] && t[i..n][next - i..] == t[next..n];
      }
    }
  }

  /* ------------------------------------------------------------------ references */

  predicate Letter(c: char) { 'a' <= c <= 'z' || 'A' <= c <= 'Z' || c == '_' }

  predicate Variable(name: string) {
    name != "" && Letter(name[0]) && forall i | 0 < i < |name| :: Letter(name[i]) || '0' <= name[i] <= '9'
  }

  lemma Wrapped(s: string, front: string, name: string)
    ensures s == front + name + "}" <==> |s| >= |front| + 1 && s[..|front|] == front && s[|s| - 1] == '}' && s[|front|..|s| - 1] == name
  {
    if |s| >= |front| + 1 {
      assert s == s[..|front|] + s[|front|..|s| - 1] + [s[|s| - 1]];
    }
  }

  /** A reference is the name of a variable in one of two forms, and nothing else. */
  lemma ReferenceExactly(s: string)
    ensures IsReference(s) <==> exists name :: Variable(name) && (s == "${" + name + "}" || s == "{env:" + name + "}")
  {
    forall name
      ensures s == "${" + name + "}" <==> |s| >= 3 && s[..2] == "${" && s[|s| - 1] == '}' && s[2..|s| - 1] == name
      ensures s == "{env:" + name + "}" <==> |s| >= 6 && s[..5] == "{env:" && s[|s| - 1] == '}' && s[5..|s| - 1] == name
    {
      Wrapped(s, "${", name);
      Wrapped(s, "{env:", name);
    }
    assert forall name :: Name(name) <==> Variable(name);
    if IsReference(s) {
      if |s| >= 3 && s[..2] == "${" && s[|s| - 1] == '}' && Name(s[2..|s| - 1]) {
        assert Variable(s[2..|s| - 1]);
      } else {
        assert Variable(s[5..|s| - 1]);
      }
    }
  }
}
