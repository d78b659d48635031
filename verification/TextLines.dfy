/** Splitting a text into lines that keep their terminators, and joining them again. */
module TextLines {
  /** The characters that end a line for `splitlines`. */
  predicate IsBreak(c: char) {
    || '\U{000A}' <= c <= '\U{000D}' || '\U{001C}' <= c <= '\U{001E}'
    || c == '\U{0085}' || c == '\U{2028}' || c == '\U{2029}'
  }

  /** The characters that `strip` removes. */
  predicate IsSpace(c: char) {
    || IsBreak(c) || c == '\t' || c == ' ' || c == '\U{001F}' || c == '\U{00A0}' || c == '\U{1680}'
    || '\U{2000}' <= c <= '\U{200A}' || c == '\U{202F}' || c == '\U{205F}' || c == '\U{3000}'
  }

  /** How a text file is read: a carriage return becomes a line feed, together with one behind it. */
  function ReadText(raw: string): string
    decreases |raw|
  {
    if raw == "" then ""
    else if raw[0] == '\r' then "\n" + ReadText(raw[if |raw| > 1 && raw[1] == '\n' then 2 else 1..])
    else [raw[0]] + ReadText(raw[1..])
  }

  lemma {:induction false} ReadHasNoReturn(raw: string)
    ensures '\r' !in ReadText(raw)
    ensures '\r' !in raw ==> ReadText(raw) == raw
    decreases |raw|
  {
    if raw != "" {
      if raw[0] == '\r' {
        ReadHasNoReturn(raw[if |raw| > 1 && raw[1] == '\n' then 2 else 1..]);
      } else {
        ReadHasNoReturn(raw[1..]);
      }
    }
  }

  /** The end of the first line of a text, from position `i` on. */
  function LineEnd(t: string, i: nat): (n: nat)
    requires i < |t|
    ensures i < n <= |t|
    decreases |t| - i
  {
    if IsBreak(t[i]) then (if t[i] == '\r' && i + 1 < |t| && t[i + 1] == '\n' then i + 2 else i + 1)
    else if i + 1 == |t| then |t|
    else LineEnd(t, i + 1)
  }

  function Split(t: string): seq<string>
    decreases |t|
  {
    if t == "" then [] else [t[..LineEnd(t, 0)]] + Split(t[LineEnd(t, 0)..])
  }

  function Join(lines: seq<string>): string {
    if lines == [] then "" else lines[0] + Join(lines[1..])
  }

  /** One line: a break only at its end, as one character or as a carriage return with a line feed. */
  predicate Line(x: string) {
    x != "" && forall i | 0 <= i < |x| - 1 :: IsBreak(x[i]) ==> i == |x| - 2 && x[i] == '\r' && x[i + 1] == '\n'
  }

  predicate Ended(x: string) { x != "" && IsBreak(x[|x| - 1]) }

  /** A line that stays one line when `rest` follows it. */
  predicate Closes(x: string, rest: string) {
    Ended(x) && !(x[|x| - 1] == '\r' && rest != "" && rest[0] == '\n')
  }

  lemma {:induction false} LineEndAt(t: string, i: nat, n: nat)
    requires i < n <= |t|
    requires forall k | i <= k < n - 1 :: IsBreak(t[k]) ==> k == n - 2 && t[k] == '\r' && t[k + 1] == '\n'
    requires n == |t| || (IsBreak(t[n - 1]) && !(t[n - 1] == '\r' && t[n] == '\n'))
    ensures LineEnd(t, i) == n
    decreases n - i
  {
    if !IsBreak(t[i]) && i + 1 < |t| {
      LineEndAt(t, i + 1, n);
    }
  }

  lemma SplitFirst(x: string, rest: string)
    requires Line(x) && Closes(x, rest)
    ensures Split(x + rest) == [x] + Split(rest)
  {
    LineEndAt(x + rest, 0, |x|);
    assert (x + rest)[..|x|] == x && (x + rest)[|x|..] == rest;
  }

  lemma SplitSingle(x: string)
    requires Line(x)
    ensures Split(x) == [x]
  {
    LineEndAt(x, 0, |x|);
    assert x[..|x|] == x && x[|x|..] == "";
    assert Split("") == [];
  }

  /** Lines as `Split` yields them: only the last may lack a terminator. */
  predicate Lines(lines: seq<string>) {
    && (forall i | 0 <= i < |lines| :: Line(lines[i]))
    && (forall i | 0 < i < |lines| :: Closes(lines[i - 1], lines[i]))
  }

  lemma {:induction false} LineEndIs(t: string, i: nat)
    requires i < |t|
    ensures var n := LineEnd(t, i);
      && (forall k | i <= k < n - 1 :: IsBreak(t[k]) ==> k == n - 2 && t[k] == '\r' && t[k + 1] == '\n')
      && (n == |t| || (IsBreak(t[n - 1]) && !(t[n - 1] == '\r' && t[n] == '\n')))
    decreases |t| - i
  {
    if !IsBreak(t[i]) && i + 1 < |t| {
      LineEndIs(t, i + 1);
    }
  }

  lemma {:induction false} SplitLines(t: string)
    ensures Lines(Split(t)) && Join(Split(t)) == t
    ensures t != "" ==> Split(t) != [] && Split(t)[0][0] == t[0]
    decreases |t|
  {
    if t != "" {
      var n := LineEnd(t, 0);
      LineEndIs(t, 0);
      SplitLines(t[n..]);
      assert Split(t) == [t[..n]] + Split(t[n..]);
      assert Line(t[..n]);
      if n < |t| {
        assert Closes(t[..n], Split(t[n..])[0]);
      }
      assert t == t[..n] + t[n..];
    }
  }

  lemma {:induction false} SplitWithin(t: string)
    ensures forall x, c | x in Split(t) && c in x :: c in t
    decreases |t|
  {
    if t != "" {
      var n := LineEnd(t, 0);
      SplitWithin(t[n..]);
      assert Split(t) == [t[..n]] + Split(t[n..]);
    }
  }

  lemma {:induction false} JoinAppend(a: seq<string>, b: seq<string>)
    ensures Join(a + b) == Join(a) + Join(b)
  {
    if a == [] {
      assert a + b == b;
    } else {
      var tail := a[1..];
      JoinAppend(tail, b);
      assert (a + b)[1..] == tail + b && (a + b)[0] == a[0];
      assert a[0] + (Join(tail) + Join(b)) == (a[0] + Join(tail)) + Join(b);
    }
  }

  lemma LinesTail(lines: seq<string>)
    requires Lines(lines) && lines != []
    ensures Lines(lines[1..]) && (|lines| > 1 ==> Closes(lines[0], lines[1]))
  {
  }

  lemma JoinStarts(lines: seq<string>, rest: string)
    requires lines != [] && lines[0] != ""
    ensures Join(lines) + rest != "" && (Join(lines) + rest)[0] == lines[0][0]
  {
  }

  lemma JoinCons(lines: seq<string>, rest: string)
    requires lines != []
    ensures Join(lines) + rest == lines[0] + (Join(lines[1..]) + rest)
  {
  }

  lemma ConsAppend<T>(lines: seq<T>, split: seq<T>)
    requires lines != []
    ensures [lines[0]] + (lines[1..] + split) == lines + split
  {
  }

  /** Splitting recovers joined lines when what follows cannot join the last of them. */
  lemma {:induction false} SplitJoin(lines: seq<string>, rest: string)
    requires Lines(lines) && (lines == [] || Closes(lines[|lines| - 1], rest))
    ensures Split(Join(lines) + rest) == lines + Split(rest)
  {
    if lines == [] {
      assert Join(lines) + rest == rest;
    } else {
      LinesTail(lines);
      SplitJoin(lines[1..], rest);
      if |lines| > 1 {
        JoinStarts(lines[1..], rest);
      } else {
        assert Join(lines[1..]) + rest == rest;
      }
      JoinCons(lines, rest);
      SplitFirst(lines[0], Join(lines[1..]) + rest);
      ConsAppend(lines, Split(rest));
    }
  }

  /** The whole of the round trip: the last line may lack a terminator. */
  lemma SplitWhole(lines: seq<string>)
    requires Lines(lines)
    ensures Split(Join(lines)) == lines
  {
    if lines != [] {
      var init, last := lines[..|lines| - 1], lines[|lines| - 1];
      assert Lines(init) by {
        assert forall i | 0 < i < |lines| :: Closes(lines[i - 1], lines[i]);
      }
      assert init != [] ==> Closes(init[|init| - 1], last);
      SplitJoin(init, last);
      SplitSingle(last);
      JoinAppend(init, [last]);
      assert init + [last] == lines && Join([last]) == last;
    }
  }
}
