/** Rewriting the tables a program owns in a configuration file, and nothing else. */
module TomlTables {
  import opened TextLines
  import opened LineTables

  /* ------------------------------------------------------------------ what a rewriting does */

  /** The kinds of lines: headers of any table, headers of the owned tables, and blank lines. */
  datatype Kinds = Kinds(head: string -> bool, owned: string -> bool, blank: string -> bool)

  function TrimBlank(lines: seq<string>, blank: string -> bool): seq<string> {
    if lines != [] && blank(lines[|lines| - 1]) then TrimBlank(lines[..|lines| - 1], blank) else lines
  }

  predicate EndsLine(x: string) { x != "" && (x[|x| - 1] == '\n' || x[|x| - 1] == '\r') }

  function EndLast(lines: seq<string>): seq<string> {
    if lines == [] || EndsLine(lines[|lines| - 1]) then lines
    else lines[..|lines| - 1] + [lines[|lines| - 1] + "\n"]
  }

  /** What remains without the owned tables and without blank lines at the end. */
  function Remaining(text: string, k: Kinds): seq<string> {
    TrimBlank(Kept(Split(text), k.head, k.owned), k.blank)
  }

  /** The remaining lines, an empty line, and the rendered tables. */
  function Placed(base: seq<string>, rendered: seq<string>): seq<string> {
    base + (if rendered == [] then [] else if base == [] then rendered else ["\n"] + rendered)
  }

  /** The text whose owned tables are replaced by `rendered`. */
  function Rewritten(text: string, k: Kinds, rendered: seq<string>): string {
    Join(Placed(EndLast(Remaining(text, k)), rendered))
  }

  method Rewrite(text: string, k: Kinds, rendered: seq<string>) returns (r: string)
    requires Headers(k.head, k.owned)
    ensures r == Rewritten(text, k, rendered)
  {
    var lines := DeleteTables(Split(text), k.head, k.owned);
    ghost var kept := lines;
    while lines != [] && k.blank(lines[|lines| - 1])
      invariant TrimBlank(lines, k.blank) == TrimBlank(kept, k.blank)
      decreases |lines|
    {
      lines := lines[..|lines| - 1];
    }
    if lines != [] && !EndsLine(lines[|lines| - 1]) {
      lines := lines[..|lines| - 1] + [lines[|lines| - 1] + "\n"];
    }
    if rendered != [] {
      if lines != [] {
        lines := lines + ["\n"];
      }
      lines := lines + rendered;
    }
    assert lines == Placed(EndLast(TrimBlank(kept, k.blank)), rendered);
    r := Join(lines);
  }

  /* ------------------------------------------------------------------ lines that remain */

  /** What is used of the kinds of lines: a line feed behind a line without one changes nothing. */
  ghost predicate Lawful(k: Kinds) {
    && (forall x :: k.owned(x) ==> k.head(x))
    && (forall x :: k.head(x) ==> !k.blank(x))
    && k.blank("\n")
    && (forall x: string | '\n' !in x :: k.head(x + "\n") == k.head(x) && k.owned(x + "\n") == k.owned(x) && k.blank(x + "\n") == k.blank(x))
  }

  lemma {:induction false} FilterLines(lines: seq<string>, k: Kinds, want: string -> bool, on: bool)
    requires Lawful(k) && Lines(lines)
    ensures var f := Filter(lines, k.head, want, on);
      Lines(f) && (f != [] ==> (k.head(f[0]) || (on && f[0] == lines[0])) && f[0] in lines)
  {
    if lines != [] {
      var now := if k.head(lines[0]) then want(lines[0]) else on;
      var rest := Filter(lines[1..], k.head, want, now);
      LinesTail(lines);
      FilterLines(lines[1..], k, want, now);
      if rest != [] {
        assert Line(rest[0]);
        assert rest[0][0] == '\n' ==> rest[0] == "\n";
        assert Closes(lines[0], rest[0]);
      }
      if now {
        LinesCons(lines[0], rest);
      } else {
        assert Filter(lines, k.head, want, on) == rest;
      }
    }
  }

  lemma LinesCons(x: string, rest: seq<string>)
    requires Line(x) && Lines(rest) && (rest != [] ==> Closes(x, rest[0]))
    ensures Lines([x] + rest)
  {
  }

  lemma {:induction false} FilterWants(lines: seq<string>, head: string -> bool, want: string -> bool, on: bool)
    ensures forall x | x in Filter(lines, head, want, on) && head(x) :: want(x)
  {
    if lines != [] {
      FilterWants(lines[1..], head, want, if head(lines[0]) then want(lines[0]) else on);
    }
  }

  lemma {:induction false} TrimIsPrefix(lines: seq<string>, blank: string -> bool)
    ensures var t := TrimBlank(lines, blank);
      t <= lines && (forall i | |t| <= i < |lines| :: blank(lines[i])) && (t != [] ==> !blank(t[|t| - 1]))
  {
    if lines != [] && blank(lines[|lines| - 1]) {
      TrimIsPrefix(lines[..|lines| - 1], blank);
    }
  }

  /** The remaining lines are lines, own no header, do not end with a blank one, and hold no carriage return. */
  ghost predicate Clean(base: seq<string>, k: Kinds) {
    && Lines(base) && (forall x | x in base :: !k.owned(x)) && (base != [] ==> !k.blank(base[|base| - 1]))
    && forall x | x in base :: '\r' !in x
  }

  lemma LinesPrefix(lines: seq<string>, n: nat)
    requires Lines(lines) && n <= |lines|
    ensures Lines(lines[..n])
  {
  }

  lemma {:induction false} FilterWithin(lines: seq<string>, head: string -> bool, want: string -> bool, on: bool)
    ensures forall x | x in Filter(lines, head, want, on) :: x in lines
  {
    if lines != [] {
      FilterWithin(lines[1..], head, want, if head(lines[0]) then want(lines[0]) else on);
    }
  }

  lemma RemainingIsClean(text: string, k: Kinds)
    requires Lawful(k) && '\r' !in text
    ensures Clean(Remaining(text, k), k)
  {
    var kept := Kept(Split(text), k.head, k.owned);
    SplitLines(text);
    SplitWithin(text);
    FilterWithin(Split(text), k.head, Not(k.owned), true);
    FilterLines(Split(text), k, Not(k.owned), true);
    FilterWants(Split(text), k.head, Not(k.owned), true);
    TrimIsPrefix(kept, k.blank);
    var base := Remaining(text, k);
    LinesPrefix(kept, |base|);
    assert base == kept[..|base|];
    forall x | x in base
      ensures !k.owned(x) && '\r' !in x
    {
      assert x in kept && (k.head(x) ==> Not(k.owned)(x));
    }
  }

  /* ------------------------------------------------------------------ reading the result back */

  /** The lines the remaining part has in the new text, with the line feed that ends it. */
  function Padded(base: seq<string>): seq<string> {
    if base == [] || EndsLine(base[|base| - 1]) then base
    else if Ended(base[|base| - 1]) then base + ["\n"]
    else base[..|base| - 1] + [base[|base| - 1] + "\n"]
  }

  predicate EndsWith(lines: seq<string>, c: char) {
    lines != [] && var last := lines[|lines| - 1]; last != "" && last[|last| - 1] == c
  }

  lemma JoinLast(init: seq<string>, x: string, y: string)
    ensures Join(init + [x + y]) == Join(init) + x + y && Join(init + [x] + [y]) == Join(init) + x + y
  {
    JoinAppend(init, [x + y]);
    JoinAppend(init + [x], [y]);
    JoinAppend(init, [x]);
    assert Join([x + y]) == x + y && Join([x]) == x && Join([y]) == y;
  }

  lemma PaddedJoins(base: seq<string>)
    ensures Join(Padded(base)) == Join(EndLast(base))
  {
    if base != [] && !EndsLine(base[|base| - 1]) {
      var init, last := base[..|base| - 1], base[|base| - 1];
      assert base == init + [last];
      JoinLast(init, last, "\n");
    }
  }

  lemma LinesAppend(a: seq<string>, x: string)
    requires Lines(a) && Line(x) && (a != [] ==> Closes(a[|a| - 1], x))
    ensures Lines(a + [x])
  {
  }

  /** A line that does not end with a line feed holds none. */
  lemma NoFeedInside(x: string)
    requires Line(x) && x[|x| - 1] != '\n'
    ensures '\n' !in x
  {
  }

  /** A line feed behind the last line, when that has none. */
  lemma FeedKeepsLines(base: seq<string>, k: Kinds)
    requires Lawful(k) && Clean(base, k) && base != [] && !Ended(base[|base| - 1])
    ensures var fed := base[..|base| - 1] + [base[|base| - 1] + "\n"];
      Lines(fed) && forall x | x in fed :: !k.owned(x)
  {
  }

  lemma PaddedIsClean(base: seq<string>, k: Kinds)
    requires Lawful(k) && Clean(base, k)
    ensures Lines(Padded(base)) && forall x | x in Padded(base) :: !k.owned(x)
    ensures base != [] ==> EndsWith(Padded(base), '\n')
  {
    assert base != [] ==> base[|base| - 1][|base[|base| - 1]| - 1] in base[|base| - 1];
    if base != [] && !EndsLine(base[|base| - 1]) {
      if Ended(base[|base| - 1]) {
        LinesAppend(base, "\n");
        assert !k.head("\n");
      } else {
        FeedKeepsLines(base, k);
      }
    }
  }

  /* ------------------------------------------------------------------ rewriting twice */

  /** The rendered text begins with an owned header. */
  ghost predicate Rendering(rendered: seq<string>, k: Kinds) {
    rendered != [] ==> Split(Join(rendered)) != [] && k.owned(Split(Join(rendered))[0])
  }

  /** Read back as lines, the rendered text has no header but owned ones. */
  ghost predicate Contained(rendered: seq<string>, k: Kinds) {
    forall x | x in Split(Join(rendered)) && k.head(x) :: k.owned(x)
  }

  /** The lines in front of the rendered tables, as the next rewriting reads them. */
  function Front(base: seq<string>): seq<string> { Padded(base) + ["\n"] }

  lemma FrontJoins(base: seq<string>)
    requires base != []
    ensures Join(Front(base)) == Join(EndLast(base)) + "\n"
  {
    PaddedJoins(base);
    JoinAppend(Padded(base), ["\n"]);
    assert Join(["\n"]) == "\n";
  }

  lemma FrontIsClean(base: seq<string>, k: Kinds)
    requires Lawful(k) && Clean(base, k) && base != []
    ensures Lines(Front(base)) && EndsWith(Front(base), '\n') && forall x | x in Front(base) :: !k.owned(x)
  {
    PaddedIsClean(base, k);
    LinesAppend(Padded(base), "\n");
    assert !k.head("\n");
  }

  lemma JoinThree(a: seq<string>, b: seq<string>)
    ensures Join(a + (["\n"] + b)) == Join(a) + "\n" + Join(b)
  {
    JoinAppend(a, ["\n"] + b);
    JoinAppend(["\n"], b);
    assert Join(["\n"]) == "\n";
  }

  lemma PlacedJoins(base: seq<string>, rendered: seq<string>)
    requires base != [] && rendered != []
    ensures Join(Placed(EndLast(base), rendered)) == Join(Front(base)) + Join(rendered)
  {
    FrontJoins(base);
    JoinThree(EndLast(base), rendered);
  }

  /** What the next rewriting reads. */
  lemma ReadBack(base: seq<string>, rendered: seq<string>, k: Kinds)
    requires Lawful(k) && Clean(base, k) && base != [] && rendered != []
    ensures Split(Join(Placed(EndLast(base), rendered))) == Front(base) + Split(Join(rendered))
  {
    FrontIsClean(base, k);
    PlacedJoins(base, rendered);
    SplitJoin(Front(base), Join(rendered));
  }

  /** Of the rendered lines nothing remains exactly when they are contained. */
  lemma RenderedVanishes(lines: seq<string>, k: Kinds)
    requires Lawful(k) && (lines != [] ==> k.owned(lines[0]))
    ensures (forall x | x in lines && k.head(x) :: k.owned(x)) ==> Kept(lines, k.head, k.owned) == []
    ensures !(forall x | x in lines && k.head(x) :: k.owned(x)) ==> exists x :: x in Kept(lines, k.head, k.owned) && k.head(x)
  {
    if lines != [] {
      FilterAtHeader(lines, k.head, Not(k.owned), true);
      if forall x | x in lines && k.head(x) :: k.owned(x) {
        FilterAppend(lines, [], k.head, Not(k.owned), false);
        assert lines + [] == lines;
      } else {
        var x :| x in lines && k.head(x) && !k.owned(x);
        FilterHolds(lines, k.head, Not(k.owned), true, x);
      }
    }
  }

  lemma {:induction false} FilterHolds(lines: seq<string>, head: string -> bool, want: string -> bool, on: bool, x: string)
    requires x in lines && head(x) && want(x)
    ensures x in Filter(lines, head, want, on)
  {
    if lines[0] != x {
      FilterHolds(lines[1..], head, want, if head(lines[0]) then want(lines[0]) else on, x);
    }
  }

  lemma KeptBehindFront(front: seq<string>, behind: seq<string>, k: Kinds)
    requires Lawful(k) && forall x | x in front :: !k.owned(x)
    ensures Kept(front + behind, k.head, k.owned) == front + Kept(behind, k.head, k.owned)
  {
    FilterAppend(front, behind, k.head, Not(k.owned), true);
  }

  lemma {:induction false} TrimOfNonblank(front: seq<string>, behind: seq<string>, blank: string -> bool)
    requires exists x :: x in behind && !blank(x)
    ensures TrimBlank(front + behind, blank) == front + TrimBlank(behind, blank) && TrimBlank(behind, blank) != []
    decreases |behind|
  {
    if blank(behind[|behind| - 1]) {
      var init := behind[..|behind| - 1];
      assert (front + behind)[..|front + behind| - 1] == front + init;
      var x :| x in behind && !blank(x);
      assert x in init;
      TrimOfNonblank(front, init, blank);
    }
  }

  lemma {:induction false} TrimOfBlank(front: seq<string>, blank: string -> bool)
    ensures blank("\n") ==> TrimBlank(front + ["\n"], blank) == TrimBlank(front, blank)
  {
  }

  lemma EndLastGrows(lines: seq<string>)
    ensures |Join(EndLast(lines))| >= |Join(lines)|
  {
    if lines != [] && !EndsLine(lines[|lines| - 1]) {
      var init, last := lines[..|lines| - 1], lines[|lines| - 1];
      assert lines == init + [last];
      JoinLast(init, last, "\n");
      JoinAppend(init, [last]);
      assert Join([last]) == last;
    }
  }

  /** A clean base keeps its text when its line feed is trimmed and added again. */
  lemma PaddedTrimmed(base: seq<string>, k: Kinds)
    requires Lawful(k) && Clean(base, k)
    ensures var again := TrimBlank(Padded(base), k.blank);
      (base != [] ==> again != []) && Join(EndLast(again)) == Join(EndLast(base))
  {
    if base != [] {
      var last := base[|base| - 1];
      assert TrimBlank(base, k.blank) == base;
      if !EndsLine(last) && Ended(last) {
        TrimOfBlank(base, k.blank);
      } else if !EndsLine(last) {
        NoFeedInside(last);
        PaddedJoins(base);
        assert TrimBlank(Padded(base), k.blank) == Padded(base) == EndLast(Padded(base));
      }
    }
  }

  /** A clean base that gets its line feed and an empty line loses the latter again. */
  lemma FrontTrimmed(base: seq<string>, k: Kinds)
    requires Lawful(k) && Clean(base, k) && base != []
    ensures var again := TrimBlank(Front(base), k.blank);
      again != [] && Join(EndLast(again)) == Join(EndLast(base))
  {
    TrimOfBlank(Padded(base), k.blank);
    PaddedTrimmed(base, k);
  }

  /** The base the second rewriting finds, when nothing of the rendered text remains in it. */
  lemma SecondBase(base: seq<string>, lines: seq<string>, k: Kinds)
    requires Lawful(k) && Clean(base, k) && base != [] && Kept(lines, k.head, k.owned) == []
    ensures TrimBlank(Kept(Front(base) + lines, k.head, k.owned), k.blank) == TrimBlank(Front(base), k.blank)
  {
    FrontIsClean(base, k);
    KeptBehindFront(Front(base), lines, k);
    assert Front(base) + [] == Front(base);
  }

  /** It is longer when something remains. */
  lemma SecondBaseGrows(base: seq<string>, lines: seq<string>, k: Kinds)
    requires Lawful(k) && Clean(base, k) && base != []
    requires exists x :: x in Kept(lines, k.head, k.owned) && k.head(x)
    ensures var again := TrimBlank(Kept(Front(base) + lines, k.head, k.owned), k.blank);
      again != [] && |Join(EndLast(again))| > |Join(EndLast(base))|
  {
    FrontIsClean(base, k);
    KeptBehindFront(Front(base), lines, k);
    var behind := Kept(lines, k.head, k.owned);
    TrimOfNonblank(Front(base), behind, k.blank);
    JoinAppend(Front(base), TrimBlank(behind, k.blank));
    FrontJoins(base);
    EndLastGrows(Front(base) + TrimBlank(behind, k.blank));
  }

  lemma PlacedLength(base: seq<string>, rendered: seq<string>)
    requires base != [] && rendered != []
    ensures |Join(Placed(base, rendered))| == |Join(base)| + 1 + |Join(rendered)|
  {
    JoinThree(base, rendered);
  }

  predicate Twice(text: string, k: Kinds, rendered: seq<string>) {
    Rewritten(Rewritten(text, k, rendered), k, rendered) == Rewritten(text, k, rendered)
  }

  lemma {:induction false} JoinHasNoReturn(lines: seq<string>)
    requires forall x | x in lines :: '\r' !in x
    ensures '\r' !in Join(lines)
  {
    if lines != [] {
      JoinHasNoReturn(lines[1..]);
    }
  }

  /** What was written is read as it is. */
  lemma RewrittenReadsBack(text: string, k: Kinds, rendered: seq<string>)
    requires Lawful(k) && '\r' !in text && forall x | x in rendered :: '\r' !in x
    ensures ReadText(Rewritten(text, k, rendered)) == Rewritten(text, k, rendered)
  {
    RemainingIsClean(text, k);
    JoinHasNoReturn(Placed(EndLast(Remaining(text, k)), rendered));
    ReadHasNoReturn(Rewritten(text, k, rendered));
  }

  lemma TwiceWithoutTables(text: string, k: Kinds)
    requires Lawful(k) && '\r' !in text
    ensures Twice(text, k, [])
  {
    var base := Remaining(text, k);
    RemainingIsClean(text, k);
    PaddedIsClean(base, k);
    PaddedJoins(base);
    SplitWhole(Padded(base));
    KeptBehindFront(Padded(base), [], k);
    assert Padded(base) + [] == Padded(base);
    assert Placed(EndLast(base), []) == EndLast(base);
    PaddedTrimmed(base, k);
    var again := TrimBlank(Padded(base), k.blank);
    assert Remaining(Join(EndLast(base)), k) == again;
    assert Placed(EndLast(again), []) == EndLast(again);
  }

  lemma TwiceOnNothing(text: string, k: Kinds, rendered: seq<string>)
    requires Lawful(k) && Rendering(rendered, k) && rendered != [] && Remaining(text, k) == []
    ensures Twice(text, k, rendered) <==> Contained(rendered, k)
  {
    var lines := Split(Join(rendered));
    RenderedVanishes(lines, k);
    assert Placed(EndLast([]), rendered) == rendered;
    var kept := Kept(lines, k.head, k.owned);
    if !Contained(rendered, k) {
      TrimOfNonblank([], kept, k.blank);
      assert [] + kept == kept;
      PlacedLength(EndLast(TrimBlank(kept, k.blank)), rendered);
    }
  }

  lemma TwiceOnSomething(text: string, k: Kinds, rendered: seq<string>)
    requires Lawful(k) && '\r' !in text && Rendering(rendered, k) && rendered != [] && Remaining(text, k) != []
    ensures Twice(text, k, rendered) <==> Contained(rendered, k)
  {
    var base, lines := Remaining(text, k), Split(Join(rendered));
    RemainingIsClean(text, k);
    ReadBack(base, rendered, k);
    RenderedVanishes(lines, k);
    var again := TrimBlank(Kept(Front(base) + lines, k.head, k.owned), k.blank);
    if Contained(rendered, k) {
      SecondBase(base, lines, k);
      FrontTrimmed(base, k);
    } else {
      SecondBaseGrows(base, lines, k);
    }
    assert Remaining(Rewritten(text, k, rendered), k) == again;
    JoinThree(EndLast(again), rendered);
    JoinThree(EndLast(base), rendered);
  }

  /** Rewriting with the same tables a second time changes nothing, exactly when the rendered text reads back
      without a foreign header. */
  lemma RewritingTwice(text: string, k: Kinds, rendered: seq<string>)
    requires Lawful(k) && '\r' !in text && Rendering(rendered, k)
    ensures Twice(text, k, rendered) <==> Contained(rendered, k)
  {
    if rendered == [] {
      TwiceWithoutTables(text, k);
    } else if Remaining(text, k) == [] {
      TwiceOnNothing(text, k, rendered);
    } else {
      TwiceOnSomething(text, k, rendered);
    }
  }

  /* ------------------------------------------------------------------ the tables of others */

  /** The tables of another owner, without blank lines at the end and with a line feed. */
  function TablesOf(lines: seq<string>, k: Kinds, other: string -> bool): seq<string> {
    EndLast(TrimBlank(Tables(lines, k.head, other), k.blank))
  }

  ghost predicate Foreign(k: Kinds, other: string -> bool) {
    && (forall x :: !(k.owned(x) && other(x)))
    && (forall x: string | '\n' !in x :: other(x + "\n") == other(x))
  }

  lemma BlankEnd(lines: seq<string>, x: string, k: Kinds, other: string -> bool)
    requires Lawful(k) && k.blank(x)
    ensures TablesOf(lines + [x], k, other) == TablesOf(lines, k, other)
  {
    FilterSnoc(lines, x, k.head, other, false);
    var f := Tables(lines, k.head, other);
    assert !k.head(x) && f + [] == f;
    assert TrimBlank(f + [x], k.blank) == TrimBlank(f, k.blank) by {
      assert (f + [x])[..|f + [x]| - 1] == f;
    }
  }

  lemma {:induction false} TrimKeepsTables(lines: seq<string>, k: Kinds, other: string -> bool)
    requires Lawful(k)
    ensures TablesOf(TrimBlank(lines, k.blank), k, other) == TablesOf(lines, k, other)
  {
    if lines != [] && k.blank(lines[|lines| - 1]) {
      var init, last := lines[..|lines| - 1], lines[|lines| - 1];
      TrimKeepsTables(init, k, other);
      BlankEnd(init, last, k, other);
      assert init + [last] == lines;
    }
  }

  /** A line feed for the last line, if it has no terminator. */
  lemma FeedKeepsTables(init: seq<string>, last: string, k: Kinds, other: string -> bool)
    requires Lawful(k) && Foreign(k, other) && '\n' !in last && last != "" && !EndsLine(last) && !k.blank(last)
    ensures TablesOf(init + [last + "\n"], k, other) == TablesOf(init + [last], k, other)
  {
    FilterSnoc(init, last, k.head, other, false);
    FilterSnoc(init, last + "\n", k.head, other, false);
    assert k.head(last + "\n") == k.head(last) && other(last + "\n") == other(last);
    assert !k.blank(last + "\n") && EndsLine(last + "\n");
  }

  lemma PaddedKeepsTables(base: seq<string>, k: Kinds, other: string -> bool)
    requires Lawful(k) && Foreign(k, other) && Clean(base, k)
    ensures TablesOf(Padded(base), k, other) == TablesOf(base, k, other)
  {
    if base != [] && !EndsLine(base[|base| - 1]) {
      var init, last := base[..|base| - 1], base[|base| - 1];
      if Ended(last) {
        BlankEnd(base, "\n", k, other);
      } else {
        NoFeedInside(last);
        FeedKeepsTables(init, last, k, other);
        assert init + [last] == base;
      }
    }
  }

  lemma RenderedHasNone(front: seq<string>, lines: seq<string>, k: Kinds, other: string -> bool)
    requires lines != [] && k.head(lines[0]) && forall x | x in lines && k.head(x) :: !other(x)
    ensures Tables(front + lines, k.head, other) == Tables(front, k.head, other)
  {
    var state := StateAfter(front, k.head, other, false);
    FilterConcat(front, lines, k.head, other, false);
    if state {
      FilterAtHeader(lines, k.head, other, true);
    }
    FilterAppend(lines, [], k.head, other, false);
    assert lines + [] == lines;
  }

  /** Rewriting the owned tables keeps every line of another owner's tables, in order, up to blank lines at
      the end, when the rendered text reads back without a header of that owner. */
  lemma OtherTablesSurvive(text: string, k: Kinds, rendered: seq<string>, other: string -> bool)
    requires Lawful(k) && '\r' !in text && Foreign(k, other) && Rendering(rendered, k)
    requires forall x | x in Split(Join(rendered)) && k.head(x) :: !other(x)
    ensures TablesOf(Split(Rewritten(text, k, rendered)), k, other) == TablesOf(Split(text), k, other)
  {
    var base, lines := Remaining(text, k), Split(Join(rendered));
    var kept := Kept(Split(text), k.head, k.owned);
    RemainingIsClean(text, k);
    OtherTablesKept(Split(text), k.head, k.owned, other);
    TrimKeepsTables(kept, k, other);
    assert TablesOf(base, k, other) == TablesOf(Split(text), k, other);
    PaddedKeepsTables(base, k, other);
    if rendered == [] {
      assert Placed(EndLast(base), []) == EndLast(base);
      PaddedJoins(base);
      PaddedIsClean(base, k);
      SplitWhole(Padded(base));
    } else if base == [] {
      assert Placed(EndLast(base), rendered) == rendered;
      RenderedHasNone([], lines, k, other);
      assert [] + lines == lines;
    } else {
      ReadBack(base, rendered, k);
      RenderedHasNone(Front(base), lines, k, other);
      BlankEnd(Padded(base), "\n", k, other);
    }
  }
}
