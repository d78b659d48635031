/** Replacing virtual roots in unquoted shell text: one regular expression after the other. */
module UnquotedPaths {
  import opened TextLines
  import opened HostPaths

  /* ------------------------------------------------------------------ one substitution */

  /** What stands before a position: the start, a character, or the end of the previous match. */
  datatype Before = Start | After(c: char) | Consumed

  predicate Delimiter(c: char) { IsSpace(c) || c == ';' || c == '|' || c == '&' || c == '(' || c == '<' || c == '>' }

  /** A root may begin at the start of the text or behind one of these. */
  predicate Opener(c: char) { Delimiter(c) || c == '=' }

  predicate Opens(b: Before) { b.Start? || (b.After? && Opener(b.c)) }

  /** A root must be followed by the end of the text or one of these. */
  predicate Closer(c: char) { Delimiter(c) || c == ')' || c == '/' }

  predicate Ahead(t: string) { t == "" || Closer(t[0]) }

  predicate Matches(t: string, b: Before, v: string) { Opens(b) && v <= t && Ahead(t[|v|..]) }

  /** All matches of one root from left to right, none of them touched twice. */
  function Sub(t: string, b: Before, v: string, replacement: string): string
    requires v != ""
    decreases |t|
  {
    if t == "" then ""
    else if Matches(t, b, v) then replacement + Sub(t[|v|..], Consumed, v, replacement)
    else [t[0]] + Sub(t[1..], After(t[0]), v, replacement)
  }

  /** A root is not empty and holds no character that could stand before or behind a root. */
  predicate PlainRoot(v: string) { v != "" && forall i | 0 <= i < |v| :: !Opener(v[i]) && v[i] != ')' }

  /** A root and the text that takes its place. */
  datatype Rule = Rule(root: string, text: string)

  /** One root after the other, each over the result of those before it. */
  function Sequence(t: string, rules: seq<Rule>): string
    requires forall r | r in rules :: r.root != ""
    decreases |rules|
  {
    if rules == [] then t else Sequence(Sub(t, Start, rules[0].root, rules[0].text), rules[1..])
  }

  /* ------------------------------------------------------------------ a single pass */

  /** A character that was kept, or a root that was replaced. */
  datatype Cell = Char(c: char) | Block(root: string, text: string)

  function Render(cells: seq<Cell>): string {
    if cells == [] then "" else (if cells[0].Char? then [cells[0].c] else cells[0].text) + Render(cells[1..])
  }

  function Sources(cells: seq<Cell>): string {
    if cells == [] then "" else (if cells[0].Char? then [cells[0].c] else cells[0].root) + Sources(cells[1..])
  }

  function FirstMatch(t: string, b: Before, rules: seq<Rule>): (r: Option<Rule>)
    ensures r.Some? ==> r.value in rules && Matches(t, b, r.value.root)
    ensures r.None? ==> forall q | q in rules :: !Matches(t, b, q.root)
  {
    if rules == [] then None else if Matches(t, b, rules[0].root) then Some(rules[0]) else FirstMatch(t, b, rules[1..])
  }

  /** One pass over the text with all roots at once. */
  function OnePass(t: string, b: Before, rules: seq<Rule>): seq<Cell>
    requires forall r | r in rules :: r.root != ""
    decreases |t|
  {
    if t == "" then []
    else
      var m := FirstMatch(t, b, rules);
      if m.Some? then [Block(m.value.root, m.value.text)] + OnePass(t[|m.value.root|..], Consumed, rules)
      else [Char(t[0])] + OnePass(t[1..], After(t[0]), rules)
  }

  /** Outside the replaced roots nothing is lost, added or moved. */
  lemma {:induction false} OnePassKeepsText(t: string, b: Before, rules: seq<Rule>)
    requires forall r | r in rules :: r.root != ""
    ensures Sources(OnePass(t, b, rules)) == t
    decreases |t|
  {
    if t != "" {
      var m := FirstMatch(t, b, rules);
      if m.Some? {
        OnePassKeepsText(t[|m.value.root|..], Consumed, rules);
        assert t == m.value.root + t[|m.value.root|..];
      } else {
        OnePassKeepsText(t[1..], After(t[0]), rules);
      }
    }
  }

  /** With the longest roots first, the pass takes the longest root that matches. */
  lemma {:induction false} FirstIsLongest(t: string, b: Before, rules: seq<Rule>, q: Rule)
    requires forall i, j | 0 <= i < j < |rules| :: |rules[i].root| >= |rules[j].root|
    requires q in rules && Matches(t, b, q.root)
    ensures FirstMatch(t, b, rules).Some? && |FirstMatch(t, b, rules).value.root| >= |q.root|
  {
    if Matches(t, b, rules[0].root) {
      var i :| 0 <= i < |rules| && rules[i] == q;
    } else {
      FirstIsLongest(t, b, rules[1..], q);
    }
  }

  ghost predicate PlainRules(rules: seq<Rule>) { forall r | r in rules :: PlainRoot(r.root) }

  /* ------------------------------------------------------------------ openers separate */

  predicate EndsOpen(c: string) { c != "" && Opener(c[|c| - 1]) }

  /** No opener but perhaps the last character. */
  predicate Word(w: string) { forall i | 0 <= i < |w| - 1 :: !Opener(w[i]) }

  lemma SubSame(t: string, b: Before, c: Before, v: string, x: string)
    requires v != "" && Opens(b) == Opens(c)
    ensures Sub(t, b, v, x) == Sub(t, c, v, x)
  {
  }

  lemma SubMatch(t: string, b: Before, v: string, x: string)
    requires v != "" && Matches(t, b, v)
    ensures Sub(t, b, v, x) == x + Sub(t[|v|..], Consumed, v, x)
  {
  }

  lemma SubStep(t: string, b: Before, v: string, x: string)
    requires v != "" && t != "" && !Matches(t, b, v)
    ensures Sub(t, b, v, x) == [t[0]] + Sub(t[1..], After(t[0]), v, x)
  {
  }

  lemma PrefixReaches(c: string, rest: string, v: string)
    requires EndsOpen(c)
    ensures v <= c + rest && |v| >= |c| ==> exists i :: 0 <= i < |v| && Opener(v[i])
  {
    if v <= c + rest && |v| >= |c| {
      assert v[|c| - 1] == c[|c| - 1];
    }
  }

  lemma MatchesLocal(c: string, rest: string, b: Before, v: string)
    requires PlainRoot(v) && EndsOpen(c)
    ensures Matches(c + rest, b, v) <==> Matches(c, b, v)
    ensures Matches(c, b, v) ==> |v| < |c| && EndsOpen(c[|v|..]) && (c + rest)[|v|..] == c[|v|..] + rest
  {
    PrefixReaches(c, rest, v);
  }

  lemma Assoc(a: string, b: string, c: string)
    ensures a + (b + c) == (a + b) + c
  {
  }

  /** What stands behind an opener is replaced by itself. */
  lemma {:induction false} SubAppend(c: string, rest: string, b: Before, v: string, x: string)
    requires PlainRoot(v) && EndsOpen(c)
    ensures Sub(c + rest, b, v, x) == Sub(c, b, v, x) + Sub(rest, Start, v, x)
    ensures EndsOpen(Sub(c, b, v, x))
    decreases |c|
  {
    var t, behind := c + rest, Sub(rest, Start, v, x);
    MatchesLocal(c, rest, b, v);
    if Matches(c, b, v) {
      SubAppend(c[|v|..], rest, Consumed, v, x);
      assert Sub(t, b, v, x) == x + (Sub(c[|v|..], Consumed, v, x) + behind);
      Assoc(x, Sub(c[|v|..], Consumed, v, x), behind);
    } else {
      assert t[0] == c[0] && t[1..] == c[1..] + rest;
      if |c| == 1 {
        SubSame(rest, After(c[0]), Start, v, x);
        assert Sub(c[1..], After(c[0]), v, x) == "" && t[1..] == rest;
        assert Sub(c, b, v, x) == [c[0]] && Sub(t, b, v, x) == [c[0]] + behind;
      } else {
        SubAppend(c[1..], rest, After(c[0]), v, x);
        assert Sub(t, b, v, x) == [c[0]] + (Sub(c[1..], After(c[0]), v, x) + behind);
        Assoc([c[0]], Sub(c[1..], After(c[0]), v, x), behind);
      }
    }
  }

  lemma {:induction false} SequenceAppend(c: string, rest: string, rules: seq<Rule>)
    requires PlainRules(rules) && EndsOpen(c)
    ensures Sequence(c + rest, rules) == Sequence(c, rules) + Sequence(rest, rules)
    decreases |rules|
  {
    if rules != [] {
      var v, x := rules[0].root, rules[0].text;
      SubAppend(c, rest, Start, v, x);
      SequenceAppend(Sub(c, Start, v, x), Sub(rest, Start, v, x), rules[1..]);
    }
  }

  lemma {:induction false} FirstMatchSame(t: string, b: Before, u: string, c: Before, rules: seq<Rule>)
    requires forall r | r in rules :: Matches(t, b, r.root) == Matches(u, c, r.root)
    ensures FirstMatch(t, b, rules) == FirstMatch(u, c, rules)
  {
    if rules != [] {
      FirstMatchSame(t, b, u, c, rules[1..]);
    }
  }

  lemma PassSame(t: string, b: Before, c: Before, rules: seq<Rule>)
    requires PlainRules(rules) && Opens(b) == Opens(c)
    ensures OnePass(t, b, rules) == OnePass(t, c, rules)
  {
    FirstMatchSame(t, b, t, c, rules);
  }

  lemma PassMatch(t: string, b: Before, rules: seq<Rule>)
    requires PlainRules(rules) && t != "" && FirstMatch(t, b, rules).Some?
    ensures var r := FirstMatch(t, b, rules).value;
      Render(OnePass(t, b, rules)) == r.text + Render(OnePass(t[|r.root|..], Consumed, rules))
  {
    var r := FirstMatch(t, b, rules).value;
    assert ([Block(r.root, r.text)] + OnePass(t[|r.root|..], Consumed, rules))[1..] == OnePass(t[|r.root|..], Consumed, rules);
  }

  lemma PassStep(t: string, b: Before, rules: seq<Rule>)
    requires PlainRules(rules) && t != "" && FirstMatch(t, b, rules).None?
    ensures Render(OnePass(t, b, rules)) == [t[0]] + Render(OnePass(t[1..], After(t[0]), rules))
  {
    assert ([Char(t[0])] + OnePass(t[1..], After(t[0]), rules))[1..] == OnePass(t[1..], After(t[0]), rules);
  }

  lemma FirstMatchLocal(c: string, rest: string, b: Before, rules: seq<Rule>)
    requires PlainRules(rules) && EndsOpen(c)
    ensures FirstMatch(c + rest, b, rules) == FirstMatch(c, b, rules)
  {
    forall r | r in rules
      ensures Matches(c + rest, b, r.root) == Matches(c, b, r.root)
    {
      MatchesLocal(c, rest, b, r.root);
    }
    FirstMatchSame(c + rest, b, c, b, rules);
  }

  ghost predicate PassSplits(c: string, rest: string, b: Before, rules: seq<Rule>)
    requires PlainRules(rules)
  {
    Render(OnePass(c + rest, b, rules)) == Render(OnePass(c, b, rules)) + Render(OnePass(rest, Start, rules))
  }

  lemma MatchSplits(c: string, rest: string, b: Before, rules: seq<Rule>)
    requires PlainRules(rules) && EndsOpen(c) && FirstMatch(c, b, rules).Some?
    requires PassSplits(c[|FirstMatch(c, b, rules).value.root|..], rest, Consumed, rules)
    ensures PassSplits(c, rest, b, rules)
  {
    var r := FirstMatch(c, b, rules).value;
    FirstMatchLocal(c, rest, b, rules);
    MatchesLocal(c, rest, b, r.root);
    PassMatch(c, b, rules);
    PassMatch(c + rest, b, rules);
    Assoc(r.text, Render(OnePass(c[|r.root|..], Consumed, rules)), Render(OnePass(rest, Start, rules)));
  }

  lemma StepSplits(c: string, rest: string, b: Before, rules: seq<Rule>)
    requires PlainRules(rules) && EndsOpen(c) && FirstMatch(c, b, rules).None?
    requires PassSplits(c[1..], rest, After(c[0]), rules)
    ensures PassSplits(c, rest, b, rules)
  {
    FirstMatchLocal(c, rest, b, rules);
    assert (c + rest)[1..] == c[1..] + rest;
    PassStep(c, b, rules);
    PassStep(c + rest, b, rules);
    Assoc([c[0]], Render(OnePass(c[1..], After(c[0]), rules)), Render(OnePass(rest, Start, rules)));
  }

  lemma {:induction false} PassAppend(c: string, rest: string, b: Before, rules: seq<Rule>)
    requires PlainRules(rules) && EndsOpen(c)
    ensures PassSplits(c, rest, b, rules)
    decreases |c|
  {
    var m := FirstMatch(c, b, rules);
    if m.Some? {
      MatchesLocal(c, rest, b, m.value.root);
      PassAppend(c[|m.value.root|..], rest, Consumed, rules);
      MatchSplits(c, rest, b, rules);
    } else {
      if |c| == 1 {
        PassSame(rest, After(c[0]), Start, rules);
        assert c[1..] == "" && "" + rest == rest;
      } else {
        PassAppend(c[1..], rest, After(c[0]), rules);
      }
      StepSplits(c, rest, b, rules);
    }
  }

  /* ------------------------------------------------------------------ one word */

  lemma {:induction false} WordKept(w: string, b: Before, v: string, x: string)
    requires v != "" && Word(w) && !Matches(w, b, v)
    ensures Sub(w, b, v, x) == w
    decreases |w|
  {
    if |w| > 1 {
      WordKept(w[1..], After(w[0]), v, x);
    }
  }

  lemma {:induction false} WordPasses(w: string, b: Before, rules: seq<Rule>)
    requires PlainRules(rules) && Word(w) && !Opens(b)
    ensures Render(OnePass(w, b, rules)) == w
    decreases |w|
  {
    if w != "" {
      assert FirstMatch(w, b, rules).None?;
      if |w| > 1 {
        WordPasses(w[1..], After(w[0]), rules);
      }
    }
  }

  /** The first rule whose root stands at the beginning of the text. */
  predicate FirstAt(t: string, rules: seq<Rule>, i: nat) {
    i < |rules| && Matches(t, Start, rules[i].root) && forall m | 0 <= m < i :: !Matches(t, Start, rules[m].root)
  }

  lemma {:induction false} FirstIs(t: string, rules: seq<Rule>) returns (i: nat)
    ensures FirstMatch(t, Start, rules).Some? ==> FirstAt(t, rules, i) && FirstMatch(t, Start, rules) == Some(rules[i])
  {
    i := 0;
    if rules != [] && !Matches(t, Start, rules[0].root) {
      var j := FirstIs(t, rules[1..]);
      i := j + 1;
    }
  }

  lemma {:induction false} FirstAtIs(t: string, rules: seq<Rule>, i: nat)
    requires FirstAt(t, rules, i)
    ensures FirstMatch(t, Start, rules) == Some(rules[i])
  {
    if i > 0 {
      assert forall m | 0 <= m < i - 1 :: rules[1..][m] == rules[m + 1];
      FirstAtIs(t, rules[1..], i - 1);
    }
  }

  lemma {:induction false} NoRuleAt(t: string, rules: seq<Rule>)
    requires PlainRules(rules) && Word(t) && FirstMatch(t, Start, rules).None?
    ensures Sequence(t, rules) == t
    decreases |rules|
  {
    if rules != [] {
      WordKept(t, Start, rules[0].root, rules[0].text);
      assert FirstMatch(t, Start, rules[1..]).None?;
      NoRuleAt(t, rules[1..]);
    }
  }

  /** A root at the beginning of a word: the rules before it find nothing, those behind it see its text. */
  lemma {:induction false} SequenceAt(rules: seq<Rule>, i: nat, w: string)
    requires PlainRules(rules) && Word(w) && i < |rules| && FirstAt(rules[i].root + w, rules, i)
    ensures Sequence(rules[i].root + w, rules) == Sequence(rules[i].text + w, rules[i + 1..])
    decreases i
  {
    var t, v := rules[i].root + w, rules[i].root;
    if i == 0 {
      assert t[|v|..] == w;
      WordKept(w, Consumed, v, rules[0].text);
    } else {
      assert Word(t);
      WordKept(t, Start, rules[0].root, rules[0].text);
      assert forall m | 0 <= m < i - 1 :: rules[1..][m] == rules[m + 1];
      SequenceAt(rules[1..], i - 1, w);
      assert rules[1..][i..] == rules[i + 1..];
    }
  }

  lemma PassAt(rules: seq<Rule>, i: nat, w: string)
    requires PlainRules(rules) && Word(w) && i < |rules| && FirstAt(rules[i].root + w, rules, i)
    ensures Render(OnePass(rules[i].root + w, Start, rules)) == rules[i].text + w
  {
    FirstAtIs(rules[i].root + w, rules, i);
    assert (rules[i].root + w)[|rules[i].root|..] == w;
    WordPasses(w, Consumed, rules);
  }

  /* ------------------------------------------------------------------ what may follow a replaced text */

  /** What later roots can take of the text behind a replaced one: ends of them, one after the other. */
  function Contexts(rules: seq<Rule>): set<string> {
    if rules == [] then {""}
    else
      var later, v := Contexts(rules[1..]), rules[0].root;
      later + set k, e | 0 <= k < |v| && e in later :: v[k..] + e
  }

  lemma {:induction false} ContextsArePlain(rules: seq<Rule>, w: string)
    requires PlainRules(rules) && w in Contexts(rules)
    ensures forall i | 0 <= i < |w| :: !Opener(w[i])
  {
    if rules != [] && w !in Contexts(rules[1..]) {
      var v := rules[0].root;
      var k, e :| 0 <= k < |v| && e in Contexts(rules[1..]) && w == v[k..] + e;
      ContextsArePlain(rules[1..], e);
      assert forall i | 0 <= i < |v| - k :: w[i] == v[k + i];
    } else if rules != [] {
      ContextsArePlain(rules[1..], w);
    }
  }

  /** How many characters of `w` are replaced together with the end of `y`. */
  function Taken(y: string, b: Before, w: string, v: string): (n: nat)
    requires v != ""
    ensures n <= |w|
    decreases |y|
  {
    if Matches(y + w, b, v) then if |v| <= |y| then Taken(y[|v|..], Consumed, w, v) else |v| - |y|
    else if y == "" then 0
    else Taken(y[1..], After(y[0]), w, v)
  }

  /** What then stands in the place of `y`. */
  function Put(y: string, b: Before, w: string, v: string, x: string): string
    requires v != ""
    decreases |y|
  {
    if Matches(y + w, b, v) then if |v| <= |y| then x + Put(y[|v|..], Consumed, w, v, x) else x
    else if y == "" then ""
    else [y[0]] + Put(y[1..], After(y[0]), w, v, x)
  }

  lemma {:induction false} SubTakes(y: string, b: Before, w: string, v: string, x: string)
    requires PlainRoot(v) && Word(w) && Ahead(w)
    ensures var n := Taken(y, b, w, v);
      Ahead(w[n..]) && Sub(y + w, b, v, x) == Put(y, b, w, v, x) + w[n..]
    decreases |y|
  {
    var t, n := y + w, Taken(y, b, w, v);
    if Matches(t, b, v) && |v| <= |y| {
      var after := Put(y[|v|..], Consumed, w, v, x);
      SubTakes(y[|v|..], Consumed, w, v, x);
      assert t[|v|..] == y[|v|..] + w;
      SubMatch(t, b, v, x);
      Assoc(x, after, w[n..]);
    } else if Matches(t, b, v) {
      assert t[|v|..] == w[n..];
      SubMatch(t, b, v, x);
      WordKept(w[n..], Consumed, v, x);
    } else if y == "" {
      assert t == w && w[0..] == w && "" + w == w;
      WordKept(w, b, v, x);
    } else {
      var after := Put(y[1..], After(y[0]), w, v, x);
      assert t[0] == y[0] && t[1..] == y[1..] + w;
      SubTakes(y[1..], After(y[0]), w, v, x);
      SubStep(t, b, v, x);
      Assoc([y[0]], after, w[n..]);
    }
  }

  /** What is taken is the end of the root. */
  lemma {:induction false} TakenIsEnd(y: string, b: Before, w: string, v: string)
    requires v != "" && Taken(y, b, w, v) > 0
    ensures exists k :: 0 <= k < |v| && v[k..] == w[..Taken(y, b, w, v)]
    decreases |y|
  {
    var t, n := y + w, Taken(y, b, w, v);
    if Matches(t, b, v) && |v| <= |y| {
      TakenIsEnd(y[|v|..], Consumed, w, v);
    } else if Matches(t, b, v) {
      assert t[|y|..|v|] == w[..n] && v[|y|..] == t[|y|..|v|];
    } else {
      TakenIsEnd(y[1..], After(y[0]), w, v);
    }
  }

  lemma MatchesPrefix(y: string, w: string, u: string, b: Before, v: string)
    requires v != "" && u <= w && Ahead(w[|u|..]) && (Matches(y + w, b, v) ==> |v| <= |y + u|)
    ensures Matches(y + u, b, v) <==> Matches(y + w, b, v)
  {
    assert y + u <= y + w && (y + w)[|y + u|..] == w[|u|..];
  }

  /** It is the same when no more follows than is taken. */
  lemma {:induction false} TakenSame(y: string, b: Before, w: string, u: string, v: string, x: string)
    requires v != "" && u <= w && Ahead(w[|u|..]) && Taken(y, b, w, v) <= |u|
    ensures Taken(y, b, u, v) == Taken(y, b, w, v) && Put(y, b, u, v, x) == Put(y, b, w, v, x)
    decreases |y|
  {
    MatchesPrefix(y, w, u, b, v);
    if Matches(y + w, b, v) {
      if |v| <= |y| {
        TakenSame(y[|v|..], Consumed, w, u, v, x);
      }
    } else if y != "" {
      TakenSame(y[1..], After(y[0]), w, u, v, x);
    }
  }

  /** One rule does the same with `u` behind the text as with `w`. */
  lemma OneRuleFollows(y: string, w: string, u: string, v: string, x: string)
    requires PlainRoot(v) && Word(w) && Ahead(w) && u <= w && Ahead(w[|u|..]) && Taken(y, Start, w, v) <= |u|
    ensures var n := Taken(y, Start, w, v);
      Sub(y + w, Start, v, x) == Put(y, Start, w, v, x) + w[n..] && Sub(y + u, Start, v, x) == Put(y, Start, w, v, x) + u[n..]
  {
    SubTakes(y, Start, w, v, x);
    TakenSame(y, Start, w, u, v, x);
    assert Word(u) && Ahead(u);
    SubTakes(y, Start, u, v, x);
  }

  lemma ContextGrows(y: string, w: string, e: string, r: Rule, rules: seq<Rule>)
    requires r.root != "" && e in Contexts(rules)
    ensures w[..Taken(y, Start, w, r.root)] + e in Contexts([r] + rules)
  {
    var v, n := r.root, Taken(y, Start, w, r.root);
    assert ([r] + rules)[1..] == rules;
    if n > 0 {
      TakenIsEnd(y, Start, w, v);
      var k :| 0 <= k < |v| && v[k..] == w[..n];
      assert w[..n] + e == v[k..] + e;
    } else {
      assert w[..n] + e == e;
    }
  }

  /** Whatever follows a text, the rules treat it as if only one of the contexts did. */
  lemma {:induction false} Follow(y: string, w: string, rules: seq<Rule>) returns (u: string, z: string)
    requires PlainRules(rules) && Word(w) && Ahead(w)
    ensures u in Contexts(rules) && u <= w && Ahead(w[|u|..])
    ensures Sequence(y + w, rules) == z + w[|u|..] && Sequence(y + u, rules) == z
    decreases |rules|
  {
    if rules == [] {
      u, z := "", y;
      assert y + "" == y && w[0..] == w;
    } else {
      var v, x := rules[0].root, rules[0].text;
      var n := Taken(y, Start, w, v);
      SubTakes(y, Start, w, v, x);
      var e;
      e, z := Follow(Put(y, Start, w, v, x), w[n..], rules[1..]);
      u := w[..n] + e;
      assert w[|u|..] == w[n..][|e|..] && u[n..] == e;
      OneRuleFollows(y, w, u, v, x);
      ContextGrows(y, w, e, rules[0], rules[1..]);
      assert [rules[0]] + rules[1..] == rules;
    }
  }

  /* ------------------------------------------------------------------ the theorem */

  /** The text put in by a rule is still there after the later rules. */
  predicate Lasts(rules: seq<Rule>, i: nat, w: string)
    requires i < |rules| && forall r | r in rules :: r.root != ""
  {
    Sequence(rules[i].text + w, rules[i + 1..]) == rules[i].text + w
  }

  /** Every text that is put in lasts in each of the finitely many contexts that its later rules can tell
      apart, unless an earlier rule takes the word. */
  predicate Undisturbed(rules: seq<Rule>)
    requires forall r | r in rules :: r.root != ""
  {
    forall i, w | 0 <= i < |rules| && w in Contexts(rules[i + 1..]) && FirstAt(rules[i].root + w, rules, i) :: Lasts(rules, i, w)
  }

  ghost predicate IsOnePass(rules: seq<Rule>)
    requires forall r | r in rules :: r.root != ""
  {
    forall t: string :: Sequence(t, rules) == Render(OnePass(t, Start, rules))
  }

  lemma LastsEverywhere(rules: seq<Rule>, i: nat, w: string)
    requires PlainRules(rules) && Undisturbed(rules) && Word(w) && i < |rules| && FirstAt(rules[i].root + w, rules, i)
    ensures Lasts(rules, i, w)
  {
    var v := rules[i].root;
    assert (v + w)[|v|..] == w;
    var u, z := Follow(rules[i].text, w, rules[i + 1..]);
    forall m | 0 <= m <= i
      ensures Matches(v + u, Start, rules[m].root) ==> Matches(v + w, Start, rules[m].root)
    {
      var t := v + u;
      assert t <= v + w && (v + w)[|t|..] == w[|u|..];
    }
    assert (v + u)[|v|..] == u;
    assert FirstAt(v + u, rules, i) && Lasts(rules, i, u);
    assert rules[i].text + u + w[|u|..] == rules[i].text + w;
  }

  lemma WordIsOnePass(c: string, rules: seq<Rule>)
    requires PlainRules(rules) && Undisturbed(rules) && Word(c)
    ensures Sequence(c, rules) == Render(OnePass(c, Start, rules))
  {
    var i := FirstIs(c, rules);
    if FirstMatch(c, Start, rules).Some? {
      var v := rules[i].root;
      var w := c[|v|..];
      assert c == v + w;
      SequenceAt(rules, i, w);
      PassAt(rules, i, w);
      LastsEverywhere(rules, i, w);
    } else {
      NoRuleAt(c, rules);
      if c != "" {
        assert OnePass(c, Start, rules) == [Char(c[0])] + OnePass(c[1..], After(c[0]), rules);
        if |c| > 1 {
          WordPasses(c[1..], After(c[0]), rules);
        }
      }
    }
  }

  function FirstOpener(t: string): (n: nat)
    ensures n <= |t| && (n < |t| ==> Opener(t[n])) && forall i | 0 <= i < n :: !Opener(t[i])
  {
    if t == "" || Opener(t[0]) then 0 else 1 + FirstOpener(t[1..])
  }

  lemma {:induction false} TextIsOnePass(t: string, rules: seq<Rule>)
    requires PlainRules(rules) && Undisturbed(rules)
    ensures Sequence(t, rules) == Render(OnePass(t, Start, rules))
    decreases |t|
  {
    var n := FirstOpener(t);
    if n == |t| {
      WordIsOnePass(t, rules);
    } else {
      var c, rest := t[..n + 1], t[n + 1..];
      assert t == c + rest;
      SequenceAppend(c, rest, rules);
      PassAppend(c, rest, Start, rules);
      WordIsOnePass(c, rules);
      TextIsOnePass(rest, rules);
    }
  }

  /** One root after the other is the same as all roots in a single pass, for every text, exactly when the
      texts that are put in are undisturbed. */
  lemma SequenceIsOnePass(rules: seq<Rule>)
    requires PlainRules(rules)
    ensures IsOnePass(rules) <==> Undisturbed(rules)
  {
    if IsOnePass(rules) {
      forall i, w | 0 <= i < |rules| && w in Contexts(rules[i + 1..]) && FirstAt(rules[i].root + w, rules, i)
        ensures Lasts(rules, i, w)
      {
        ContextsArePlain(rules[i + 1..], w);
        SequenceAt(rules, i, w);
        PassAt(rules, i, w);
      }
    }
    if Undisturbed(rules) {
      forall t: string
        ensures Sequence(t, rules) == Render(OnePass(t, Start, rules))
      {
        TextIsOnePass(t, rules);
      }
    }
  }

  /* ------------------------------------------------------------------ texts that no root can meet */

  /** No root begins inside a replaced text, nor at its end, whatever may follow it. */
  predicate Inert(text: string, opens: bool, v: string)
    decreases |text|
  {
    (opens ==> !(v <= text && Ahead(text[|v|..])) && !(text < v && v[|text|] == '/')) &&
    (text != "" ==> Inert(text[1..], Opener(text[0]), v))
  }

  lemma InertUnmatched(q: string, w: string, b: Before, v: string)
    requires PlainRoot(v) && Inert(q, Opens(b), v) && Ahead(w)
    ensures !Matches(q + w, b, v)
  {
    NextChar(q, w, v);
  }

  lemma NextChar(q: string, w: string, v: string)
    ensures v <= q + w && |v| > |q| ==> q < v && w != "" && v[|q|] == w[0]
  {
  }

  lemma StepKept(q: string, w: string, b: Before, v: string, x: string)
    requires v != "" && q != "" && !Matches(q + w, b, v) && Sub(q[1..] + w, After(q[0]), v, x) == q[1..] + w
    ensures Sub(q + w, b, v, x) == q + w
  {
    var t := q + w;
    assert t[1..] == q[1..] + w && t[0] == q[0] && t == [q[0]] + (q[1..] + w);
    SubStep(t, b, v, x);
  }

  lemma {:induction false} InertKept(q: string, w: string, b: Before, v: string, x: string)
    requires PlainRoot(v) && Inert(q, Opens(b), v) && Ahead(w) && Word(w)
    ensures Sub(q + w, b, v, x) == q + w
    decreases |q|
  {
    if q == "" {
      assert q + w == w;
      InertUnmatched(q, w, b, v);
      WordKept(w, b, v, x);
    } else {
      InertKept(q[1..], w, After(q[0]), v, x);
      InertUnmatched(q, w, b, v);
      StepKept(q, w, b, v, x);
    }
  }

  /** No text put in for one root can be met by a root that comes later, unless that root stands for itself. */
  predicate InertRules(rules: seq<Rule>) {
    forall i, j | 0 <= i < j < |rules| :: rules[j].text == rules[j].root || Inert(rules[i].text, true, rules[j].root)
  }

  lemma {:induction false} SubSelf(t: string, b: Before, v: string)
    requires v != ""
    ensures Sub(t, b, v, v) == t
    decreases |t|
  {
    if t != "" {
      if Matches(t, b, v) {
        SubSelf(t[|v|..], Consumed, v);
      } else {
        SubSelf(t[1..], After(t[0]), v);
      }
    }
  }

  lemma {:induction false} InertLasts(q: string, w: string, rules: seq<Rule>)
    requires PlainRules(rules) && Ahead(w) && Word(w)
    requires forall j | 0 <= j < |rules| :: rules[j].text == rules[j].root || Inert(q, true, rules[j].root)
    ensures Sequence(q + w, rules) == q + w
    decreases |rules|
  {
    if rules != [] {
      if rules[0].text == rules[0].root {
        SubSelf(q + w, Start, rules[0].root);
      } else {
        InertKept(q, w, Start, rules[0].root, rules[0].text);
      }
      InertLasts(q, w, rules[1..]);
    }
  }

  /** A condition root by root that suffices for any number of roots. */
  lemma InertIsUndisturbed(rules: seq<Rule>)
    requires PlainRules(rules) && InertRules(rules)
    ensures Undisturbed(rules)
  {
    forall i, w | 0 <= i < |rules| && w in Contexts(rules[i + 1..]) && FirstAt(rules[i].root + w, rules, i)
      ensures Lasts(rules, i, w)
    {
      ContextsArePlain(rules[i + 1..], w);
      assert (rules[i].root + w)[|rules[i].root|..] == w;
      InertLasts(rules[i].text, w, rules[i + 1..]);
    }
  }

  /* ------------------------------------------------------------------ two roots */

  /** Somewhere the root is replaced. */
  predicate Meets(t: string, b: Before, v: string)
    decreases |t|
  {
    t != "" && (Matches(t, b, v) || Meets(t[1..], After(t[0]), v))
  }

  lemma {:induction false} SubLength(t: string, b: Before, v: string, x: string)
    requires v != ""
    ensures |x| >= |v| ==> |Sub(t, b, v, x)| >= |t|
    ensures |x| <= |v| ==> |Sub(t, b, v, x)| <= |t|
    decreases |t|
  {
    if t != "" {
      if Matches(t, b, v) {
        SubLength(t[|v|..], Consumed, v, x);
      } else {
        SubLength(t[1..], After(t[0]), v, x);
      }
    }
  }

  lemma {:induction false} SubChanges(t: string, b: Before, v: string, x: string)
    requires v != "" && x != v && Meets(t, b, v)
    ensures Sub(t, b, v, x) != t
    decreases |t|
  {
    if Matches(t, b, v) {
      SubLength(t[|v|..], Consumed, v, x);
      if |x| == |v| {
        assert Sub(t, b, v, x)[..|v|] == x && t[..|v|] == v;
      }
    } else {
      SubChanges(t[1..], After(t[0]), v, x);
      assert Sub(t, b, v, x)[1..] == Sub(t[1..], After(t[0]), v, x);
    }
  }

  /** A text that is not inert meets the root in some context. */
  lemma {:induction false} NotInertMeets(q: string, b: Before, v: string) returns (w: string)
    requires v != "" && !Inert(q, Opens(b), v)
    ensures (w == "" || exists k :: 0 <= k < |v| && v[k] == '/' && w == v[k..]) && Meets(q + w, b, v)
    decreases |q|
  {
    if Opens(b) && v <= q && Ahead(q[|v|..]) {
      w := "";
      assert q + w == q;
    } else if Opens(b) && q < v && v[|q|] == '/' {
      w := v[|q|..];
      assert q + w == v && v[|v|..] == "";
    } else {
      w := NotInertMeets(q[1..], After(q[0]), v);
      assert (q + w)[1..] == q[1..] + w;
    }
  }

  lemma OneRule(t: string, r: Rule)
    requires r.root != ""
    ensures Sequence(t, [r]) == Sub(t, Start, r.root, r.text)
  {
    assert [r][1..] == [];
  }

  lemma TwoContexts(r: Rule)
    ensures "" in Contexts([r]) && forall k | 0 <= k < |r.root| :: r.root[k..] in Contexts([r])
  {
    assert [r][1..] == [] && Contexts([]) == {""};
    forall k | 0 <= k < |r.root|
      ensures r.root[k..] in Contexts([r])
    {
      assert r.root[k..] + "" == r.root[k..];
    }
  }

  /** With two roots the condition root by root is exact. */
  lemma TwoRootsAreOnePass(v: string, q: string, w: string, x: string)
    requires PlainRoot(v) && PlainRoot(w)
    ensures var rules := [Rule(v, q), Rule(w, x)];
      PlainRules(rules) && (IsOnePass(rules) <==> x == w || Inert(q, true, w))
  {
    var rules := [Rule(v, q), Rule(w, x)];
    SequenceIsOnePass(rules);
    assert rules[1..] == [Rule(w, x)];
    if x == w || Inert(q, true, w) {
      InertIsUndisturbed(rules);
    } else {
      var c := NotInertMeets(q, Start, w);
      TwoContexts(Rule(w, x));
      assert (v + c)[|v|..] == c;
      assert FirstAt(rules[0].root + c, rules, 0);
      OneRule(q + c, Rule(w, x));
      SubChanges(q + c, Start, w, x);
      assert !Lasts(rules, 0, c);
    }
  }

  /** It is not enough that no replaced text begins with a root: an equals sign inside lets a root begin, and
      it needs no quoting. */
  lemma RootBehindEquals(v: string, w: string, x: string)
    requires PlainRoot(v) && PlainRoot(w) && v != w
    ensures var rules := [Rule(v, "/=" + w), Rule(w, x)];
      && PlainRules(rules)
      && Sequence(v, rules) == "/=" + x
      && Render(OnePass(v, Start, rules)) == "/=" + w
  {
    var q := "/=" + w;
    var rules := [Rule(v, q), Rule(w, x)];
    assert v[|v|..] == "" && w[|w|..] == "" && rules[1..] == [Rule(w, x)];
    assert Sub(v, Start, v, q) == q + Sub("", Consumed, v, q) == q;
    OneRule(q, Rule(w, x));
    FirstKept(w, x);
    assert v + "" == v && q + "" == q;
    PassAt(rules, 0, "");
  }

  lemma FirstKept(w: string, x: string)
    requires PlainRoot(w)
    ensures Sub("/=" + w, Start, w, x) == "/=" + x
  {
    var q := "/=" + w;
    assert q[1..] == "=" + w && q[1..][1..] == w && w[|w|..] == "";
    assert |w| > 1 ==> w[1] != q[1];
    assert |w| == 1 ==> q[|w|..][0] == '=';
    assert Sub(w, After('='), w, x) == x + Sub("", Consumed, w, x);
  }

  /* ------------------------------------------------------------------ texts without roots */

  predicate Holds(t: string, v: string) { exists k | 0 <= k <= |t| :: v <= t[k..] }

  lemma {:induction false} SubLeavesAlone(t: string, b: Before, v: string, replacement: string)
    requires v != "" && !Holds(t, v)
    ensures Sub(t, b, v, replacement) == t
    decreases |t|
  {
    if t != "" {
      assert t[0..] == t && !(v <= t);
      forall k | 0 <= k <= |t| - 1
        ensures !(v <= t[1..][k..])
      {
        assert t[1..][k..] == t[k + 1..];
      }
      SubLeavesAlone(t[1..], After(t[0]), v, replacement);
    }
  }

  lemma {:induction false} SequenceLeavesAlone(t: string, rules: seq<Rule>)
    requires forall r | r in rules :: r.root != "" && !Holds(t, r.root)
    ensures Sequence(t, rules) == t
    decreases |rules|
  {
    if rules != [] {
      SubLeavesAlone(t, Start, rules[0].root, rules[0].text);
      SequenceLeavesAlone(t, rules[1..]);
    }
  }
}
