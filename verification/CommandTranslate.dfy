/** Translating the virtual paths of a shell command into host paths. */
module CommandTranslate {
  import opened TextLines
  import opened HostPaths
  import opened UnquotedPaths

  /* ------------------------------------------------------------------ cutting a command at its quotes */

  /** `Open` is what follows a quote that is never closed. */
  datatype Piece = Unquoted(text: string) | Quoted(quote: char, content: string) | Open(text: string)

  predicate IsQuote(c: char) { c == '\'' || c == '"' }

  /** The closing quote, or the end of the command; inside double quotes a backslash takes a character with it. */
  function CloseOf(c: string, quote: char, i: nat): (end: nat)
    ensures i < |c| ==> i <= end
    ensures end < |c| ==> c[end] == quote
    decreases |c| - i
  {
    if i >= |c| then i
    else if c[i] == quote then i
    else CloseOf(c, quote, if quote == '"' && c[i] == '\\' then i + 2 else i + 1)
  }

  /** The pieces from `index` on, when unquoted text began at `start`. */
  function Cut(c: string, start: nat, index: nat): (pieces: seq<Piece>)
    requires start <= index && start <= |c|
    decreases |c| - index
  {
    if index >= |c| then [Unquoted(c[start..])]
    else if !IsQuote(c[index]) then Cut(c, start, if c[index] == '\\' then index + 2 else index + 1)
    else
      var end := CloseOf(c, c[index], index + 1);
      if end >= |c| then [Unquoted(c[start..index]), Open(c[index..])]
      else [Unquoted(c[start..index]), Quoted(c[index], c[index + 1..end])] + Cut(c, end + 1, end + 1)
  }

  function TextOf(p: Piece): string {
    match p
    case Unquoted(text) => text
    case Quoted(quote, content) => [quote] + content + [quote]
    case Open(text) => text
  }

  function Texts(pieces: seq<Piece>): string {
    if pieces == [] then "" else TextOf(pieces[0]) + Texts(pieces[1..])
  }

  lemma OpenPart(c: string, start: nat, index: nat)
    requires start <= index < |c|
    ensures Texts([Unquoted(c[start..index]), Open(c[index..])]) == c[start..]
  {
    var a, b := Unquoted(c[start..index]), Open(c[index..]);
    TextsOfTwo(a, b, []);
    assert [a, b] + [] == [a, b] && Texts([]) == "";
    assert c[start..] == c[start..index] + c[index..];
  }

  lemma PartsOfQuoted(c: string, start: nat, index: nat, end: nat)
    requires start <= index < end < |c| && c[end] == c[index]
    ensures c[start..] == c[start..index] + ([c[index]] + c[index + 1..end] + [c[index]]) + c[end + 1..]
  {
  }

  lemma QuotedPart(c: string, start: nat, index: nat, end: nat, rest: seq<Piece>)
    requires start <= index < end < |c| && c[end] == c[index] && Texts(rest) == c[end + 1..]
    ensures Texts([Unquoted(c[start..index]), Quoted(c[index], c[index + 1..end])] + rest) == c[start..]
  {
    TextsOfTwo(Unquoted(c[start..index]), Quoted(c[index], c[index + 1..end]), rest);
    PartsOfQuoted(c, start, index, end);
  }

  /** The pieces are the whole command. */
  lemma {:induction false} PiecesAreCommand(c: string, start: nat, index: nat)
    requires start <= index && start <= |c|
    ensures Texts(Cut(c, start, index)) == c[start..]
    decreases |c| - index
  {
    if index >= |c| {
      assert Texts([Unquoted(c[start..])][1..]) == "";
    } else if !IsQuote(c[index]) {
      PiecesAreCommand(c, start, if c[index] == '\\' then index + 2 else index + 1);
    } else {
      var end := CloseOf(c, c[index], index + 1);
      if end >= |c| {
        OpenPart(c, start, index);
      } else {
        PiecesAreCommand(c, end + 1, end + 1);
        QuotedPart(c, start, index, end, Cut(c, end + 1, end + 1));
      }
    }
  }

  lemma TextsOfTwo(a: Piece, b: Piece, rest: seq<Piece>)
    ensures Texts([a, b] + rest) == TextOf(a) + TextOf(b) + Texts(rest)
  {
  }

  /* ------------------------------------------------------------------ POSIX quoting */

  /** The characters `shlex.quote` leaves unquoted. */
  predicate Safe(c: char) {
    'a' <= c <= 'z' || 'A' <= c <= 'Z' || '0' <= c <= '9' || c in ['_', '@', '%', '+', '=', ':', ',', '.', '/', '-']
  }

  predicate AllSafe(s: string) { forall i | 0 <= i < |s| :: Safe(s[i]) }

  const ESCAPED_QUOTE := ['\'', '"', '\'', '"', '\'']

  function EscapeSingle(s: string): string {
    if s == "" then "" else (if s[0] == '\'' then ESCAPED_QUOTE else [s[0]]) + EscapeSingle(s[1..])
  }

  function Wrapped(s: string): string { ['\''] + s + ['\''] }

  function ShellQuote(s: string): string {
    if s != "" && AllSafe(s) then s else Wrapped(EscapeSingle(s))
  }

  predicate Special(c: char) { c == '$' || c == '`' || c == '\\' }

  /** A shell word without its quotes (section 2.2 of the Shell Command Language): `None` for a word that is
      not closed, or whose meaning needs an expansion, an escape or a token boundary. */
  function Dequote(w: string): Option<string>
    decreases |w|
  {
    if w == "" then Some("")
    else if IsQuote(w[0]) then
      var end := Plain(w, w[0], 1);
      if end == |w| || (w[0] == '"' && exists i | 1 <= i < end :: Special(w[i])) then None
      else Prefixed(w[1..end], Dequote(w[end + 1..]))
    else if Safe(w[0]) then Prefixed(w[..1], Dequote(w[1..]))
    else None
  }

  function Prefixed(s: string, rest: Option<string>): Option<string> { if rest.None? then None else Some(s + rest.value) }

  /** The next quote of that kind, or the end. */
  function Plain(w: string, quote: char, i: nat): (end: nat)
    requires i <= |w|
    ensures i <= end <= |w| && (end < |w| ==> w[end] == quote) && forall k | i <= k < end :: w[k] != quote
    decreases |w| - i
  {
    if i == |w| || w[i] == quote then i else Plain(w, quote, i + 1)
  }

  /** A quoted run without its quote inside stands for its content. */
  lemma DequoteRun(quote: char, content: string, rest: string)
    requires IsQuote(quote) && quote !in content && (quote == '"' ==> forall i | 0 <= i < |content| :: !Special(content[i]))
    ensures Dequote([quote] + content + [quote] + rest) == Prefixed(content, Dequote(rest))
  {
    var w, end := [quote] + content + [quote] + rest, |content| + 1;
    assert w[1..end] == content && w[end] == quote && w[end + 1..] == rest;
    forall k | 1 <= k < end
      ensures w[k] != quote && w[k] == content[k - 1]
    {
      assert w[1..end][k - 1] == w[k];
    }
  }

  lemma {:induction false} DequoteSafe(s: string)
    requires AllSafe(s)
    ensures Dequote(s) == Some(s)
  {
    if s != "" {
      assert !IsQuote(s[0]);
      DequoteSafe(s[1..]);
      assert s[..1] + s[1..] == s;
    }
  }

  /** The next single quote of a text. */
  lemma {:induction false} EscapedSplit(s: string, n: nat)
    requires n <= |s| && forall k | 0 <= k < n :: s[k] != '\''
    ensures EscapeSingle(s) == s[..n] + EscapeSingle(s[n..])
    decreases n
  {
    if n > 0 {
      EscapedSplit(s[1..], n - 1);
      assert s[1..][..n - 1] == s[1..n] && s[1..][n - 1..] == s[n..] && s[..n] == [s[0]] + s[1..n];
    } else {
      assert s[..0] == "" && s[0..] == s;
    }
  }

  lemma EscapedTail(s: string, n: nat)
    requires n < |s| && s[n] == '\'' && forall k | 0 <= k < n :: s[k] != '\''
    ensures EscapeSingle(s) == s[..n] + (ESCAPED_QUOTE + EscapeSingle(s[n + 1..]))
  {
    EscapedSplit(s, n);
    assert s[n..][1..] == s[n + 1..];
  }

  /** A run in single quotes, a quote in double quotes, and more. */
  lemma DequoteEmbedded(run: string, behind: string)
    requires '\'' !in run
    ensures Dequote(Wrapped(run) + (['"'] + ['\''] + ['"'] + behind)) == Prefixed(run, Prefixed(['\''], Dequote(behind)))
  {
    DequoteRun('"', ['\''], behind);
    DequoteRun('\'', run, ['"'] + ['\''] + ['"'] + behind);
  }

  lemma EmbeddedText(run: string, tail: string)
    ensures Wrapped(run + (ESCAPED_QUOTE + tail)) == Wrapped(run) + (['"'] + ['\''] + ['"'] + Wrapped(tail))
  {
  }

  lemma DequoteWrapped(run: string)
    requires '\'' !in run
    ensures Dequote(Wrapped(run)) == Some(run)
  {
    DequoteRun('\'', run, "");
    assert Wrapped(run) + "" == Wrapped(run) && run + "" == run;
  }

  lemma EscapedText(s: string, n: nat)
    requires n < |s| && s[n] == '\'' && '\'' !in s[..n]
    ensures Wrapped(EscapeSingle(s)) == Wrapped(s[..n]) + (['"'] + ['\''] + ['"'] + Wrapped(EscapeSingle(s[n + 1..])))
  {
    forall k | 0 <= k < n
      ensures s[k] != '\''
    {
      assert s[..n][k] == s[k];
    }
    EscapedTail(s, n);
    EmbeddedText(s[..n], EscapeSingle(s[n + 1..]));
  }

  lemma Rejoined(s: string, n: nat)
    requires n < |s| && s[n] == '\''
    ensures Prefixed(s[..n], Prefixed(['\''], Some(s[n + 1..]))) == Some(s)
  {
    assert s == s[..n] + (['\''] + s[n + 1..]);
  }

  lemma EscapedStep(s: string, n: nat)
    requires n < |s| && s[n] == '\'' && '\'' !in s[..n]
    requires Dequote(Wrapped(EscapeSingle(s[n + 1..]))) == Some(s[n + 1..])
    ensures Dequote(Wrapped(EscapeSingle(s))) == Some(s)
  {
    EscapedText(s, n);
    DequoteEmbedded(s[..n], Wrapped(EscapeSingle(s[n + 1..])));
    Rejoined(s, n);
  }

  /** What is written around an embedded quote: the run before it, the quote in double quotes, the rest. */
  lemma {:induction false} DequoteEscaped(s: string)
    ensures Dequote(Wrapped(EscapeSingle(s))) == Some(s)
    decreases |s|
  {
    var n := Plain(s, '\'', 0);
    if n == |s| {
      EscapedSplit(s, n);
      assert s[n..] == "" && s[..n] == s && s + "" == s;
      DequoteWrapped(s);
    } else {
      DequoteEscaped(s[n + 1..]);
      EscapedStep(s, n);
    }
  }

  /** A shell reads back exactly the text that was quoted. */
  lemma QuoteRoundTrip(s: string)
    ensures Dequote(ShellQuote(s)) == Some(s)
  {
    if s != "" && AllSafe(s) {
      DequoteSafe(s);
    } else {
      DequoteEscaped(s);
    }
  }

  /* ------------------------------------------------------------------ translating the pieces */

  /** The mapped roots: not empty, the longest first. */
  predicate Roots(mappings: seq<Mapping>) { LongestFirst(mappings) && forall m | m in mappings :: m.virtual != "" }

  function RulesOf(mappings: seq<Mapping>): (rules: seq<Rule>)
    ensures |rules| == |mappings|
    ensures forall i | 0 <= i < |mappings| :: rules[i] == Rule(mappings[i].virtual, ShellQuote(mappings[i].host))
  {
    seq(|mappings|, i requires 0 <= i < |mappings| => Rule(mappings[i].virtual, ShellQuote(mappings[i].host)))
  }

  function TranslateUnquoted(text: string, mappings: seq<Mapping>): string
    requires Roots(mappings)
  {
    Sequence(text, RulesOf(mappings))
  }

  predicate HasSpecial(s: string) { exists i | 0 <= i < |s| :: Special(s[i]) }

  /** `None` when the path is unsafe. */
  function TranslateQuoted(quote: char, content: string, mappings: seq<Mapping>): Option<string> {
    match Translate(mappings, content)
    case Unsafe => None
    case NotVirtual => Some([quote] + content + [quote])
    case Host(path) =>
      if quote == '"' && HasSpecial(content) then Some([quote] + content + [quote])
      else if quote !in path && !(quote == '"' && HasSpecial(path)) then Some([quote] + path + [quote])
      else Some(ShellQuote(path))
  }

  function TranslatePiece(p: Piece, mappings: seq<Mapping>): Option<string>
    requires Roots(mappings)
  {
    match p
    case Unquoted(text) => Some(TranslateUnquoted(text, mappings))
    case Quoted(quote, content) => TranslateQuoted(quote, content, mappings)
    case Open(text) => Some(text)
  }

  function TranslateAll(pieces: seq<Piece>, mappings: seq<Mapping>): Option<string>
    requires Roots(mappings)
  {
    if pieces == [] then Some("")
    else
      var first := TranslatePiece(pieces[0], mappings);
      if first.None? then None else Prefixed(first.value, TranslateAll(pieces[1..], mappings))
  }

  method FindClose(command: string, quote: char, index: nat) returns (end: nat)
    requires index < |command|
    ensures end == CloseOf(command, quote, index + 1) && index < end
  {
    end := index + 1;
    while end < |command| && command[end] != quote
      invariant CloseOf(command, quote, index + 1) == CloseOf(command, quote, end) && index < end
      decreases |command| - end
    {
      end := if quote == '"' && command[end] == '\\' then end + 2 else end + 1;
    }
  }

  /** What is written, and what the rest of the command adds to it. */
  ghost predicate Progress(total: Option<string>, command: string, mappings: seq<Mapping>, pieces: string,
        start: nat, index: nat)
    requires Roots(mappings)
  {
    && start <= index && start <= |command|
    && total == Prefixed(pieces, TranslateAll(Cut(command, start, index), mappings))
  }

  lemma AtOpenQuote(total: Option<string>, command: string, mappings: seq<Mapping>, pieces: string, start: nat, index: nat)
    requires Roots(mappings) && Progress(total, command, mappings, pieces, start, index) && index < |command|
    requires IsQuote(command[index]) && CloseOf(command, command[index], index + 1) >= |command|
    ensures total == Some(pieces + TranslateUnquoted(command[start..index], mappings) + command[index..])
  {
    LastTwo(Unquoted(command[start..index]), Open(command[index..]), mappings);
    JoinPrefixed(pieces, TranslateUnquoted(command[start..index], mappings), Some(command[index..]));
  }

  lemma TwoMore(total: Option<string>, pieces: string, a: Piece, b: Piece, rest: seq<Piece>, mappings: seq<Mapping>)
    requires Roots(mappings) && TranslatePiece(a, mappings).Some?
    requires total == Prefixed(pieces, TranslateAll([a, b] + rest, mappings))
    ensures TranslatePiece(b, mappings).None? ==> total.None?
    ensures TranslatePiece(b, mappings).Some? ==>
      total == Prefixed(pieces + TranslatePiece(a, mappings).value + TranslatePiece(b, mappings).value, TranslateAll(rest, mappings))
  {
    if TranslatePiece(b, mappings).Some? {
      var first, second, behind := TranslatePiece(a, mappings).value, TranslatePiece(b, mappings).value, TranslateAll(rest, mappings);
      JoinPrefixed(pieces, first, Prefixed(second, behind));
      JoinPrefixed(pieces + first, second, behind);
    }
  }

  lemma CutAtQuoted(c: string, start: nat, index: nat, end: nat)
    requires start <= index < |c| && IsQuote(c[index]) && end == CloseOf(c, c[index], index + 1) < |c|
    ensures Cut(c, start, index) == [Unquoted(c[start..index]), Quoted(c[index], c[index + 1..end])] + Cut(c, end + 1, end + 1)
  {
  }

  lemma AtQuoted(total: Option<string>, command: string, mappings: seq<Mapping>, pieces: string, start: nat,
        index: nat, end: nat)
    requires Roots(mappings) && Progress(total, command, mappings, pieces, start, index) && index < |command|
    requires IsQuote(command[index]) && end == CloseOf(command, command[index], index + 1) < |command|
    ensures var quoted := TranslateQuoted(command[index], command[index + 1..end], mappings);
      && (quoted.None? ==> total.None?)
      && (quoted.Some? ==> Progress(total, command, mappings, pieces + TranslateUnquoted(command[start..index], mappings) + quoted.value, end + 1, end + 1))
  {
    CutAtQuoted(command, start, index, end);
    TwoMore(total, pieces, Unquoted(command[start..index]),
            Quoted(command[index], command[index + 1..end]), Cut(command, end + 1, end + 1), mappings);
  }

  lemma AtEnd(total: Option<string>, command: string, mappings: seq<Mapping>, pieces: string, start: nat, index: nat)
    requires Roots(mappings) && Progress(total, command, mappings, pieces, start, index) && index >= |command|
    ensures total == Some(pieces + TranslateUnquoted(command[start..], mappings))
  {
    LastOne(Unquoted(command[start..]), mappings);
  }

  /** The scan ends at a quote, or goes on behind the quoted piece. */
  datatype Taken = Finished(result: Option<string>) | More(pieces: string, next: nat)

  /** The unquoted text before a quote, and what the quote begins. */
  method TakeQuoted(command: string, mappings: seq<Mapping>, pieces: string, start: nat, index: nat,
        ghost total: Option<string>)
    returns (r: Taken)
    requires Roots(mappings) && Progress(total, command, mappings, pieces, start, index) && index < |command|
    requires IsQuote(command[index])
    ensures r.Finished? ==> r.result == total
    ensures r.More? ==> index < r.next && Progress(total, command, mappings, r.pieces, r.next, r.next)
  {
    var unquoted := TranslateUnquoted(command[start..index], mappings);
    var end := FindClose(command, command[index], index);
    if end >= |command| {
      AtOpenQuote(total, command, mappings, pieces, start, index);
      return Finished(Some(pieces + unquoted + command[index..]));
    }
    var translated := TranslateQuoted(command[index], command[index + 1..end], mappings);
    AtQuoted(total, command, mappings, pieces, start, index, end);
    return if translated.None? then Finished(None) else More(pieces + unquoted + translated.value, end + 1);
  }

  /** The scanner: `None` when a quoted path is unsafe. */
  method TranslateCommand(command: string, mappings: seq<Mapping>) returns (r: Option<string>)
    requires Roots(mappings)
    ensures r == TranslateAll(Cut(command, 0, 0), mappings)
  {
    var pieces: string, unquotedStart: nat, index: nat := "", 0, 0;
    ghost var total := TranslateAll(Cut(command, 0, 0), mappings);
    PrefixedEmpty(total);
    while index < |command|
      invariant Progress(total, command, mappings, pieces, unquotedStart, index)
      decreases |command| - index
    {
      if IsQuote(command[index]) {
        var taken := TakeQuoted(command, mappings, pieces, unquotedStart, index, total);
        if taken.Finished? {
          return taken.result;
        }
        pieces, unquotedStart, index := taken.pieces, taken.next, taken.next;
      } else {
        index := if command[index] == '\\' then index + 2 else index + 1;
      }
    }
    AtEnd(total, command, mappings, pieces, unquotedStart, index);
    r := Some(pieces + TranslateUnquoted(command[unquotedStart..], mappings));
  }

  lemma JoinPrefixed(a: string, b: string, rest: Option<string>)
    ensures Prefixed(a, Prefixed(b, rest)) == Prefixed(a + b, rest)
  {
    if rest.Some? {
      assert a + (b + rest.value) == (a + b) + rest.value;
    }
  }

  lemma PrefixedEmpty(rest: Option<string>)
    ensures Prefixed("", rest) == rest
  {
    if rest.Some? {
      assert "" + rest.value == rest.value;
    }
  }

  lemma LastOne(p: Piece, mappings: seq<Mapping>)
    requires Roots(mappings)
    ensures TranslateAll([p], mappings) == TranslatePiece(p, mappings)
  {
    assert [p][1..] == [];
    if TranslatePiece(p, mappings).Some? {
      assert TranslatePiece(p, mappings).value + "" == TranslatePiece(p, mappings).value;
    }
  }

  lemma LastTwo(a: Piece, b: Piece, mappings: seq<Mapping>)
    requires Roots(mappings) && TranslatePiece(a, mappings).Some?
    ensures TranslateAll([a, b], mappings) == Prefixed(TranslatePiece(a, mappings).value, TranslatePiece(b, mappings))
  {
    assert [a, b][1..] == [b];
    LastOne(b, mappings);
  }

  /* ------------------------------------------------------------------ what is promised */

  /** Unquoted text: replacing root after root is one pass that takes the longest root at each place and keeps
      all text outside the replaced roots, for every text exactly when the host paths are undisturbed. */
  lemma UnquotedIsOnePass(mappings: seq<Mapping>)
    requires Roots(mappings) && PlainRules(RulesOf(mappings))
    ensures (forall text: string :: TranslateUnquoted(text, mappings) == Render(OnePass(text, Start, RulesOf(mappings))))
      <==> Undisturbed(RulesOf(mappings))
    ensures forall text: string :: Sources(OnePass(text, Start, RulesOf(mappings))) == text
  {
    var rules := RulesOf(mappings);
    SequenceIsOnePass(rules);
    forall text: string
      ensures Sources(OnePass(text, Start, rules)) == text && TranslateUnquoted(text, mappings) == Sequence(text, rules)
    {
      OnePassKeepsText(text, Start, rules);
    }
  }

  /** A quoted piece that a shell takes literally: afterwards it stands for the translation of what it stood
      for, and a piece of another kind is left as it is. */
  lemma QuotedStandsForHost(quote: char, content: string, mappings: seq<Mapping>)
    requires IsQuote(quote) && (quote in content ==> quote == '"' && HasSpecial(content))
    ensures var word := [quote] + content + [quote];
      var after := TranslateQuoted(quote, content, mappings);
      && (after.None? <==> Translate(mappings, content).Unsafe?)
      && (quote == '"' && HasSpecial(content) && after.Some? ==> after.value == word)
      && (!(quote == '"' && HasSpecial(content)) ==> Dequote(word) == Some(content))
      && (!(quote == '"' && HasSpecial(content)) && after.Some? ==>
            Dequote(after.value) == Some(if Translate(mappings, content).Host? then Translate(mappings, content).path else content))
  {
    if !(quote == '"' && HasSpecial(content)) {
      DequoteWord(quote, content);
      var t := Translate(mappings, content);
      if t.Host? {
        if quote !in t.path && !(quote == '"' && HasSpecial(t.path)) {
          DequoteWord(quote, t.path);
        } else {
          QuoteRoundTrip(t.path);
        }
      }
    }
  }

  /** A quote inside a quoted piece is a double quote behind a backslash. */
  lemma {:induction false} CloseSkips(c: string, quote: char, i: nat)
    requires CloseOf(c, quote, i) < |c|
    ensures var end := CloseOf(c, quote, i);
      forall k | i <= k < end && c[k] == quote :: quote == '"' && exists j | i <= j < k :: c[j] == '\\'
    decreases |c| - i
  {
    if i < |c| && c[i] != quote {
      var next := if quote == '"' && c[i] == '\\' then i + 2 else i + 1;
      CloseSkips(c, quote, next);
      var end := CloseOf(c, quote, i);
      forall k | i <= k < end && c[k] == quote
        ensures quote == '"' && exists j | i <= j < k :: c[j] == '\\'
      {
        if k < next {
          assert c[i] == '\\';
        }
      }
    }
  }

  /** Every quoted piece of a command is one that `QuotedStandsForHost` speaks of. */
  lemma {:induction false} QuotedPieces(c: string, start: nat, index: nat, p: Piece)
    requires start <= index && start <= |c| && p in Cut(c, start, index) && p.Quoted?
    ensures IsQuote(p.quote) && (p.quote in p.content ==> p.quote == '"' && HasSpecial(p.content))
    decreases |c| - index
  {
    if index < |c| && !IsQuote(c[index]) {
      QuotedPieces(c, start, if c[index] == '\\' then index + 2 else index + 1, p);
    } else if index < |c| {
      var quote, end := c[index], CloseOf(c, c[index], index + 1);
      if end < |c| && p == Quoted(quote, c[index + 1..end]) {
        CloseSkips(c, quote, index + 1);
        if quote in p.content {
          var k :| 0 <= k < |p.content| && p.content[k] == quote;
          assert c[index + 1 + k] == quote;
          var j :| index + 1 <= j < index + 1 + k && c[j] == '\\';
          assert Special(p.content[j - index - 1]);
        }
      } else if end < |c| {
        QuotedPieces(c, end + 1, end + 1, p);
      }
    }
  }

  lemma DequoteWord(quote: char, content: string)
    requires IsQuote(quote) && quote !in content && !(quote == '"' && HasSpecial(content))
    ensures Dequote([quote] + content + [quote]) == Some(content)
  {
    DequoteRun(quote, content, "");
    assert [quote] + content + [quote] + "" == [quote] + content + [quote] && content + "" == content;
  }

  /** The command names no mapped root. */
  predicate NamesNone(t: string, mappings: seq<Mapping>) { forall m | m in mappings :: !Holds(t, m.virtual) }

  lemma HoldsMore(a: string, t: string, b: string, v: string)
    requires Holds(t, v)
    ensures Holds(a + t + b, v)
  {
    var k :| 0 <= k <= |t| && v <= t[k..];
    var whole := a + t + b;
    assert whole[|a| + k..] == t[k..] + b;
    assert v <= whole[|a| + k..];
  }

  lemma PartNamesNone(a: string, t: string, b: string, mappings: seq<Mapping>)
    requires NamesNone(a + t + b, mappings)
    ensures NamesNone(t, mappings)
  {
    forall m | m in mappings
      ensures !Holds(t, m.virtual)
    {
      if Holds(t, m.virtual) {
        HoldsMore(a, t, b, m.virtual);
      }
    }
  }

  lemma CoversHolds(v: string, value: string)
    ensures Covers(v, value) ==> Holds(value, v)
  {
    if Covers(v, value) {
      assert value[0..] == value && v <= value[0..];
    }
  }

  lemma {:induction false} NotVirtualWithoutRoot(mappings: seq<Mapping>, value: string)
    requires NamesNone(value, mappings)
    ensures Translate(mappings, value).NotVirtual?
  {
    if mappings != [] {
      CoversHolds(mappings[0].virtual, value);
      NotVirtualWithoutRoot(mappings[1..], value);
    }
  }

  lemma PieceUnchanged(p: Piece, mappings: seq<Mapping>)
    requires Roots(mappings) && NamesNone(TextOf(p), mappings)
    ensures TranslatePiece(p, mappings) == Some(TextOf(p))
  {
    match p
    case Unquoted(text) =>
      var rules := RulesOf(mappings);
      forall r | r in rules
        ensures r.root != "" && !Holds(text, r.root)
      {
        var i :| 0 <= i < |rules| && rules[i] == r;
        assert mappings[i] in mappings;
      }
      SequenceLeavesAlone(text, rules);
    case Quoted(quote, content) =>
      PartNamesNone([quote], content, [quote], mappings);
      NotVirtualWithoutRoot(mappings, content);
    case Open(text) =>
  }

  lemma SplitNamesNone(first: string, rest: string, mappings: seq<Mapping>)
    requires NamesNone(first + rest, mappings)
    ensures NamesNone(first, mappings) && NamesNone(rest, mappings)
  {
    assert "" + first + rest == first + rest && first + rest + "" == first + rest;
    PartNamesNone("", first, rest, mappings);
    PartNamesNone(first, rest, "", mappings);
  }

  lemma {:induction false} PiecesUnchanged(pieces: seq<Piece>, mappings: seq<Mapping>)
    requires Roots(mappings) && NamesNone(Texts(pieces), mappings)
    ensures TranslateAll(pieces, mappings) == Some(Texts(pieces))
  {
    if pieces != [] {
      SplitNamesNone(TextOf(pieces[0]), Texts(pieces[1..]), mappings);
      PieceUnchanged(pieces[0], mappings);
      PiecesUnchanged(pieces[1..], mappings);
    }
  }

  /** A command that names no mapped root is returned as it is. */
  lemma NoRootNoChange(command: string, mappings: seq<Mapping>)
    requires Roots(mappings) && NamesNone(command, mappings)
    ensures TranslateAll(Cut(command, 0, 0), mappings) == Some(command)
  {
    PiecesAreCommand(command, 0, 0);
    assert command[0..] == command;
    PiecesUnchanged(Cut(command, 0, 0), mappings);
  }
}
