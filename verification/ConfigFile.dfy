/** The workspace configuration file: the acp.agents and harbor tables and how they are written. */
module ConfigFile {
  import opened TextLines
  import opened LineTables
  import opened TomlTables

  /* ------------------------------------------------------------------ recognizing lines */

  /** `lstrip`. */
  function Skip(x: string): string {
    if x == "" then "" else if IsSpace(x[0]) then Skip(x[1..]) else x
  }

  predicate Blank(line: string) { Skip(line) == "" }

  /** A header of any table. */
  predicate Bracket(line: string) { Skip(line) != "" && Skip(line)[0] == '[' }

  predicate Rest(d: string) { d == "" || (d[0] == '#' && forall i | 0 <= i < |d| - 1 :: d[i] != '\n') }

  predicate Closing(c: string) { "]]" <= c && Rest(Skip(c[2..])) }

  predicate Named(b: string, name: string) { name <= b && Closing(Skip(b[|name|..])) }

  predicate Opening(a: string, name: string) { "[[" <= a && Named(Skip(a[2..]), name) }

  /** `[[name]]`, with spaces anywhere and a comment behind it. */
  predicate Header(line: string, name: string) { Opening(Skip(line), name) }

  predicate AgentHeader(line: string) { Header(line, "acp.agents") }

  predicate HarborHeader(line: string) { Header(line, "harbor.mounts") || Header(line, "harbor.datasets") }

  const AGENT_TABLES := Kinds(Bracket, AgentHeader, Blank)
  const HARBOR_TABLES := Kinds(Bracket, HarborHeader, Blank)

  lemma {:induction false} SkipFeed(x: string)
    ensures Skip(x + "\n") == if Skip(x) == "" then "" else Skip(x) + "\n"
    ensures '\n' !in x ==> '\n' !in Skip(x)
  {
    if x != "" && IsSpace(x[0]) {
      SkipFeed(x[1..]);
      assert (x + "\n")[1..] == x[1..] + "\n";
    } else if x == "" {
      assert ("" + "\n")[1..] == "";
      assert IsSpace((x + "\n")[0]);
    }
  }

  lemma PrefixFeed(p: string, b: string)
    requires '\n' !in p
    ensures p <= b + "\n" <==> p <= b
    ensures p <= b ==> (b + "\n")[|p|..] == b[|p|..] + "\n"
  {
    assert |p| == |b| + 1 ==> p[|b|] != '\n';
  }

  lemma RestFeed(d: string)
    requires '\n' !in d && d != ""
    ensures Rest(d + "\n") == Rest(d)
  {
  }

  lemma ClosingFeed(c: string)
    requires '\n' !in c && c != ""
    ensures Closing(c + "\n") == Closing(c)
  {
    PrefixFeed("]]", c);
    if "]]" <= c {
      SkipFeed(c[2..]);
      if Skip(c[2..]) != "" {
        RestFeed(Skip(c[2..]));
      }
    }
  }

  lemma NamedFeed(b: string, name: string)
    requires '\n' !in b && '\n' !in name
    ensures Named(b + "\n", name) == Named(b, name)
  {
    PrefixFeed(name, b);
    if name <= b {
      var c := Skip(b[|name|..]);
      SkipFeed(b[|name|..]);
      if c != "" {
        ClosingFeed(c);
      }
    }
  }

  lemma OpeningFeed(a: string, name: string)
    requires '\n' !in a && '\n' !in name && name != ""
    ensures Opening(a + "\n", name) == Opening(a, name)
  {
    PrefixFeed("[[", a);
    if "[[" <= a {
      var b := Skip(a[2..]);
      SkipFeed(a[2..]);
      if b != "" {
        NamedFeed(b, name);
      }
    }
  }

  lemma HeaderFeed(x: string, name: string)
    requires '\n' !in x && '\n' !in name && name != ""
    ensures Header(x + "\n", name) == Header(x, name)
  {
    SkipFeed(x);
    if Skip(x) != "" {
      OpeningFeed(Skip(x), name);
    }
  }

  lemma AgentHeaderFeed(x: string)
    requires '\n' !in x
    ensures AgentHeader(x + "\n") == AgentHeader(x)
  {
    HeaderFeed(x, "acp.agents");
  }

  lemma HarborHeaderFeed(x: string)
    requires '\n' !in x
    ensures HarborHeader(x + "\n") == HarborHeader(x)
  {
    HeaderFeed(x, "harbor.mounts");
    HeaderFeed(x, "harbor.datasets");
  }

  lemma LineFeed(x: string)
    requires '\n' !in x
    ensures Bracket(x + "\n") == Bracket(x) && Blank(x + "\n") == Blank(x)
  {
    SkipFeed(x);
    if Skip(x) != "" {
      assert (Skip(x) + "\n")[0] == Skip(x)[0];
    }
  }

  lemma HeadersAreBrackets(x: string)
    requires AgentHeader(x) || HarborHeader(x)
    ensures Bracket(x)
  {
  }

  lemma NoSharedHeader(x: string)
    ensures !(AgentHeader(x) && HarborHeader(x))
  {
  }

  lemma FeedIsBlank()
    ensures Blank("\n")
  {
  }

  lemma AgentKinds()
    ensures Lawful(AGENT_TABLES)
  {
    FeedIsBlank();
    forall x | AgentHeader(x)
      ensures Bracket(x)
    {
      HeadersAreBrackets(x);
    }
    forall x: string | '\n' !in x
      ensures AgentHeader(x + "\n") == AgentHeader(x) && Bracket(x + "\n") == Bracket(x) && Blank(x + "\n") == Blank(x)
    {
      AgentHeaderFeed(x);
      LineFeed(x);
    }
  }

  lemma HarborKinds()
    ensures Lawful(HARBOR_TABLES)
  {
    FeedIsBlank();
    forall x | HarborHeader(x)
      ensures Bracket(x)
    {
      HeadersAreBrackets(x);
    }
    forall x: string | '\n' !in x
      ensures HarborHeader(x + "\n") == HarborHeader(x) && Bracket(x + "\n") == Bracket(x) && Blank(x + "\n") == Blank(x)
    {
      HarborHeaderFeed(x);
      LineFeed(x);
    }
  }

  lemma KindsAreLawful()
    ensures Lawful(AGENT_TABLES) && Lawful(HARBOR_TABLES)
    ensures Foreign(AGENT_TABLES, HarborHeader) && Foreign(HARBOR_TABLES, AgentHeader)
  {
    AgentKinds();
    HarborKinds();
    forall x
      ensures !(AgentHeader(x) && HarborHeader(x))
    {
      NoSharedHeader(x);
    }
    forall x: string | '\n' !in x
      ensures AgentHeader(x + "\n") == AgentHeader(x) && HarborHeader(x + "\n") == HarborHeader(x)
    {
      AgentHeaderFeed(x);
      HarborHeaderFeed(x);
    }
  }

  /* ------------------------------------------------------------------ rendering */

  function HexDigit(n: nat): char
    requires n < 16
  {
    "0123456789abcdef"[n]
  }

  function Hex4(n: nat): string
    requires n < 0x10000
  {
    [HexDigit(n / 0x1000), HexDigit(n / 0x100 % 16), HexDigit(n / 0x10 % 16), HexDigit(n % 16)]
  }

  /** A character as one escape, or as two for a surrogate pair. */
  function UnicodeEscape(c: char): string {
    var n := c as nat;
    if n < 0x10000 then "\\u" + Hex4(n)
    else "\\u" + Hex4(0xD800 + (n - 0x10000) / 0x400 % 0x400) + "\\u" + Hex4(0xDC00 + (n - 0x10000) % 0x400)
  }

  function Escape(c: char, ascii: bool): string {
    if c == '\"' || c == '\\' then ['\\', c]
    else if c == '\n' then "\\n"
    else if c == '\r' then "\\r"
    else if c == '\t' then "\\t"
    else if c == '\U{0008}' then "\\b"
    else if c == '\U{000C}' then "\\f"
    else if c < ' ' || (ascii && c > '~') then UnicodeEscape(c)
    else [c]
  }

  function EscapeAll(s: string, ascii: bool): string {
    if s == "" then "" else Escape(s[0], ascii) + EscapeAll(s[1..], ascii)
  }

  /** `json.dumps` of a string. */
  function Quote(s: string, ascii: bool): string { "\"" + EscapeAll(s, ascii) + "\"" }

  function QuoteItems(items: seq<string>): string {
    if items == [] then ""
    else if |items| == 1 then Quote(items[0], false)
    else Quote(items[0], false) + ", " + QuoteItems(items[1..])
  }

  function QuoteList(items: seq<string>): string { "[" + QuoteItems(items) + "]" }

  datatype Agent = Agent(id: string, title: string, command: string, args: seq<string>)
  datatype Dataset = Dataset(id: string, path: string, allowPartial: bool, format: string)
  datatype Mount = Mount(id: string, path: string, datasetIds: seq<string>)

  /** A value line, without its line feed. */
  function AgentValues(a: Agent): seq<string> {
    ["id = " + Quote(a.id, true), "title = " + Quote(a.title, false), "command = " + Quote(a.command, false)]
    + if a.args == [] then [] else ["args = " + QuoteList(a.args)]
  }

  function DatasetValues(d: Dataset): seq<string> {
    ["id = " + Quote(d.id, true), "path = " + Quote(d.path, true)]
    + (if d.allowPartial then ["allow_partial = true"] else [])
    + if d.format == "harbor" then [] else ["format = " + Quote(d.format, true)]
  }

  function MountValues(m: Mount): seq<string> {
    ["id = " + Quote(m.id, true), "path = " + Quote(m.path, true)]
    + if m.datasetIds == [] then [] else ["dataset_ids = " + QuoteList(m.datasetIds)]
  }

  function Fed(lines: seq<string>): seq<string> {
    if lines == [] then [] else [lines[0] + "\n"] + Fed(lines[1..])
  }

  /** One table: its header and its values. */
  function Table(header: string, values: seq<string>): seq<string> { Fed([header] + values) }

  /** Tables with an empty line between two of them. */
  function Separated(tables: seq<seq<string>>): seq<string> {
    if tables == [] then []
    else Separated(tables[..|tables| - 1]) + (if |tables| == 1 then [] else ["\n"]) + tables[|tables| - 1]
  }

  const AGENT_HEADER := "[[acp.agents]]"
  const DATASET_HEADER := "[[harbor.datasets]]"
  const MOUNT_HEADER := "[[harbor.mounts]]"

  function AgentTables(agents: seq<Agent>): seq<seq<string>> {
    seq(|agents|, i requires 0 <= i < |agents| => Table(AGENT_HEADER, AgentValues(agents[i])))
  }

  function DatasetTables(datasets: seq<Dataset>): seq<seq<string>> {
    seq(|datasets|, i requires 0 <= i < |datasets| => Table(DATASET_HEADER, DatasetValues(datasets[i])))
  }

  function MountTables(mounts: seq<Mount>): seq<seq<string>> {
    seq(|mounts|, i requires 0 <= i < |mounts| => Table(MOUNT_HEADER, MountValues(mounts[i])))
  }

  lemma SeparatedMore(tables: seq<seq<string>>, n: nat)
    requires n < |tables|
    ensures Separated(tables[..n + 1]) == Separated(tables[..n]) + (if n == 0 then [] else ["\n"]) + tables[n]
  {
    assert tables[..n + 1][..n] == tables[..n];
  }

  lemma SeparatedSnoc(tables: seq<seq<string>>, last: seq<string>)
    ensures Separated(tables + [last]) == Separated(tables) + (if tables == [] then [] else ["\n"]) + last
  {
  }

  lemma AssocThree<T>(a: seq<T>, b: seq<T>, c: seq<T>, d: seq<T>)
    ensures (a + b) + c + d == a + (b + c + d)
  {
  }

  lemma SeparatedBehind(a: seq<seq<string>>, init: seq<seq<string>>, last: seq<string>)
    requires Separated(a + init) == Separated(a) + (if a != [] && init != [] then ["\n"] else []) + Separated(init)
    ensures Separated(a + (init + [last])) == Separated(a) + (if a != [] then ["\n"] else []) + Separated(init + [last])
  {
    Assoc(a, init, [last]);
    SeparatedSnoc(a + init, last);
    SeparatedSnoc(init, last);
    if init == [] {
      assert a + init == a && init + [last] == [last];
    } else {
      AssocThree(Separated(a) + (if a != [] then ["\n"] else []), Separated(init), ["\n"], last);
    }
  }

  lemma {:induction false} SeparatedAppend(a: seq<seq<string>>, b: seq<seq<string>>)
    ensures Separated(a + b) == Separated(a) + (if a != [] && b != [] then ["\n"] else []) + Separated(b)
  {
    if b == [] {
      assert a + b == a;
    } else {
      var init, last := b[..|b| - 1], b[|b| - 1];
      SeparatedAppend(a, init);
      SeparatedBehind(a, init, last);
      assert b == init + [last];
    }
  }

  method RenderAgents(agents: seq<Agent>) returns (rendered: seq<string>)
    ensures rendered == Separated(AgentTables(agents))
  {
    ghost var tables := AgentTables(agents);
    rendered := [];
    for index := 0 to |agents|
      invariant rendered == Separated(tables[..index])
    {
      SeparatedMore(tables, index);
      if index != 0 {
        rendered := rendered + ["\n"];
      }
      rendered := rendered + Table(AGENT_HEADER, AgentValues(agents[index]));
    }
    assert tables[..|agents|] == tables;
  }

  method RenderDatasets(datasets: seq<Dataset>) returns (rendered: seq<string>)
    ensures rendered == Separated(DatasetTables(datasets))
  {
    ghost var tables := DatasetTables(datasets);
    rendered := [];
    for index := 0 to |datasets|
      invariant rendered == Separated(tables[..index])
    {
      SeparatedMore(tables, index);
      if index != 0 {
        rendered := rendered + ["\n"];
      }
      rendered := rendered + Table(DATASET_HEADER, DatasetValues(datasets[index]));
    }
    assert tables[..|datasets|] == tables;
  }

  method RenderMounts(mounts: seq<Mount>) returns (rendered: seq<string>)
    ensures rendered == Separated(MountTables(mounts))
  {
    ghost var tables := MountTables(mounts);
    rendered := [];
    for index := 0 to |mounts|
      invariant rendered == Separated(tables[..index])
    {
      SeparatedMore(tables, index);
      if index != 0 {
        rendered := rendered + ["\n"];
      }
      rendered := rendered + Table(MOUNT_HEADER, MountValues(mounts[index]));
    }
    assert tables[..|mounts|] == tables;
  }

  /** The text of the file with the tables of these agents in the place of those before. */
  function WithAgents(raw: string, agents: seq<Agent>): string {
    Rewritten(ReadText(raw), AGENT_TABLES, Separated(AgentTables(agents)))
  }

  function WithHarbor(raw: string, datasets: seq<Dataset>, mounts: seq<Mount>): string {
    Rewritten(ReadText(raw), HARBOR_TABLES, Separated(DatasetTables(datasets) + MountTables(mounts)))
  }

  /** `accepts` says which texts are parsed and validated without an error. */
  method WriteAcpAgents(raw: string, agents: seq<Agent>, accepts: string -> bool) returns (file: string, written: bool)
    ensures written <==> accepts(WithAgents(raw, agents))
    ensures file == if written then WithAgents(raw, agents) else raw
  {
    KindsAreLawful();
    var rendered := RenderAgents(agents);
    var text := Rewrite(ReadText(raw), AGENT_TABLES, rendered);
    written := accepts(text);
    file := if written then text else raw;
  }

  method WriteHarborConfig(raw: string, datasets: seq<Dataset>, mounts: seq<Mount>, accepts: string -> bool)
    returns (file: string, written: bool)
    ensures written <==> accepts(WithHarbor(raw, datasets, mounts))
    ensures file == if written then WithHarbor(raw, datasets, mounts) else raw
  {
    KindsAreLawful();
    var rendered := RenderDatasets(datasets);
    if datasets != [] && mounts != [] {
      rendered := rendered + ["\n"];
    }
    var rest := RenderMounts(mounts);
    rendered := rendered + rest;
    SeparatedAppend(DatasetTables(datasets), MountTables(mounts));
    assert rendered == Separated(DatasetTables(datasets) + MountTables(mounts));
    var text := Rewrite(ReadText(raw), HARBOR_TABLES, rendered);
    written := accepts(text);
    file := if written then text else raw;
  }

  /* ------------------------------------------------------------------ what is rendered reads back */

  predicate NoBreak(s: string) { forall i | 0 <= i < |s| :: !IsBreak(s[i]) }

  predicate PlainChar(c: char) { c != '\U{0085}' && c != '\U{2028}' && c != '\U{2029}' }

  predicate PlainText(s: string) { forall i | 0 <= i < |s| :: PlainChar(s[i]) }

  lemma HexIsPlain(n: nat)
    requires n < 16
    ensures !IsBreak(HexDigit(n))
  {
  }

  lemma Hex4IsPlain(n: nat)
    requires n < 0x10000
    ensures NoBreak(Hex4(n))
  {
    HexIsPlain(n / 0x1000);
    HexIsPlain(n / 0x100 % 16);
    HexIsPlain(n / 0x10 % 16);
    HexIsPlain(n % 16);
  }

  lemma JoinNoBreak(a: string, b: string)
    requires NoBreak(a) && NoBreak(b)
    ensures NoBreak(a + b)
  {
  }

  lemma EscapedUnit(n: nat)
    requires n < 0x10000
    ensures NoBreak("\\u" + Hex4(n))
  {
    Hex4IsPlain(n);
    JoinNoBreak("\\u", Hex4(n));
  }

  lemma UnicodeIsPlain(c: char)
    ensures NoBreak(UnicodeEscape(c))
  {
    var n := c as nat;
    if n < 0x10000 {
      EscapedUnit(n);
    } else {
      var high, low := 0xD800 + (n - 0x10000) / 0x400 % 0x400, 0xDC00 + (n - 0x10000) % 0x400;
      EscapedUnit(high);
      EscapedUnit(low);
      JoinNoBreak("\\u" + Hex4(high), "\\u" + Hex4(low));
      assert UnicodeEscape(c) == ("\\u" + Hex4(high)) + ("\\u" + Hex4(low));
    }
  }

  lemma EscapeIsPlain(c: char, ascii: bool)
    requires ascii || PlainChar(c)
    ensures NoBreak(Escape(c, ascii))
  {
    if c < ' ' || (ascii && c > '~') {
      UnicodeIsPlain(c);
    }
  }

  lemma {:induction false} QuoteIsPlain(s: string, ascii: bool)
    requires ascii || PlainText(s)
    ensures NoBreak(EscapeAll(s, ascii)) && NoBreak(Quote(s, ascii))
  {
    if s != "" {
      EscapeIsPlain(s[0], ascii);
      QuoteIsPlain(s[1..], ascii);
      JoinNoBreak(Escape(s[0], ascii), EscapeAll(s[1..], ascii));
    }
    JoinNoBreak("\"", EscapeAll(s, ascii));
    JoinNoBreak("\"" + EscapeAll(s, ascii), "\"");
  }

  lemma {:induction false} QuoteItemsArePlain(items: seq<string>)
    requires forall s | s in items :: PlainText(s)
    ensures NoBreak(QuoteItems(items))
  {
    if items != [] {
      QuoteIsPlain(items[0], false);
      if |items| > 1 {
        QuoteItemsArePlain(items[1..]);
        JoinNoBreak(Quote(items[0], false), ", ");
        JoinNoBreak(Quote(items[0], false) + ", ", QuoteItems(items[1..]));
      }
    }
  }

  lemma QuoteListIsPlain(items: seq<string>)
    requires forall s | s in items :: PlainText(s)
    ensures NoBreak(QuoteList(items))
  {
    QuoteItemsArePlain(items);
    JoinNoBreak("[", QuoteItems(items));
    JoinNoBreak("[" + QuoteItems(items), "]");
  }

  /** A line that ends with a line feed and has no other break. */
  predicate FeedLine(x: string) { x != "" && x[|x| - 1] == '\n' && NoBreak(x[..|x| - 1]) }

  ghost predicate All(lines: seq<string>, p: string -> bool) { forall x | x in lines :: p(x) }

  predicate FeedEnds(x: string) { x != "" && x[|x| - 1] == '\n' }

  /** Read back, the line holds no header but owned ones. */
  predicate Harmless(line: string, owned: string -> bool) { forall x | x in Split(line) && Bracket(x) :: owned(x) }

  /** What every rendered line is. */
  predicate Written(x: string) { FeedEnds(x) && '\r' !in x }

  predicate Value(v: string) { v != "" && NoBreak(v) && 'a' <= v[0] <= 'z' }

  lemma {:induction false} FedAt(lines: seq<string>)
    ensures |Fed(lines)| == |lines| && forall i | 0 <= i < |lines| :: Fed(lines)[i] == lines[i] + "\n"
  {
    if lines != [] {
      FedAt(lines[1..]);
    }
  }

  lemma ValueLine(v: string)
    requires Value(v)
    ensures FeedLine(v + "\n") && !Bracket(v + "\n")
  {
  }

  lemma HeaderLine(name: string, header: string)
    requires header == "[[" + name + "]]" && NoBreak(name) && name != "" && !IsSpace(name[0])
    ensures FeedLine(header + "\n") && Header(header + "\n", name)
  {
  }

  lemma TableHolds(header: string, values: seq<string>, p: string -> bool)
    ensures All(Table(header, values), p) <==> p(header + "\n") && forall v | v in values :: p(v + "\n")
  {
    var table := Table(header, values);
    FedAt([header] + values);
    if All(table, p) {
      assert table[0] in table;
      forall v | v in values
        ensures p(v + "\n")
      {
        var i :| 0 <= i < |values| && values[i] == v;
        assert table[i + 1] in table;
      }
    }
  }

  lemma AllAppend<T>(a: seq<T>, b: seq<T>)
    ensures forall x :: x in a + b <==> x in a || x in b
  {
  }

  lemma {:induction false} SeparatedHolds(tables: seq<seq<string>>, p: string -> bool)
    requires p("\n")
    ensures All(Separated(tables), p) <==> forall t | t in tables :: All(t, p)
  {
    if tables != [] {
      var init, last := tables[..|tables| - 1], tables[|tables| - 1];
      var between: seq<string> := if |tables| == 1 then [] else ["\n"];
      SeparatedHolds(init, p);
      AllAppend(Separated(init) + between, last);
      AllAppend(Separated(init), between);
      AllAppend(init, [last]);
      assert init + [last] == tables;
      assert All(Separated(tables), p) <==> All(Separated(init), p) && All(last, p);
    }
  }

  lemma FeedEndsLast(first: string)
    requires FeedEnds(first)
    ensures var lines := Split(first);
      Lines(lines) && lines != [] && FeedEnds(lines[|lines| - 1]) && Join(lines) == first
  {
    var lines := Split(first);
    SplitLines(first);
    var init, last := lines[..|lines| - 1], lines[|lines| - 1];
    assert lines == init + [last] && Line(last);
    JoinAppend(init, [last]);
    assert Join([last]) == last && first == Join(init) + last;
    assert first[|first| - 1] == last[|last| - 1];
  }

  lemma SplitFeed(first: string, rest: string)
    requires FeedEnds(first)
    ensures Split(first + rest) == Split(first) + Split(rest)
  {
    FeedEndsLast(first);
    SplitJoin(Split(first), rest);
  }

  /** The lines of what is rendered are the lines of its lines. */
  lemma {:induction false} HarmlessJoin(lines: seq<string>, owned: string -> bool)
    requires forall l | l in lines :: FeedEnds(l)
    ensures (forall x | x in Split(Join(lines)) && Bracket(x) :: owned(x)) <==> forall l | l in lines :: Harmless(l, owned)
  {
    if lines != [] {
      HarmlessJoin(lines[1..], owned);
      SplitFeed(lines[0], Join(lines[1..]));
      assert forall x :: x in Split(Join(lines)) <==> x in Split(lines[0]) || x in Split(Join(lines[1..]));
      assert forall l :: l in lines <==> l == lines[0] || l in lines[1..];
    }
  }

  lemma FeedLineIsLine(x: string)
    requires FeedLine(x)
    ensures Line(x) && Ended(x)
  {
  }

  /** A line that is one when read back. */
  lemma LineIsHarmless(x: string, owned: string -> bool)
    requires FeedLine(x) && (Bracket(x) ==> owned(x))
    ensures Harmless(x, owned)
  {
    FeedLineIsLine(x);
    SplitSingle(x);
  }

  lemma FeedIsHarmless(owned: string -> bool)
    ensures Harmless("\n", owned) && Written("\n")
  {
    FeedIsBlank();
    assert FeedLine("\n") && !Bracket("\n");
    LineIsHarmless("\n", owned);
  }

  /** Whatever the values hold, what is rendered begins with a header of its own. */
  lemma BeginsWithHeader(tables: seq<seq<string>>, k: Kinds)
    requires forall t | t in tables :: t != [] && FeedLine(t[0]) && k.owned(t[0])
    ensures Rendering(Separated(tables), k) && (Separated(tables) == [] <==> tables == [])
  {
    if tables != [] {
      assert tables[0] in tables;
      FirstLine(tables);
      var lines := Separated(tables);
      FeedLineIsLine(lines[0]);
      SplitFirst(lines[0], Join(lines[1..]));
    }
  }

  lemma {:induction false} FirstLine(tables: seq<seq<string>>)
    requires tables != [] && tables[0] != []
    ensures Separated(tables) != [] && Separated(tables)[0] == tables[0][0]
  {
    if |tables| > 1 {
      FirstLine(tables[..|tables| - 1]);
    } else {
      assert Separated(tables[..0]) == [];
    }
  }

  /* ------------------------------------------------------------------ no carriage return is written */

  lemma UnicodeHasNoReturn(c: char)
    ensures '\r' !in UnicodeEscape(c)
  {
    UnicodeIsPlain(c);
  }

  lemma {:induction false} QuoteHasNoReturn(s: string, ascii: bool)
    ensures '\r' !in EscapeAll(s, ascii) && '\r' !in Quote(s, ascii)
  {
    if s != "" {
      QuoteHasNoReturn(s[1..], ascii);
      UnicodeHasNoReturn(s[0]);
    }
  }

  lemma {:induction false} QuoteItemsHaveNoReturn(items: seq<string>)
    ensures '\r' !in QuoteItems(items)
  {
    if items != [] {
      QuoteHasNoReturn(items[0], false);
      if |items| > 1 {
        QuoteItemsHaveNoReturn(items[1..]);
      }
    }
  }

  lemma AgentValuesAreWritten(a: Agent)
    ensures forall v | v in AgentValues(a) :: Written(v + "\n")
  {
    QuoteHasNoReturn(a.id, true);
    QuoteHasNoReturn(a.title, false);
    QuoteHasNoReturn(a.command, false);
    QuoteItemsHaveNoReturn(a.args);
  }

  lemma DatasetValuesAreWritten(d: Dataset)
    ensures forall v | v in DatasetValues(d) :: Written(v + "\n")
  {
    QuoteHasNoReturn(d.id, true);
    QuoteHasNoReturn(d.path, true);
    QuoteHasNoReturn(d.format, true);
  }

  lemma MountValuesAreWritten(m: Mount)
    ensures forall v | v in MountValues(m) :: Written(v + "\n")
  {
    QuoteHasNoReturn(m.id, true);
    QuoteHasNoReturn(m.path, true);
    QuoteItemsHaveNoReturn(m.datasetIds);
  }

  /* ------------------------------------------------------------------ what the writers guarantee */

  /** No line in a value, behind the first, looks like a header of nobody. */
  predicate TameAgent(a: Agent) { forall v | v in AgentValues(a) :: Harmless(v + "\n", AgentHeader) }

  predicate TameMount(m: Mount) { forall v | v in MountValues(m) :: Harmless(v + "\n", HarborHeader) }

  /** No value that is written without ASCII escapes holds a character that `splitlines` breaks at. */
  predicate PlainAgent(a: Agent) { PlainText(a.title) && PlainText(a.command) && forall s | s in a.args :: PlainText(s) }

  predicate PlainMount(m: Mount) { forall s | s in m.datasetIds :: PlainText(s) }

  lemma ValueOf(key: string, quoted: string)
    requires Value(key) && NoBreak(quoted)
    ensures Value(key + quoted)
  {
  }

  lemma ValueIsHarmless(v: string, owned: string -> bool)
    requires Value(v)
    ensures Harmless(v + "\n", owned)
  {
    ValueLine(v);
    LineIsHarmless(v + "\n", owned);
  }

  lemma QuotedValue(key: string, text: string, ascii: bool)
    requires Value(key) && (ascii || PlainText(text))
    ensures Value(key + Quote(text, ascii))
  {
    QuoteIsPlain(text, ascii);
    ValueOf(key, Quote(text, ascii));
  }

  lemma AgentKeys()
    ensures Value("id = ") && Value("title = ") && Value("command = ") && Value("args = ")
  {
  }

  lemma PlainAgentIsTame(a: Agent)
    requires PlainAgent(a)
    ensures TameAgent(a)
  {
    AgentKeys();
    QuotedValue("id = ", a.id, true);
    QuotedValue("title = ", a.title, false);
    QuotedValue("command = ", a.command, false);
    QuoteListIsPlain(a.args);
    ValueOf("args = ", QuoteList(a.args));
    ValueIsHarmless("id = " + Quote(a.id, true), AgentHeader);
    ValueIsHarmless("title = " + Quote(a.title, false), AgentHeader);
    ValueIsHarmless("command = " + Quote(a.command, false), AgentHeader);
    ValueIsHarmless("args = " + QuoteList(a.args), AgentHeader);
  }

  lemma IdAndPathArePlain(id: string, path: string)
    ensures Value("id = " + Quote(id, true)) && Value("path = " + Quote(path, true))
  {
    QuoteIsPlain(id, true);
    QuoteIsPlain(path, true);
    ValueOf("id = ", Quote(id, true));
    ValueOf("path = ", Quote(path, true));
  }

  ghost predicate Values(vs: seq<string>) { forall v | v in vs :: Value(v) }

  lemma OptionalValues(a: string, b: string, on: bool, c: string, also: bool, d: string)
    requires Value(a) && Value(b) && Value(c) && Value(d)
    ensures Values([a, b] + (if on then [c] else []) + (if also then [d] else []))
  {
  }

  lemma PartialIsPlain()
    ensures Value("allow_partial = true")
  {
  }

  lemma DatasetValuesArePlain(d: Dataset)
    ensures Values(DatasetValues(d))
  {
    IdAndPathArePlain(d.id, d.path);
    QuoteIsPlain(d.format, true);
    ValueOf("format = ", Quote(d.format, true));
    PartialIsPlain();
    OptionalValues("id = " + Quote(d.id, true), "path = " + Quote(d.path, true), d.allowPartial, "allow_partial = true",
                   d.format != "harbor", "format = " + Quote(d.format, true));
  }

  lemma DatasetIsTame(d: Dataset)
    ensures forall v | v in DatasetValues(d) :: Harmless(v + "\n", HarborHeader)
  {
    DatasetValuesArePlain(d);
    forall v | v in DatasetValues(d)
      ensures Harmless(v + "\n", HarborHeader)
    {
      ValueIsHarmless(v, HarborHeader);
    }
  }

  lemma PlainMountIsTame(m: Mount)
    requires PlainMount(m)
    ensures TameMount(m)
  {
    IdAndPathArePlain(m.id, m.path);
    QuoteListIsPlain(m.datasetIds);
    ValueOf("dataset_ids = ", QuoteList(m.datasetIds));
    forall v | v in MountValues(m)
      ensures Harmless(v + "\n", HarborHeader)
    {
      ValueIsHarmless(v, HarborHeader);
    }
  }

  lemma TableHead(header: string, values: seq<string>)
    ensures Table(header, values) != [] && Table(header, values)[0] == header + "\n"
  {
  }

  /** Tables that begin with their own header, of lines that are written. */
  ghost predicate OwnTables(tables: seq<seq<string>>, k: Kinds) {
    forall t | t in tables :: t != [] && FeedLine(t[0]) && k.owned(t[0]) && All(t, Written)
  }

  lemma TablesReadBack(tables: seq<seq<string>>, k: Kinds)
    requires OwnTables(tables, k) && k.head == Bracket
    ensures Rendering(Separated(tables), k) && forall x | x in Separated(tables) :: Written(x)
    ensures Contained(Separated(tables), k) <==> forall t | t in tables :: All(t, (x: string) => Harmless(x, k.owned))
  {
    var rendered, harmless := Separated(tables), (x: string) => Harmless(x, k.owned);
    BeginsWithHeader(tables, k);
    FeedIsHarmless(k.owned);
    SeparatedHolds(tables, Written);
    SeparatedHolds(tables, harmless);
    HarmlessJoin(rendered, k.owned);
    assert All(rendered, harmless) <==> forall l | l in rendered :: Harmless(l, k.owned);
  }

  /** One table: written, with its own header, and harmless exactly when its values are. */
  lemma TableIsOwn(header: string, name: string, values: seq<string>, owned: string -> bool)
    requires header == "[[" + name + "]]" && NoBreak(name) && name != "" && !IsSpace(name[0])
    requires owned(header + "\n") && forall v | v in values :: Written(v + "\n")
    ensures var t := Table(header, values);
      && t != [] && FeedLine(t[0]) && owned(t[0]) && All(t, Written)
      && (All(t, (x: string) => Harmless(x, owned)) <==> forall v | v in values :: Harmless(v + "\n", owned))
  {
    var harmless := (x: string) => Harmless(x, owned);
    HeaderLine(name, header);
    TableHead(header, values);
    LineIsHarmless(header + "\n", owned);
    assert Written(header + "\n") by {
      assert forall i | 0 <= i < |name| :: name[i] != '\r';
    }
    TableHolds(header, values, Written);
    TableHolds(header, values, harmless);
  }

  lemma AgentTableIsOwn(a: Agent)
    ensures var t := Table(AGENT_HEADER, AgentValues(a));
      && t != [] && FeedLine(t[0]) && AgentHeader(t[0]) && All(t, Written)
      && (All(t, (x: string) => Harmless(x, AgentHeader)) <==> TameAgent(a))
  {
    HeaderLine("acp.agents", AGENT_HEADER);
    AgentValuesAreWritten(a);
    TableIsOwn(AGENT_HEADER, "acp.agents", AgentValues(a), AgentHeader);
  }

  lemma AgentsReadBack(agents: seq<Agent>)
    ensures OwnTables(AgentTables(agents), AGENT_TABLES)
    ensures Contained(Separated(AgentTables(agents)), AGENT_TABLES) <==> forall a | a in agents :: TameAgent(a)
  {
    var tables, harmless := AgentTables(agents), (x: string) => Harmless(x, AgentHeader);
    forall i | 0 <= i < |agents|
      ensures var t := tables[i];
        t != [] && FeedLine(t[0]) && AgentHeader(t[0]) && All(t, Written) && (All(t, harmless) <==> TameAgent(agents[i]))
    {
      AgentTableIsOwn(agents[i]);
    }
    assert OwnTables(tables, AGENT_TABLES);
    TablesReadBack(tables, AGENT_TABLES);
    AllTables(tables, agents, harmless, TameAgent);
  }

  /** The tables have a property exactly when the entries that they are made of have the one that says so. */
  lemma AllTables<T>(tables: seq<seq<string>>, entries: seq<T>, p: string -> bool, q: T -> bool)
    requires |tables| == |entries| && forall i | 0 <= i < |entries| :: All(tables[i], p) <==> q(entries[i])
    ensures (forall t | t in tables :: All(t, p)) <==> forall e | e in entries :: q(e)
  {
    if forall t | t in tables :: All(t, p) {
      forall e | e in entries
        ensures q(e)
      {
        var i :| 0 <= i < |entries| && entries[i] == e;
        assert tables[i] in tables;
      }
    }
    if forall e | e in entries :: q(e) {
      forall t | t in tables
        ensures All(t, p)
      {
        var i :| 0 <= i < |tables| && tables[i] == t;
        assert entries[i] in entries;
      }
    }
  }

  lemma DatasetsReadBack(datasets: seq<Dataset>)
    ensures OwnTables(DatasetTables(datasets), HARBOR_TABLES)
    ensures forall t | t in DatasetTables(datasets) :: All(t, (x: string) => Harmless(x, HarborHeader))
  {
    var tables, harmless := DatasetTables(datasets), (x: string) => Harmless(x, HarborHeader);
    HeaderLine("harbor.datasets", DATASET_HEADER);
    forall i | 0 <= i < |datasets|
      ensures var t := tables[i];
        t != [] && FeedLine(t[0]) && HarborHeader(t[0]) && All(t, Written) && All(t, harmless)
    {
      DatasetValuesAreWritten(datasets[i]);
      DatasetIsTame(datasets[i]);
      TableIsOwn(DATASET_HEADER, "harbor.datasets", DatasetValues(datasets[i]), HarborHeader);
    }
  }

  lemma MountsReadBack(mounts: seq<Mount>)
    ensures OwnTables(MountTables(mounts), HARBOR_TABLES)
    ensures (forall t | t in MountTables(mounts) :: All(t, (x: string) => Harmless(x, HarborHeader))) <==>
          forall m | m in mounts :: TameMount(m)
  {
    var tables, harmless := MountTables(mounts), (x: string) => Harmless(x, HarborHeader);
    HeaderLine("harbor.mounts", MOUNT_HEADER);
    forall i | 0 <= i < |mounts|
      ensures var t := tables[i];
        t != [] && FeedLine(t[0]) && HarborHeader(t[0]) && All(t, Written) && (All(t, harmless) <==> TameMount(mounts[i]))
    {
      MountValuesAreWritten(mounts[i]);
      TableIsOwn(MOUNT_HEADER, "harbor.mounts", MountValues(mounts[i]), HarborHeader);
    }
    AllTables(tables, mounts, harmless, TameMount);
  }

  lemma HarborReadsBack(datasets: seq<Dataset>, mounts: seq<Mount>)
    ensures OwnTables(DatasetTables(datasets) + MountTables(mounts), HARBOR_TABLES)
    ensures Contained(Separated(DatasetTables(datasets) + MountTables(mounts)), HARBOR_TABLES) <==>
          forall m | m in mounts :: TameMount(m)
  {
    var first, second := DatasetTables(datasets), MountTables(mounts);
    DatasetsReadBack(datasets);
    MountsReadBack(mounts);
    AllAppend(first, second);
    TablesReadBack(first + second, HARBOR_TABLES);
  }

  /** Writing the same agents twice gives the text of the first time, exactly when they are tame. */
  lemma WritingAgentsTwice(raw: string, agents: seq<Agent>)
    ensures WithAgents(WithAgents(raw, agents), agents) == WithAgents(raw, agents) <==> forall a | a in agents :: TameAgent(a)
  {
    var text, rendered := ReadText(raw), Separated(AgentTables(agents));
    KindsAreLawful();
    ReadHasNoReturn(raw);
    AgentsReadBack(agents);
    TablesReadBack(AgentTables(agents), AGENT_TABLES);
    RewrittenReadsBack(text, AGENT_TABLES, rendered);
    RewritingTwice(text, AGENT_TABLES, rendered);
  }

  /** Writing tame agents keeps every line of the harbor tables. */
  lemma WritingAgentsKeepsHarbor(raw: string, agents: seq<Agent>)
    requires forall a | a in agents :: TameAgent(a)
    ensures TablesOf(Split(WithAgents(raw, agents)), AGENT_TABLES, HarborHeader) == TablesOf(Split(ReadText(raw)), AGENT_TABLES, HarborHeader)
  {
    var rendered := Separated(AgentTables(agents));
    KindsAreLawful();
    ReadHasNoReturn(raw);
    AgentsReadBack(agents);
    TablesReadBack(AgentTables(agents), AGENT_TABLES);
    forall x | x in Split(Join(rendered)) && Bracket(x)
      ensures !HarborHeader(x)
    {
      NoSharedHeader(x);
    }
    OtherTablesSurvive(ReadText(raw), AGENT_TABLES, rendered, HarborHeader);
  }

  /** Writing the same datasets and mounts twice gives the text of the first time, exactly when the mounts are
      tame. */
  lemma WritingHarborTwice(raw: string, datasets: seq<Dataset>, mounts: seq<Mount>)
    ensures WithHarbor(WithHarbor(raw, datasets, mounts), datasets, mounts) == WithHarbor(raw, datasets, mounts)
      <==> forall m | m in mounts :: TameMount(m)
  {
    var text, rendered := ReadText(raw), Separated(DatasetTables(datasets) + MountTables(mounts));
    KindsAreLawful();
    ReadHasNoReturn(raw);
    HarborReadsBack(datasets, mounts);
    TablesReadBack(DatasetTables(datasets) + MountTables(mounts), HARBOR_TABLES);
    RewrittenReadsBack(text, HARBOR_TABLES, rendered);
    RewritingTwice(text, HARBOR_TABLES, rendered);
  }

  /** Writing datasets and tame mounts keeps every line of the agent tables. */
  lemma WritingHarborKeepsAgents(raw: string, datasets: seq<Dataset>, mounts: seq<Mount>)
    requires forall m | m in mounts :: TameMount(m)
    ensures TablesOf(Split(WithHarbor(raw, datasets, mounts)), HARBOR_TABLES, AgentHeader) ==
      TablesOf(Split(ReadText(raw)), HARBOR_TABLES, AgentHeader)
  {
    var tables := DatasetTables(datasets) + MountTables(mounts);
    KindsAreLawful();
    ReadHasNoReturn(raw);
    HarborReadsBack(datasets, mounts);
    TablesReadBack(tables, HARBOR_TABLES);
    forall x | x in Split(Join(Separated(tables))) && Bracket(x)
      ensures !AgentHeader(x)
    {
      NoSharedHeader(x);
    }
    OtherTablesSurvive(ReadText(raw), HARBOR_TABLES, Separated(tables), AgentHeader);
  }

  /* ------------------------------------------------------------------ where it does not hold */

  const TITLE := "a\U{2028}["
  const ENTRY := Agent("a", TITLE, "c", [])
  const FRONT := "title = \"a\U{2028}"
  const BACK := "[\"\n"

  lemma TitleQuoted()
    ensures "title = " + Quote(TITLE, false) + "\n" == FRONT + BACK
  {
  }

  lemma BackIsForeign()
    ensures FeedLine(BACK) && Bracket(BACK) && !AgentHeader(BACK)
  {
  }

  lemma FrontIsLine()
    ensures Line(FRONT) && Closes(FRONT, BACK) && !Bracket(FRONT)
  {
  }

  /** The line of that title is two lines when read back, the second one a header of nobody. */
  lemma TitleLineSplits()
    ensures Split("title = " + Quote(TITLE, false) + "\n") == [FRONT, BACK]
    ensures Bracket(BACK) && !AgentHeader(BACK)
  {
    TitleQuoted();
    BackIsForeign();
    FrontIsLine();
    FeedLineIsLine(BACK);
    SplitFirst(FRONT, BACK);
    SplitSingle(BACK);
  }

  lemma QuoteLetter(c: char, ascii: bool)
    requires 'a' <= c <= 'z'
    ensures Quote([c], ascii) == "\"" + [c] + "\""
  {
    assert [c][1..] == "" && EscapeAll("", ascii) == "" && Escape(c, ascii) == [c];
    assert EscapeAll([c], ascii) == [c] + "";
  }

  const ID := "id = \"a\""
  const COMMAND := "command = \"c\""

  lemma EntryValues()
    ensures AgentValues(ENTRY) == [ID, "title = " + Quote(TITLE, false), COMMAND]
    ensures Value(ID) && Value(COMMAND)
  {
    QuoteLetter('a', true);
    QuoteLetter('c', false);
    assert ENTRY.id == ['a'] && ENTRY.command == ['c'];
    assert "id = " + ("\"" + ['a'] + "\"") == ID && "command = " + ("\"" + ['c'] + "\"") == COMMAND;
  }

  /** A table with one value that is two lines, the second one a header of nobody. */
  predicate Torn(h: string, i: string, front: string, back: string, c: string, k: Kinds) {
    && FeedLine(h) && FeedLine(i) && Line(front) && FeedLine(back) && FeedLine(c) && Closes(front, back)
    && k.head(h) && k.owned(h) && !k.head(i) && !k.head(front) && k.head(back) && !k.owned(back) && !k.head(c) && !k.blank(c)
  }

  lemma JoinTorn(a: seq<string>, x: string, y: string, b: seq<string>)
    ensures Join(a + [x + y] + b) == Join(a + [x] + [y] + b)
  {
    JoinAppend(a + [x + y], b);
    JoinAppend(a + [x] + [y], b);
    JoinLast(a, x, y);
  }

  lemma TornLines(h: string, i: string, front: string, back: string, c: string, k: Kinds)
    requires Torn(h, i, front, back, c, k)
    ensures Lines([h, i, front, back, c])
  {
    FeedLineIsLine(h);
    FeedLineIsLine(i);
    FeedLineIsLine(back);
    FeedLineIsLine(c);
  }

  lemma TornSplits(h: string, i: string, front: string, back: string, c: string, k: Kinds)
    requires Torn(h, i, front, back, c, k)
    ensures Split(Join([h, i, front + back, c])) == [h, i, front, back, c]
  {
    TornLines(h, i, front, back, c, k);
    SplitWhole([h, i, front, back, c]);
    JoinTorn([h, i], front, back, [c]);
    assert [h, i] + [front + back] + [c] == [h, i, front + back, c] && [h, i] + [front] + [back] + [c] == [h, i, front, back, c];
  }

  lemma TornLeaves(h: string, i: string, front: string, back: string, c: string, k: Kinds)
    requires Torn(h, i, front, back, c, k)
    ensures Kept([h, i, front, back, c], k.head, k.owned) == [back, c]
  {
    var want := Not(k.owned);
    FilterCons(c, [], k.head, want, true);
    FilterCons(back, [c], k.head, want, false);
    FilterCons(front, [back, c], k.head, want, false);
    FilterCons(i, [front, back, c], k.head, want, false);
    FilterCons(h, [i, front, back, c], k.head, want, true);
    assert [c] + [] == [c] && [back] + [c] == [back, c] && [front] + [back, c] == [front, back, c];
    assert [i] + [front, back, c] == [i, front, back, c] && [h] + [i, front, back, c] == [h, i, front, back, c];
    assert [] + [back, c] == [back, c];
  }

  /** Rewriting leaves the end of the torn value in front. */
  lemma TornIsRewritten(h: string, i: string, front: string, back: string, c: string, k: Kinds, rendered: seq<string>)
    requires Torn(h, i, front, back, c, k) && rendered != []
    ensures back <= Rewritten(Join([h, i, front + back, c]), k, rendered)
  {
    TornSplits(h, i, front, back, c, k);
    TornLeaves(h, i, front, back, c, k);
    var left := [back, c];
    assert TrimBlank(left, k.blank) == left && EndLast(left) == left;
    JoinThree(left, rendered);
    assert Join(left) == back + Join([c]);
    var text := Rewritten(Join([h, i, front + back, c]), k, rendered);
    assert text == back + (Join([c]) + "\n" + Join(rendered));
  }

  lemma OneTable(table: seq<string>)
    ensures Separated([table]) == table
  {
    assert [table][..0] == [] && Separated([]) == [];
    assert [] + [] + table == table;
  }

  lemma ThreeValues(header: string, a: string, b: string, c: string)
    ensures Table(header, [a, b, c]) == [header + "\n", a + "\n", b + "\n", c + "\n"]
  {
    FedAt([header] + [a, b, c]);
  }

  lemma EntryRenders()
    ensures Separated(AgentTables([ENTRY])) == [AGENT_HEADER + "\n", ID + "\n", FRONT + BACK, COMMAND + "\n"]
  {
    EntryValues();
    TitleQuoted();
    ThreeValues(AGENT_HEADER, ID, "title = " + Quote(TITLE, false), COMMAND);
    assert AgentTables([ENTRY]) == [Table(AGENT_HEADER, AgentValues(ENTRY))];
    OneTable(Table(AGENT_HEADER, AgentValues(ENTRY)));
  }

  lemma HeaderIsOwned()
    ensures FeedLine(AGENT_HEADER + "\n") && AgentHeader(AGENT_HEADER + "\n") && Bracket(AGENT_HEADER + "\n")
  {
    HeaderLine("acp.agents", AGENT_HEADER);
    HeadersAreBrackets(AGENT_HEADER + "\n");
  }

  lemma ValueIsNoHeader(v: string)
    requires Value(v)
    ensures FeedLine(v + "\n") && !Bracket(v + "\n") && !Blank(v + "\n")
  {
    ValueLine(v);
    NotBlank(v);
  }

  lemma EntryIsTorn()
    ensures Torn(AGENT_HEADER + "\n", ID + "\n", FRONT, BACK, COMMAND + "\n", AGENT_TABLES)
  {
    var h, i, front, back, c := AGENT_HEADER + "\n", ID + "\n", FRONT, BACK, COMMAND + "\n";
    EntryValues();
    BackIsForeign();
    FrontIsLine();
    HeaderIsOwned();
    ValueIsNoHeader(ID);
    ValueIsNoHeader(COMMAND);
    assert Torn(h, i, front, back, c, AGENT_TABLES);
  }

  lemma NotBlank(v: string)
    requires Value(v)
    ensures !Blank(v + "\n")
  {
  }

  /** TOML: a table header is one line, and so is a quoted key in it. */
  ghost predicate RefusesOpenKeys(accepts: string -> bool) { forall rest: string :: !accepts(BACK + rest) }

  /** The first writing into an empty file. */
  lemma FirstText(agents: seq<Agent>)
    ensures var rendered := Separated(AgentTables(agents));
      WithAgents("", agents) == Join(rendered) && ReadText(Join(rendered)) == Join(rendered)
  {
    var rendered := Separated(AgentTables(agents));
    KindsAreLawful();
    AgentsReadBack(agents);
    TablesReadBack(AgentTables(agents), AGENT_TABLES);
    assert Remaining("", AGENT_TABLES) == [] && Placed(EndLast([]), rendered) == rendered;
    RewrittenReadsBack("", AGENT_TABLES, rendered);
  }

  lemma SecondText(agents: seq<Agent>)
    ensures WithAgents(WithAgents("", agents), agents) ==
      Rewritten(Join(Separated(AgentTables(agents))), AGENT_TABLES, Separated(AgentTables(agents)))
  {
    FirstText(agents);
  }

  /** Such an agent can be written once. The next writing makes a text that begins in the middle of its title,
      which is not accepted: the file stays as it is, and no agent can be written any more. */
  lemma SecondWriteFails(accepts: string -> bool)
    requires RefusesOpenKeys(accepts)
    ensures var first := WithAgents("", [ENTRY]);
      BACK <= WithAgents(first, [ENTRY]) && !accepts(WithAgents(first, [ENTRY]))
  {
    var second := WithAgents(WithAgents("", [ENTRY]), [ENTRY]);
    SecondText([ENTRY]);
    EntryRenders();
    EntryIsTorn();
    TornIsRewritten(AGENT_HEADER + "\n", ID + "\n", FRONT, BACK, COMMAND + "\n", AGENT_TABLES, Separated(AgentTables([ENTRY])));
    PrefixIsRefused(second, accepts);
  }

  lemma PrefixIsRefused(text: string, accepts: string -> bool)
    requires RefusesOpenKeys(accepts) && BACK <= text
    ensures !accepts(text)
  {
    assert text == BACK + text[|BACK|..];
  }
}
