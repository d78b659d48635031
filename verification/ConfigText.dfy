/** What a TOML reader gets from the tables that are written: basic strings as in the section "String" of the
    TOML v1.0.0 specification, arrays of them, and arrays of tables. */
module ConfigText {
  import opened TextLines
  import opened ConfigFile

  datatype Option<+T> = None | Some(value: T)

  /* ------------------------------------------------------------------ basic strings */

  function HexValue(c: char): Option<nat> {
    if '0' <= c <= '9' then Some(c as nat - '0' as nat)
    else if 'a' <= c <= 'f' then Some(c as nat - 'a' as nat + 10)
    else if 'A' <= c <= 'F' then Some(c as nat - 'A' as nat + 10)
    else None
  }

  function HexNumber(digits: string): Option<nat> {
    if digits == "" then Some(0)
    else
      var before, last := HexNumber(digits[..|digits| - 1]), HexValue(digits[|digits| - 1]);
      if before.Some? && last.Some? then Some(16 * before.value + last.value) else None
  }

  /** An escape by number must be a character: halves of a surrogate pair are none. */
  function ReadNumber(t: string, digits: nat): Option<(char, string)> {
    if |t| < digits || HexNumber(t[..digits]).None? then None
    else
      var n := HexNumber(t[..digits]).value;
      if n < 0xD800 || 0xE000 <= n < 0x110000 then Some((n as char, t[digits..])) else None
  }

  /** What follows a backslash. */
  function ReadEscape(t: string): Option<(char, string)> {
    if t == "" then None
    else if t[0] == '\"' || t[0] == '\\' then Some((t[0], t[1..]))
    else if t[0] == 'b' then Some(('\U{0008}', t[1..]))
    else if t[0] == 't' then Some(('\t', t[1..]))
    else if t[0] == 'n' then Some(('\n', t[1..]))
    else if t[0] == 'f' then Some(('\U{000C}', t[1..]))
    else if t[0] == 'r' then Some(('\r', t[1..]))
    else if t[0] == 'u' then ReadNumber(t[1..], 4)
    else if t[0] == 'U' then ReadNumber(t[1..], 8)
    else None
  }

  predicate Control(c: char) { (c < ' ' && c != '\t') || c == '\U{007F}' }

  /** One character of a string: an escape, or a character that is no control. */
  function ReadUnit(t: string): Option<(char, string)>
    requires t != "" && t[0] != '\"'
  {
    if t[0] == '\\' then ReadEscape(t[1..]) else if Control(t[0]) then None else Some((t[0], t[1..]))
  }

  lemma ReadUnitConsumes(t: string)
    requires t != "" && t[0] != '\"' && ReadUnit(t).Some?
    ensures |ReadUnit(t).value.1| < |t|
  {
  }

  /** The text up to the closing quote, and what is behind it. */
  function ReadText(t: string): Option<(string, string)>
    decreases |t|
  {
    if t == "" then None
    else if t[0] == '\"' then Some(("", t[1..]))
    else if ReadUnit(t).None? then None
    else
      ReadUnitConsumes(t);
      var (c, rest) := ReadUnit(t).value;
      var more := ReadText(rest);
      if more.None? then None else Some(([c] + more.value.0, more.value.1))
  }

  function ReadQuoted(t: string): Option<(string, string)> { if t == "" || t[0] != '\"' then None else ReadText(t[1..]) }

  /** What JSON quoting gives that TOML reads: in ASCII form no character beyond U+FFFF, which would become a
      surrogate pair, and otherwise no U+007F, which is left as it is. */
  predicate ReadableChar(c: char, ascii: bool) { if ascii then c as nat < 0x10000 else c != '\U{007F}' }

  predicate Readable(s: string, ascii: bool) { forall i | 0 <= i < |s| :: ReadableChar(s[i], ascii) }

  lemma DigitReads(n: nat)
    requires n < 16
    ensures HexValue(HexDigit(n)) == Some(n)
  {
  }

  lemma HexNumberMore(digits: string, c: char)
    ensures HexNumber(digits + [c]) ==
      if HexNumber(digits).Some? && HexValue(c).Some? then Some(16 * HexNumber(digits).value + HexValue(c).value) else None
  {
    assert (digits + [c])[..|digits|] == digits;
  }

  lemma SixteenTimes(n: nat)
    requires n < 0x10000
    ensures n / 0x1000 < 16 && n == 16 * (16 * (16 * (n / 0x1000) + n / 0x100 % 16) + n / 0x10 % 16) + n % 16
  {
    assert n / 0x10 / 16 == n / 0x100 && n / 0x100 / 16 == n / 0x1000;
  }

  lemma FourChars(w: char, x: char, y: char, z: char)
    requires HexValue(w).Some? && HexValue(x).Some? && HexValue(y).Some? && HexValue(z).Some?
    ensures HexNumber([w, x, y, z]) ==
      Some(16 * (16 * (16 * HexValue(w).value + HexValue(x).value) + HexValue(y).value) + HexValue(z).value)
  {
    HexNumberMore([], w);
    HexNumberMore([w], x);
    HexNumberMore([w, x], y);
    HexNumberMore([w, x, y], z);
    assert [] + [w] == [w] && [w] + [x] == [w, x] && [w, x] + [y] == [w, x, y] && [w, x, y] + [z] == [w, x, y, z];
  }

  lemma Hex4Reads(n: nat)
    requires n < 0x10000
    ensures HexNumber(Hex4(n)) == Some(n)
  {
    SixteenTimes(n);
    DigitReads(n / 0x1000);
    DigitReads(n / 0x100 % 16);
    DigitReads(n / 0x10 % 16);
    DigitReads(n % 16);
    FourChars(HexDigit(n / 0x1000), HexDigit(n / 0x100 % 16), HexDigit(n / 0x10 % 16), HexDigit(n % 16));
  }

  lemma NumberReads(n: nat, tail: string)
    requires n < 0x10000
    ensures ReadEscape("u" + Hex4(n) + tail) == if 0xD800 <= n < 0xE000 then None else Some((n as char, tail))
  {
    var t := "u" + Hex4(n) + tail;
    Hex4Reads(n);
    assert t[1..][..4] == Hex4(n) && t[1..][4..] == tail;
  }

  lemma BackslashReads(escape: string, tail: string)
    requires escape != "" && escape[0] == '\\'
    ensures ReadUnit(escape + tail) == ReadEscape(escape[1..] + tail)
  {
    assert (escape + tail)[1..] == escape[1..] + tail;
  }

  lemma OneEscapeReads(n: nat, tail: string)
    requires n < 0x10000
    ensures ReadUnit("\\u" + Hex4(n) + tail) == if 0xD800 <= n < 0xE000 then None else Some((n as char, tail))
  {
    var escape := "\\u" + Hex4(n);
    BackslashReads(escape, tail);
    NumberReads(n, tail);
    assert escape[1..] == "u" + Hex4(n);
  }

  lemma UnicodeReads(c: char, tail: string)
    ensures ReadUnit(UnicodeEscape(c) + tail) == if c as nat < 0x10000 then Some((c, tail)) else None
  {
    var n := c as nat;
    if n < 0x10000 {
      OneEscapeReads(n, tail);
    } else {
      var high, low := 0xD800 + (n - 0x10000) / 0x400 % 0x400, 0xDC00 + (n - 0x10000) % 0x400;
      OneEscapeReads(high, "\\u" + Hex4(low) + tail);
      PairSplits("\\u" + Hex4(high), "\\u", Hex4(low), tail);
    }
  }

  lemma PairSplits(a: string, b: string, c: string, d: string)
    ensures (a + b + c) + d == a + (b + c + d)
  {
  }

  lemma UnitReads(c: char, ascii: bool, tail: string)
    ensures var t := Escape(c, ascii) + tail;
      t[0] != '\"' && ReadUnit(t) == if ReadableChar(c, ascii) then Some((c, tail)) else None
  {
    var t := Escape(c, ascii) + tail;
    if Escape(c, ascii) == UnicodeEscape(c) {
      UnicodeReads(c, tail);
    } else if |Escape(c, ascii)| == 2 {
      assert t[1..][1..] == tail;
    } else {
      assert t == [c] + tail && t[1..] == tail;
    }
  }

  /** One unit and then the rest. */
  lemma TextStep(t: string, c: char, rest: string)
    requires t != "" && t[0] != '\"' && ReadUnit(t) == Some((c, rest))
    ensures ReadText(t) == if ReadText(rest).None? then None else Some(([c] + ReadText(rest).value.0, ReadText(rest).value.1))
  {
    ReadUnitConsumes(t);
  }

  lemma TextFails(t: string)
    requires t != "" && t[0] != '\"' && ReadUnit(t).None?
    ensures ReadText(t).None?
  {
  }

  lemma EscapeFirst(s: string, ascii: bool, tail: string)
    requires s != ""
    ensures EscapeAll(s, ascii) + tail == Escape(s[0], ascii) + (EscapeAll(s[1..], ascii) + tail)
  {
  }

  lemma ReadableFirst(s: string, ascii: bool)
    requires s != ""
    ensures Readable(s, ascii) <==> ReadableChar(s[0], ascii) && Readable(s[1..], ascii)
  {
    assert s == [s[0]] + s[1..];
  }

  lemma {:induction false} TextReads(s: string, ascii: bool, tail: string)
    ensures ReadText(EscapeAll(s, ascii) + ("\"" + tail)) == if Readable(s, ascii) then Some((s, tail)) else None
  {
    if s == "" {
      assert EscapeAll(s, ascii) + ("\"" + tail) == "\"" + tail && ("\"" + tail)[1..] == tail;
    } else {
      TextReads(s[1..], ascii, tail);
      FirstReads(s, ascii, tail, EscapeAll(s[1..], ascii) + ("\"" + tail));
    }
  }

  lemma FirstReads(s: string, ascii: bool, tail: string, rest: string)
    requires s != "" && rest == EscapeAll(s[1..], ascii) + ("\"" + tail)
    requires ReadText(rest) == if Readable(s[1..], ascii) then Some((s[1..], tail)) else None
    ensures ReadText(EscapeAll(s, ascii) + ("\"" + tail)) == if Readable(s, ascii) then Some((s, tail)) else None
  {
    var t := Escape(s[0], ascii) + rest;
    EscapeFirst(s, ascii, "\"" + tail);
    ReadableFirst(s, ascii);
    UnitReads(s[0], ascii, rest);
    if ReadableChar(s[0], ascii) {
      TextStep(t, s[0], rest);
      assert s == [s[0]] + s[1..];
    } else {
      TextFails(t);
    }
  }

  /** A quoted text is read back as it was, if and only if it is readable; otherwise it is not read at all. */
  lemma QuoteReadsBack(s: string, ascii: bool, tail: string)
    ensures ReadQuoted(Quote(s, ascii) + tail) == if Readable(s, ascii) then Some((s, tail)) else None
  {
    TextReads(s, ascii, tail);
    assert (Quote(s, ascii) + tail)[1..] == EscapeAll(s, ascii) + ("\"" + tail);
  }

  lemma ReadTextConsumes(t: string)
    requires ReadText(t).Some?
    ensures |ReadText(t).value.1| < |t|
    decreases |t|
  {
    if t[0] != '\"' {
      ReadUnitConsumes(t);
      ReadTextConsumes(ReadUnit(t).value.1);
    }
  }

  /* ------------------------------------------------------------------ values and lines */

  datatype Value = Text(s: string) | Texts(items: seq<string>) | Yes

  /** The items of a list up to its bracket. */
  function ReadItems(t: string): Option<(seq<string>, string)>
    decreases |t|
  {
    var first := ReadQuoted(t);
    if first.None? then None
    else
      ReadTextConsumes(t[1..]);
      var (item, rest) := first.value;
      if "]" <= rest then Some(([item], rest[1..]))
      else if !(", " <= rest) then None
      else
        var more := ReadItems(rest[2..]);
        if more.None? then None else Some(([item] + more.value.0, more.value.1))
  }

  function ReadList(t: string): Option<(seq<string>, string)> {
    if "[]" <= t then Some(([], t[2..])) else if "[" <= t then ReadItems(t[1..]) else None
  }

  /** A whole value: a text, a list of texts, or true. */
  function ReadValue(v: string): Option<Value> {
    if v == "true" then Some(Yes)
    else if "\"" <= v then if ReadQuoted(v).Some? && ReadQuoted(v).value.1 == "" then Some(Text(ReadQuoted(v).value.0)) else None
    else if ReadList(v).Some? && ReadList(v).value.1 == "" then Some(Texts(ReadList(v).value.0))
    else None
  }

  predicate AllReadable(items: seq<string>) { forall i | 0 <= i < |items| :: Readable(items[i], false) }

  lemma LastItem(t: string, read: Option<(string, string)>)
    requires ReadQuoted(t) == read && (read.Some? ==> "]" <= read.value.1)
    ensures ReadItems(t) == if read.None? then None else Some(([read.value.0], read.value.1[1..]))
  {
  }

  lemma NextItem(t: string, read: Option<(string, string)>)
    requires ReadQuoted(t) == read && (read.Some? ==> ", " <= read.value.1)
    ensures read.None? ==> ReadItems(t).None?
    ensures read.Some? ==>
      var more := ReadItems(read.value.1[2..]);
      ReadItems(t) == if more.None? then None else Some(([read.value.0] + more.value.0, more.value.1))
  {
    if read.Some? {
      ReadTextConsumes(t[1..]);
      assert read.value.1[0] == ", "[0] && "]"[0] != ", "[0];
    }
  }

  lemma QuoteItemsMore(items: seq<string>, tail: string)
    requires |items| > 1
    ensures QuoteItems(items) + tail == Quote(items[0], false) + (", " + (QuoteItems(items[1..]) + tail))
  {
    ItemsRegrouped(Quote(items[0], false), ", ", QuoteItems(items[1..]), tail);
  }

  lemma ItemsRegrouped(a: string, b: string, c: string, d: string)
    ensures (a + b + c) + d == a + (b + (c + d))
  {
  }

  lemma QuoteItemsBegin(items: seq<string>)
    requires items != []
    ensures QuoteItems(items) != "" && QuoteItems(items)[0] == '\"'
  {
  }

  lemma {:induction false} ItemsRead(items: seq<string>, tail: string)
    requires items != []
    ensures ReadItems(QuoteItems(items) + ("]" + tail)) == if AllReadable(items) then Some((items, tail)) else None
  {
    if |items| == 1 {
      QuoteReadsBack(items[0], false, "]" + tail);
      assert ("]" + tail)[1..] == tail && items == [items[0]];
      LastItem(QuoteItems(items) + ("]" + tail), ReadQuoted(QuoteItems(items) + ("]" + tail)));
    } else {
      var rest := QuoteItems(items[1..]) + ("]" + tail);
      ItemsRead(items[1..], tail);
      MoreItemsRead(items, tail, rest);
    }
  }

  lemma MoreItemsRead(items: seq<string>, tail: string, rest: string)
    requires |items| > 1 && rest == QuoteItems(items[1..]) + ("]" + tail)
    requires ReadItems(rest) == if AllReadable(items[1..]) then Some((items[1..], tail)) else None
    ensures ReadItems(QuoteItems(items) + ("]" + tail)) == if AllReadable(items) then Some((items, tail)) else None
  {
    var t := Quote(items[0], false) + (", " + rest);
    QuoteItemsMore(items, "]" + tail);
    QuoteReadsBack(items[0], false, ", " + rest);
    assert (", " + rest)[2..] == rest;
    NextItem(t, ReadQuoted(t));
    assert items == [items[0]] + items[1..];
    assert AllReadable(items) <==> Readable(items[0], false) && AllReadable(items[1..]);
  }

  lemma ListReads(items: seq<string>, tail: string)
    ensures ReadList(QuoteList(items) + tail) == if AllReadable(items) then Some((items, tail)) else None
  {
    var t := QuoteList(items) + tail;
    if items == [] {
      assert t == "[]" + tail && t[2..] == tail;
    } else {
      ItemsRead(items, tail);
      QuoteItemsBegin(items);
      assert t == "[" + (QuoteItems(items) + ("]" + tail));
      assert t[1..] == QuoteItems(items) + ("]" + tail) && t[1] == '\"';
    }
  }

  lemma TextValueReads(s: string, ascii: bool)
    ensures ReadValue(Quote(s, ascii)) == if Readable(s, ascii) then Some(Text(s)) else None
  {
    QuoteReadsBack(s, ascii, "");
    assert Quote(s, ascii) + "" == Quote(s, ascii) && Quote(s, ascii)[0] == '\"' && "true"[0] == 't';
  }

  lemma ListValueReads(items: seq<string>)
    ensures ReadValue(QuoteList(items)) == if AllReadable(items) then Some(Texts(items)) else None
  {
    ListReads(items, "");
    assert QuoteList(items) + "" == QuoteList(items) && QuoteList(items)[0] == '[' && "true"[0] == 't';
  }

  function KeyEnd(line: string): (n: nat)
    ensures n <= |line|
  {
    if line == "" || line[0] == ' ' then 0 else 1 + KeyEnd(line[1..])
  }

  /** A key and its value. */
  function ReadEntry(line: string): Option<(string, Value)> {
    var n := KeyEnd(line);
    if !(" = " <= line[n..]) || ReadValue(line[n + 3..]).None? then None else Some((line[..n], ReadValue(line[n + 3..]).value))
  }

  lemma {:induction false} KeyEnds(key: string, rest: string)
    requires ' ' !in key && " " <= rest
    ensures KeyEnd(key + rest) == |key|
  {
    if key == "" {
      assert key + rest == rest;
    } else {
      KeyEnds(key[1..], rest);
      assert (key + rest)[1..] == key[1..] + rest;
    }
  }

  lemma EntryReads(key: string, value: string)
    requires ' ' !in key
    ensures ReadEntry(key + " = " + value) == if ReadValue(value).None? then None else Some((key, ReadValue(value).value))
  {
    var line := key + " = " + value;
    KeyEnds(key, " = " + value);
    assert line == key + (" = " + value);
    assert line[|key|..] == " = " + value && line[|key| + 3..] == value && line[..|key|] == key;
  }

  /* ------------------------------------------------------------------ tables */

  datatype Table = Table(name: string, entries: map<string, Value>)

  /** The name in a header line, without its line feed. */
  function ReadHeader(line: string): Option<string> {
    if "[[" <= line && |line| >= 4 && line[|line| - 2..] == "]]" then Some(line[2..|line| - 2]) else None
  }

  /** One more line: a header opens a table, and an entry with a new key belongs to the last one. */
  function ReadLine(tables: seq<Table>, line: string): Option<seq<Table>> {
    if line == "\n" then Some(tables)
    else if line == "" || line[|line| - 1] != '\n' then None
    else
      var body, n := line[..|line| - 1], |tables|;
      if ReadHeader(body).Some? then Some(tables + [Table(ReadHeader(body).value, map[])])
      else if n == 0 || ReadEntry(body).None? || ReadEntry(body).value.0 in tables[n - 1].entries then None
      else
        var (key, value) := ReadEntry(body).value;
        Some(tables[..n - 1] + [Table(tables[n - 1].name, tables[n - 1].entries[key := value])])
  }

  function ReadTables(lines: seq<string>): Option<seq<Table>> {
    if lines == [] then Some([])
    else
      var before := ReadTables(lines[..|lines| - 1]);
      if before.None? then None else ReadLine(before.value, lines[|lines| - 1])
  }

  /** Entries added to those of a table. */
  function ReadEntries(entries: map<string, Value>, values: seq<string>): Option<map<string, Value>>
    decreases |values|
  {
    if values == [] then Some(entries)
    else
      var first := ReadEntry(values[0]);
      if first.None? || first.value.0 in entries then None else ReadEntries(entries[first.value.0 := first.value.1], values[1..])
  }

  /** No value line is taken for a header or an empty line. */
  predicate Entries(values: seq<string>) { forall v | v in values :: v != "" && v[0] != '[' }

  lemma ReadMore(lines: seq<string>, line: string)
    ensures ReadTables(lines + [line]) == if ReadTables(lines).None? then None else ReadLine(ReadTables(lines).value, line)
  {
    assert (lines + [line])[..|lines|] == lines;
  }

  lemma {:induction false} FailsFrom(lines: seq<string>, more: seq<string>)
    requires ReadTables(lines).None?
    ensures ReadTables(lines + more).None?
    decreases |more|
  {
    if more == [] {
      assert lines + more == lines;
    } else {
      ReadMore(lines, more[0]);
      FailsFrom(lines + [more[0]], more[1..]);
      assert lines + more == (lines + [more[0]]) + more[1..];
    }
  }

  lemma EntryLine(v: string)
    requires v != "" && v[0] != '['
    ensures v + "\n" != "\n" && (v + "\n")[|v + "\n"| - 1] == '\n' && (v + "\n")[..|v + "\n"| - 1] == v && ReadHeader(v).None?
  {
    assert (v + "\n")[0] == v[0];
    assert "[["[0] == '[';
  }

  lemma EntryLineReads(before: seq<Table>, last: Table, v: string)
    requires v != "" && v[0] != '['
    ensures var first := ReadEntry(v);
      ReadLine(before + [last], v + "\n") ==
        if first.None? || first.value.0 in last.entries then None
        else Some(before + [Table(last.name, last.entries[first.value.0 := first.value.1])])
  {
    EntryLine(v);
    assert (before + [last])[..|before|] == before && (before + [last])[|before|] == last;
  }

  /** The values of a table are read one after the other. */
  lemma {:induction false} ValuesRead(lines: seq<string>, before: seq<Table>, last: Table, values: seq<string>)
    requires ReadTables(lines) == Some(before + [last]) && Entries(values)
    ensures var entries := ReadEntries(last.entries, values);
      ReadTables(lines + Fed(values)) == if entries.None? then None else Some(before + [Table(last.name, entries.value)])
    decreases |values|
  {
    if values == [] {
      assert lines + Fed(values) == lines;
    } else {
      var line, first := values[0] + "\n", ReadEntry(values[0]);
      FirstValueReads(lines, before, last, values);
      Behind(lines, line, Fed(values[1..]));
      RestIsEntries(values);
      if first.None? || first.value.0 in last.entries {
        FailsFrom(lines + [line], Fed(values[1..]));
      } else {
        ValuesRead(lines + [line], before, Table(last.name, last.entries[first.value.0 := first.value.1]), values[1..]);
      }
    }
  }

  lemma FirstValueReads(lines: seq<string>, before: seq<Table>, last: Table, values: seq<string>)
    requires values != [] && ReadTables(lines) == Some(before + [last]) && Entries(values)
    ensures var first := ReadEntry(values[0]);
      ReadTables(lines + [values[0] + "\n"]) ==
        if first.None? || first.value.0 in last.entries then None
        else Some(before + [Table(last.name, last.entries[first.value.0 := first.value.1])])
  {
    assert values[0] in values;
    EntryLineReads(before, last, values[0]);
    ReadMore(lines, values[0] + "\n");
  }

  lemma Behind<T>(a: seq<T>, x: T, b: seq<T>)
    ensures a + ([x] + b) == (a + [x]) + b
  {
  }

  lemma RestIsEntries(values: seq<string>)
    requires Entries(values) && values != []
    ensures Entries(values[1..])
  {
    forall u | u in values[1..]
      ensures u != "" && u[0] != '['
    {
      assert u in values;
    }
  }

  /** A header line as it is written. */
  lemma HeaderReads(tables: seq<Table>, header: string, name: string)
    requires header == "[[" + name + "]]"
    ensures ReadLine(tables, header + "\n") == Some(tables + [Table(name, map[])])
  {
    var line := header + "\n";
    assert line[..|line| - 1] == header && line[|line| - 1] == '\n' && line[0] == '[';
    assert header[|header| - 2..] == "]]" && header[2..|header| - 2] == name && header[..2] == "[[";
  }

  lemma TableIsFed(header: string, values: seq<string>)
    ensures ConfigFile.Table(header, values) == [header + "\n"] + Fed(values)
  {
    assert ([header] + values)[1..] == values;
  }

  lemma HeaderOpens(lines: seq<string>, before: seq<Table>, header: string, name: string)
    requires ReadTables(lines) == Some(before) && header == "[[" + name + "]]"
    ensures ReadTables(lines + [header + "\n"]) == Some(before + [Table(name, map[])])
  {
    HeaderReads(before, header, name);
    ReadMore(lines, header + "\n");
  }

  /** A whole table is read behind those before it. */
  lemma TableReads(lines: seq<string>, before: seq<Table>, header: string, name: string, values: seq<string>)
    requires ReadTables(lines) == Some(before) && Entries(values) && header == "[[" + name + "]]"
    ensures var entries := ReadEntries(map[], values);
      ReadTables(lines + ConfigFile.Table(header, values)) == if entries.None? then None else Some(before + [Table(name, entries.value)])
  {
    HeaderOpens(lines, before, header, name);
    ValuesRead(lines + [header + "\n"], before, Table(name, map[]), values);
    TableIsFed(header, values);
    Behind(lines, header + "\n", Fed(values));
  }

  lemma EmptyLineReads(lines: seq<string>)
    ensures ReadTables(lines + ["\n"]) == ReadTables(lines)
  {
    ReadMore(lines, "\n");
  }

  /** Tables of one kind: a header, the values of each, and what they should be read as. */
  ghost predicate Described(tables: seq<seq<string>>, header: string, name: string, values: seq<seq<string>>) {
    && header == "[[" + name + "]]" && |tables| == |values|
    && forall i | 0 <= i < |tables| :: tables[i] == ConfigFile.Table(header, values[i]) && Entries(values[i])
  }

  /** What the entries of the tables are read as; none when one of them is not read. */
  function ReadAll(name: string, values: seq<seq<string>>): Option<seq<Table>> {
    if values == [] then Some([])
    else
      var before, last := ReadAll(name, values[..|values| - 1]), ReadEntries(map[], values[|values| - 1]);
      if before.None? || last.None? then None else Some(before.value + [Table(name, last.value)])
  }

  /** One more table, with an empty line before it unless it is the first. */
  lemma NextTableReads(lines: seq<string>, before: seq<Table>, table: seq<string>, header: string, name: string,
        values: seq<string>, gap: seq<string>)
    requires ReadTables(lines) == Some(before) && header == "[[" + name + "]]" && Entries(values)
    requires table == ConfigFile.Table(header, values) && (gap == [] || gap == ["\n"])
    ensures ReadTables(lines + gap + table) ==
      if ReadEntries(map[], values).None? then None else Some(before + [Table(name, ReadEntries(map[], values).value)])
  {
    if gap == [] {
      assert lines + gap == lines;
    } else {
      EmptyLineReads(lines);
    }
    TableReads(lines + gap, before, header, name, values);
  }

  lemma Regrouped<T>(lines: seq<T>, a: seq<T>, gap: seq<T>, b: seq<T>)
    ensures lines + (a + gap + b) == (lines + a) + gap + b
  {
  }

  /** Tables with empty lines between them are read in order, behind what is there. */
  lemma {:induction false} SeparatedReads(lines: seq<string>, before: seq<Table>, tables: seq<seq<string>>,
        header: string, name: string, values: seq<seq<string>>)
    requires ReadTables(lines) == Some(before) && Described(tables, header, name, values)
    ensures ReadTables(lines + Separated(tables)) ==
      if ReadAll(name, values).None? then None else Some(before + ReadAll(name, values).value)
  {
    if tables == [] {
      assert lines + Separated(tables) == lines && before + [] == before;
    } else {
      var n := |tables| - 1;
      var init, gap := tables[..n], if n == 0 then [] else ["\n"];
      assert Described(init, header, name, values[..n]);
      SeparatedReads(lines, before, init, header, name, values[..n]);
      Regrouped(lines, Separated(init), gap, tables[n]);
      assert Separated(tables) == Separated(init) + gap + tables[n];
      if ReadAll(name, values[..n]).None? {
        FailsFrom(lines + Separated(init), gap);
        FailsFrom(lines + Separated(init) + gap, tables[n]);
      } else {
        var done := ReadAll(name, values[..n]).value;
        NextTableReads(lines + Separated(init), before + done, tables[n], header, name, values[n], gap);
        if ReadEntries(map[], values[n]).Some? {
          assert before + done + [Table(name, ReadEntries(map[], values[n]).value)] ==
                 before + (done + [Table(name, ReadEntries(map[], values[n]).value)]);
        }
      }
    }
  }

  /* ------------------------------------------------------------------ agents, datasets and mounts */

  /** The value line at a position, and the rest. */
  lemma ReadAt(entries: map<string, Value>, values: seq<string>, i: nat, key: string, equals: string, text: string)
    requires i < |values| && values[i] == equals + text && equals == key + " = " && ' ' !in key
    ensures ReadEntries(entries, values[i..]) ==
      if ReadValue(text).None? || key in entries then None else ReadEntries(entries[key := ReadValue(text).value], values[i + 1..])
  {
    EntryReads(key, text);
    assert values[i..][1..] == values[i + 1..];
  }

  /** Value lines with distinct keys. */
  ghost predicate Lines(values: seq<string>, keys: seq<string>, texts: seq<string>) {
    && |values| == |keys| == |texts|
    && (forall i | 0 <= i < |keys| :: ' ' !in keys[i] && values[i] == keys[i] + " = " + texts[i])
    && (forall i, j | 0 <= i < j < |keys| :: keys[i] != keys[j])
  }

  /** The first entries of such lines. */
  ghost predicate Holds(m: map<string, Value>, keys: seq<string>, texts: seq<string>, n: nat)
    requires n <= |keys| == |texts|
  {
    && (forall i | 0 <= i < n :: keys[i] in m && ReadValue(texts[i]) == Some(m[keys[i]]))
    && (forall key | key in m :: exists i | 0 <= i < n :: keys[i] == key)
  }

  /** All lines are read if and only if all values are. */
  lemma {:induction false} LinesRead(values: seq<string>, keys: seq<string>, texts: seq<string>, n: nat, m: map<string, Value>)
    requires Lines(values, keys, texts) && n <= |values| && Holds(m, keys, texts, n)
    ensures var all := ReadEntries(m, values[n..]);
      && (all.Some? <==> forall i | n <= i < |texts| :: ReadValue(texts[i]).Some?)
      && (all.Some? ==> Holds(all.value, keys, texts, |keys|))
    decreases |values| - n
  {
    if n < |values| {
      ReadAt(m, values, n, keys[n], keys[n] + " = ", texts[n]);
      if ReadValue(texts[n]).Some? {
        HoldsNext(values, keys, texts, n, m);
        LinesRead(values, keys, texts, n + 1, m[keys[n] := ReadValue(texts[n]).value]);
      }
    } else {
      assert values[n..] == [];
    }
  }

  lemma HoldsNext(values: seq<string>, keys: seq<string>, texts: seq<string>, n: nat, m: map<string, Value>)
    requires Lines(values, keys, texts) && n < |values| && Holds(m, keys, texts, n) && ReadValue(texts[n]).Some?
    ensures keys[n] !in m && Holds(m[keys[n] := ReadValue(texts[n]).value], keys, texts, n + 1)
  {
    var next := m[keys[n] := ReadValue(texts[n]).value];
    forall key | key in next
      ensures exists i | 0 <= i < n + 1 :: keys[i] == key
    {
      if key == keys[n] {
        assert keys[n] == key;
      } else {
        var i :| 0 <= i < n && keys[i] == key;
      }
    }
  }

  /** What lines are read as is known from their keys. */
  lemma LinesGive(values: seq<string>, keys: seq<string>, texts: seq<string>, entries: map<string, Value>)
    requires Lines(values, keys, texts)
    requires forall i | 0 <= i < |keys| :: keys[i] in entries && (ReadValue(texts[i]).Some? ==>
          ReadValue(texts[i]).value == entries[keys[i]])
    requires forall key | key in entries :: key in keys
    ensures ReadEntries(map[], values) == if forall i | 0 <= i < |texts| :: ReadValue(texts[i]).Some? then Some(entries) else None
  {
    LinesRead(values, keys, texts, 0, map[]);
    assert values[0..] == values;
    var all := ReadEntries(map[], values);
    if all.Some? {
      assert all.value.Keys == entries.Keys;
      assert all.value == entries;
    }
  }

  function AgentTable(a: Agent): Table {
    Table("acp.agents", map["id" := Text(a.id), "title" := Text(a.title), "command" := Text(a.command)]
                        + if a.args == [] then map[] else map["args" := Texts(a.args)])
  }

  predicate ReadableAgent(a: Agent) {
    Readable(a.id, true) && Readable(a.title, false) && Readable(a.command, false) && AllReadable(a.args)
  }

  lemma AgentGives(a: Agent, values: seq<string>, keys: seq<string>, texts: seq<string>)
    requires Lines(values, keys, texts) && keys == ["id", "title", "command"] + (if a.args == [] then [] else ["args"])
    requires ReadValue(texts[0]) == if Readable(a.id, true) then Some(Text(a.id)) else None
    requires ReadValue(texts[1]) == if Readable(a.title, false) then Some(Text(a.title)) else None
    requires ReadValue(texts[2]) == if Readable(a.command, false) then Some(Text(a.command)) else None
    requires a.args != [] ==> ReadValue(texts[3]) == if AllReadable(a.args) then Some(Texts(a.args)) else None
    ensures ReadEntries(map[], values) == if ReadableAgent(a) then Some(AgentTable(a).entries) else None
  {
    assert keys[0] == "id" && keys[1] == "title" && keys[2] == "command" && (a.args != [] ==> keys[3] == "args");
    LinesGive(values, keys, texts, AgentTable(a).entries);
    assert ReadableAgent(a) <==> forall i | 0 <= i < |texts| :: ReadValue(texts[i]).Some?;
  }

  lemma AgentReads(a: Agent)
    ensures ReadEntries(map[], AgentValues(a)) == if ReadableAgent(a) then Some(AgentTable(a).entries) else None
  {
    var keys := ["id", "title", "command"] + if a.args == [] then [] else ["args"];
    var texts := [Quote(a.id, true), Quote(a.title, false), Quote(a.command, false)] + if a.args == [] then [] else [QuoteList(a.args)];
    TextValueReads(a.id, true);
    TextValueReads(a.title, false);
    TextValueReads(a.command, false);
    ListValueReads(a.args);
    AgentLines(a, keys, texts);
    AgentGives(a, AgentValues(a), keys, texts);
  }

  lemma AgentLines(a: Agent, keys: seq<string>, texts: seq<string>)
    requires keys == ["id", "title", "command"] + if a.args == [] then [] else ["args"]
    requires texts == [Quote(a.id, true), Quote(a.title, false), Quote(a.command, false)] + if a.args == [] then [] else [QuoteList(a.args)]
    ensures Lines(AgentValues(a), keys, texts)
  {
    assert "id = " == "id" + " = " && "title = " == "title" + " = " && "command = " == "command" + " = " && "args = " == "args" + " = ";
  }

  lemma AgentEntries(a: Agent)
    ensures Entries(AgentValues(a))
  {
    forall v | v in AgentValues(a)
      ensures v != "" && v[0] != '['
    {
      assert v == "id = " + Quote(a.id, true) || v == "title = " + Quote(a.title, false) || v == "command = " + Quote(a.command, false)
          || v == "args = " + QuoteList(a.args);
    }
  }

  /** The harbor format is the default and is not written. */
  function DatasetTable(d: Dataset): Table {
    Table("harbor.datasets", map["id" := Text(d.id), "path" := Text(d.path)]
                             + (if d.allowPartial then map["allow_partial" := Yes] else map[])
                             + if d.format == "harbor" then map[] else map["format" := Text(d.format)])
  }

  predicate ReadableDataset(d: Dataset) {
    Readable(d.id, true) && Readable(d.path, true) && (d.format != "harbor" ==> Readable(d.format, true))
  }

  function DatasetKeys(d: Dataset): seq<string> {
    ["id", "path"] + (if d.allowPartial then ["allow_partial"] else []) + if d.format == "harbor" then [] else ["format"]
  }

  function DatasetTexts(d: Dataset): seq<string> {
    [Quote(d.id, true), Quote(d.path, true)] + (if d.allowPartial then ["true"] else [])
    + if d.format == "harbor" then [] else [Quote(d.format, true)]
  }

  lemma DatasetLines(d: Dataset)
    ensures Lines(DatasetValues(d), DatasetKeys(d), DatasetTexts(d))
  {
    assert "id = " == "id" + " = " && "path = " == "path" + " = " && "format = " == "format" + " = ";
    assert "allow_partial = true" == "allow_partial" + " = " + "true";
  }

  lemma DatasetGives(d: Dataset, values: seq<string>, keys: seq<string>, texts: seq<string>)
    requires Lines(values, keys, texts) && keys == DatasetKeys(d)
    requires ReadValue(texts[0]) == if Readable(d.id, true) then Some(Text(d.id)) else None
    requires ReadValue(texts[1]) == if Readable(d.path, true) then Some(Text(d.path)) else None
    requires d.allowPartial ==> ReadValue(texts[2]) == Some(Yes)
    requires d.format != "harbor" ==> ReadValue(texts[|keys| - 1]) == if Readable(d.format, true) then Some(Text(d.format)) else None
    ensures ReadEntries(map[], values) == if ReadableDataset(d) then Some(DatasetTable(d).entries) else None
  {
    assert keys[0] == "id" && keys[1] == "path" && (d.allowPartial ==> keys[2] == "allow_partial");
    assert d.format != "harbor" ==> keys[|keys| - 1] == "format";
    assert |keys| == 2 + (if d.allowPartial then 1 else 0) + (if d.format == "harbor" then 0 else 1);
    LinesGive(values, keys, texts, DatasetTable(d).entries);
    assert ReadableDataset(d) <==> forall i | 0 <= i < |texts| :: ReadValue(texts[i]).Some?;
  }

  lemma DatasetReads(d: Dataset)
    ensures ReadEntries(map[], DatasetValues(d)) == if ReadableDataset(d) then Some(DatasetTable(d).entries) else None
  {
    TextValueReads(d.id, true);
    TextValueReads(d.path, true);
    TextValueReads(d.format, true);
    DatasetLines(d);
    DatasetGives(d, DatasetValues(d), DatasetKeys(d), DatasetTexts(d));
  }

  lemma DatasetEntries(d: Dataset)
    ensures Entries(DatasetValues(d))
  {
    forall v | v in DatasetValues(d)
      ensures v != "" && v[0] != '['
    {
      assert v == "id = " + Quote(d.id, true) || v == "path = " + Quote(d.path, true) || v == "allow_partial = true"
          || v == "format = " + Quote(d.format, true);
    }
  }

  function MountTable(m: Mount): Table {
    Table("harbor.mounts", map["id" := Text(m.id), "path" := Text(m.path)]
                           + if m.datasetIds == [] then map[] else map["dataset_ids" := Texts(m.datasetIds)])
  }

  predicate ReadableMount(m: Mount) { Readable(m.id, true) && Readable(m.path, true) && AllReadable(m.datasetIds) }

  lemma MountLines(m: Mount, keys: seq<string>, texts: seq<string>)
    requires keys == ["id", "path"] + if m.datasetIds == [] then [] else ["dataset_ids"]
    requires texts == [Quote(m.id, true), Quote(m.path, true)] + if m.datasetIds == [] then [] else [QuoteList(m.datasetIds)]
    ensures Lines(MountValues(m), keys, texts)
  {
    assert "id = " == "id" + " = " && "path = " == "path" + " = " && "dataset_ids = " == "dataset_ids" + " = ";
  }

  lemma MountGives(m: Mount, values: seq<string>, keys: seq<string>, texts: seq<string>)
    requires Lines(values, keys, texts) && keys == ["id", "path"] + (if m.datasetIds == [] then [] else ["dataset_ids"])
    requires ReadValue(texts[0]) == if Readable(m.id, true) then Some(Text(m.id)) else None
    requires ReadValue(texts[1]) == if Readable(m.path, true) then Some(Text(m.path)) else None
    requires m.datasetIds != [] ==> ReadValue(texts[2]) == if AllReadable(m.datasetIds) then Some(Texts(m.datasetIds)) else None
    ensures ReadEntries(map[], values) == if ReadableMount(m) then Some(MountTable(m).entries) else None
  {
    assert keys[0] == "id" && keys[1] == "path" && (m.datasetIds != [] ==> keys[2] == "dataset_ids");
    LinesGive(values, keys, texts, MountTable(m).entries);
    assert ReadableMount(m) <==> forall i | 0 <= i < |texts| :: ReadValue(texts[i]).Some?;
  }

  lemma MountReads(m: Mount)
    ensures ReadEntries(map[], MountValues(m)) == if ReadableMount(m) then Some(MountTable(m).entries) else None
  {
    var keys := ["id", "path"] + if m.datasetIds == [] then [] else ["dataset_ids"];
    var texts := [Quote(m.id, true), Quote(m.path, true)] + if m.datasetIds == [] then [] else [QuoteList(m.datasetIds)];
    TextValueReads(m.id, true);
    TextValueReads(m.path, true);
    ListValueReads(m.datasetIds);
    MountLines(m, keys, texts);
    MountGives(m, MountValues(m), keys, texts);
  }

  lemma MountEntries(m: Mount)
    ensures Entries(MountValues(m))
  {
    forall v | v in MountValues(m)
      ensures v != "" && v[0] != '['
    {
      assert v == "id = " + Quote(m.id, true) || v == "path = " + Quote(m.path, true) || v == "dataset_ids = " + QuoteList(m.datasetIds);
    }
  }

  /* ------------------------------------------------------------------ whole sections */

  /** What each of some tables is read as. */
  lemma {:induction false} AllRead(name: string, values: seq<seq<string>>, read: seq<Table>, readable: seq<bool>)
    requires |values| == |read| == |readable|
    requires forall i | 0 <= i < |values| :: read[i].name == name && ReadEntries(map[], values[i]) == if readable[i] then Some(read[i].entries) else None
    ensures ReadAll(name, values) == if forall i | 0 <= i < |readable| :: readable[i] then Some(read) else None
  {
    if values == [] {
      assert read == [];
    } else {
      var n := |values| - 1;
      AllRead(name, values[..n], read[..n], readable[..n]);
      assert read == read[..n] + [read[n]] && read[n] == Table(name, read[n].entries);
      assert (forall i | 0 <= i < |readable| :: readable[i]) <==> readable[n] && forall i | 0 <= i < n :: readable[..n][i];
    }
  }

  function AgentsIn(agents: seq<Agent>): seq<Table> { seq(|agents|, i requires 0 <= i < |agents| => AgentTable(agents[i])) }

  function DatasetsIn(datasets: seq<Dataset>): seq<Table> { seq(|datasets|, i requires 0 <= i < |datasets| => DatasetTable(datasets[i])) }

  function MountsIn(mounts: seq<Mount>): seq<Table> { seq(|mounts|, i requires 0 <= i < |mounts| => MountTable(mounts[i])) }

  function AgentLists(agents: seq<Agent>): (values: seq<seq<string>>)
    ensures |values| == |agents| && forall i | 0 <= i < |agents| :: values[i] == AgentValues(agents[i])
  {
    seq(|agents|, i requires 0 <= i < |agents| => AgentValues(agents[i]))
  }

  predicate ReadableAgents(agents: seq<Agent>) { forall i | 0 <= i < |agents| :: ReadableAgent(agents[i]) }

  lemma AgentsGive(agents: seq<Agent>)
    ensures ReadAll("acp.agents", AgentLists(agents)) == if ReadableAgents(agents) then Some(AgentsIn(agents)) else None
    ensures forall i | 0 <= i < |agents| :: Entries(AgentLists(agents)[i])
  {
    var readable := seq(|agents|, i requires 0 <= i < |agents| => ReadableAgent(agents[i]));
    forall i | 0 <= i < |agents|
      ensures ReadEntries(map[], AgentLists(agents)[i]) == if readable[i] then Some(AgentsIn(agents)[i].entries) else None
      ensures Entries(AgentLists(agents)[i])
    {
      AgentReads(agents[i]);
      AgentEntries(agents[i]);
    }
    AllRead("acp.agents", AgentLists(agents), AgentsIn(agents), readable);
  }

  function DatasetLists(datasets: seq<Dataset>): (values: seq<seq<string>>)
    ensures |values| == |datasets| && forall i | 0 <= i < |datasets| :: values[i] == DatasetValues(datasets[i])
  {
    seq(|datasets|, i requires 0 <= i < |datasets| => DatasetValues(datasets[i]))
  }

  predicate ReadableDatasets(datasets: seq<Dataset>) { forall i | 0 <= i < |datasets| :: ReadableDataset(datasets[i]) }

  lemma DatasetsGive(datasets: seq<Dataset>)
    ensures ReadAll("harbor.datasets", DatasetLists(datasets)) == if ReadableDatasets(datasets) then Some(DatasetsIn(datasets)) else None
    ensures forall i | 0 <= i < |datasets| :: Entries(DatasetLists(datasets)[i])
  {
    var readable := seq(|datasets|, i requires 0 <= i < |datasets| => ReadableDataset(datasets[i]));
    forall i | 0 <= i < |datasets|
      ensures ReadEntries(map[], DatasetLists(datasets)[i]) == if readable[i] then Some(DatasetsIn(datasets)[i].entries) else None
      ensures Entries(DatasetLists(datasets)[i])
    {
      DatasetReads(datasets[i]);
      DatasetEntries(datasets[i]);
    }
    AllRead("harbor.datasets", DatasetLists(datasets), DatasetsIn(datasets), readable);
  }

  function MountLists(mounts: seq<Mount>): (values: seq<seq<string>>)
    ensures |values| == |mounts| && forall i | 0 <= i < |mounts| :: values[i] == MountValues(mounts[i])
  {
    seq(|mounts|, i requires 0 <= i < |mounts| => MountValues(mounts[i]))
  }

  predicate ReadableMounts(mounts: seq<Mount>) { forall i | 0 <= i < |mounts| :: ReadableMount(mounts[i]) }

  lemma MountsGive(mounts: seq<Mount>)
    ensures ReadAll("harbor.mounts", MountLists(mounts)) == if ReadableMounts(mounts) then Some(MountsIn(mounts)) else None
    ensures forall i | 0 <= i < |mounts| :: Entries(MountLists(mounts)[i])
  {
    var readable := seq(|mounts|, i requires 0 <= i < |mounts| => ReadableMount(mounts[i]));
    forall i | 0 <= i < |mounts|
      ensures ReadEntries(map[], MountLists(mounts)[i]) == if readable[i] then Some(MountsIn(mounts)[i].entries) else None
      ensures Entries(MountLists(mounts)[i])
    {
      MountReads(mounts[i]);
      MountEntries(mounts[i]);
    }
    AllRead("harbor.mounts", MountLists(mounts), MountsIn(mounts), readable);
  }

  lemma AgentsDescribed(agents: seq<Agent>)
    ensures Described(AgentTables(agents), AGENT_HEADER, "acp.agents", AgentLists(agents))
  {
    assert AGENT_HEADER == "[[" + "acp.agents" + "]]";
    AgentsGive(agents);
    forall i | 0 <= i < |agents|
      ensures AgentTables(agents)[i] == ConfigFile.Table(AGENT_HEADER, AgentLists(agents)[i])
    {
    }
  }

  /** The rendered tables of agents are read back, in order and value for value, if and only if all their texts
      are readable; otherwise they are not read at all. */
  lemma AgentsAreRead(agents: seq<Agent>)
    ensures ReadTables(Separated(AgentTables(agents))) == if ReadableAgents(agents) then Some(AgentsIn(agents)) else None
  {
    AgentsGive(agents);
    AgentsDescribed(agents);
    SeparatedReads([], [], AgentTables(agents), AGENT_HEADER, "acp.agents", AgentLists(agents));
    assert [] + Separated(AgentTables(agents)) == Separated(AgentTables(agents)) && [] + AgentsIn(agents) == AgentsIn(agents);
  }

  lemma DatasetsDescribed(datasets: seq<Dataset>)
    ensures Described(DatasetTables(datasets), DATASET_HEADER, "harbor.datasets", DatasetLists(datasets))
  {
    assert DATASET_HEADER == "[[" + "harbor.datasets" + "]]";
    DatasetsGive(datasets);
    forall i | 0 <= i < |datasets|
      ensures DatasetTables(datasets)[i] == ConfigFile.Table(DATASET_HEADER, DatasetLists(datasets)[i])
    {
    }
  }

  lemma DatasetsAreRead(datasets: seq<Dataset>)
    ensures ReadTables(Separated(DatasetTables(datasets))) == if ReadableDatasets(datasets) then Some(DatasetsIn(datasets)) else None
  {
    DatasetsGive(datasets);
    DatasetsDescribed(datasets);
    SeparatedReads([], [], DatasetTables(datasets), DATASET_HEADER, "harbor.datasets", DatasetLists(datasets));
    assert [] + Separated(DatasetTables(datasets)) == Separated(DatasetTables(datasets)) && [] + DatasetsIn(datasets) == DatasetsIn(datasets);
  }

  lemma MountsDescribed(mounts: seq<Mount>)
    ensures Described(MountTables(mounts), MOUNT_HEADER, "harbor.mounts", MountLists(mounts))
  {
    assert MOUNT_HEADER == "[[" + "harbor.mounts" + "]]";
    MountsGive(mounts);
    forall i | 0 <= i < |mounts|
      ensures MountTables(mounts)[i] == ConfigFile.Table(MOUNT_HEADER, MountLists(mounts)[i])
    {
    }
  }

  lemma MountsReadBehind(lines: seq<string>, before: seq<Table>, mounts: seq<Mount>)
    requires ReadTables(lines) == Some(before)
    ensures ReadTables(lines + Separated(MountTables(mounts))) == if ReadableMounts(mounts) then Some(before + MountsIn(mounts)) else None
  {
    MountsGive(mounts);
    MountsDescribed(mounts);
    SeparatedReads(lines, before, MountTables(mounts), MOUNT_HEADER, "harbor.mounts", MountLists(mounts));
  }

  /** The same for datasets with the mounts behind them. */
  lemma HarborIsRead(datasets: seq<Dataset>, mounts: seq<Mount>)
    ensures ReadTables(Separated(DatasetTables(datasets) + MountTables(mounts))) ==
      if ReadableDatasets(datasets) && ReadableMounts(mounts) then Some(DatasetsIn(datasets) + MountsIn(mounts)) else None
  {
    var gap := if datasets != [] && mounts != [] then ["\n"] else [];
    var upto := Separated(DatasetTables(datasets)) + gap;
    SeparatedAppend(DatasetTables(datasets), MountTables(mounts));
    DatasetsAreRead(datasets);
    if gap == [] {
      assert upto == Separated(DatasetTables(datasets));
    } else {
      EmptyLineReads(Separated(DatasetTables(datasets)));
    }
    if ReadableDatasets(datasets) {
      MountsReadBehind(upto, DatasetsIn(datasets), mounts);
    } else {
      FailsFrom(upto, Separated(MountTables(mounts)));
    }
  }

  /** For example, a dataset whose path holds a character beyond U+FFFF is written as a pair of escapes that no
      reader accepts. */
  lemma WidePathIsNotRead(d: Dataset, i: nat)
    requires i < |d.path| && d.path[i] as nat >= 0x10000
    ensures ReadTables(Separated(DatasetTables([d]))).None?
  {
    DatasetsAreRead([d]);
    assert !ReadableDatasets([d]) by {
      assert !ReadableChar(d.path[i], true) && !ReadableDataset([d][0]);
    }
  }

  /* ------------------------------------------------------------------ headers */

  predicate Spaces(s: string) { forall i | 0 <= i < |s| :: IsSpace(s[i]) }

  lemma {:induction false} SkipsSpaces(spaces: string, x: string)
    requires Spaces(spaces)
    ensures Skip(spaces + x) == Skip(x)
  {
    if spaces == "" {
      assert spaces + x == x;
    } else {
      assert (spaces + x)[1..] == spaces[1..] + x;
      SkipsSpaces(spaces[1..], x);
    }
  }

  lemma {:induction false} SkipSplits(x: string) returns (spaces: string)
    ensures Spaces(spaces) && x == spaces + Skip(x)
  {
    if x != "" && IsSpace(x[0]) {
      var more := SkipSplits(x[1..]);
      spaces := [x[0]] + more;
    } else {
      spaces := "";
    }
  }

  /** A header with spaces between its parts and a comment behind it. */
  function HeaderText(a: string, b: string, name: string, c: string, d: string, comment: string): string {
    a + ("[[" + (b + (name + (c + ("]]" + (d + comment))))))
  }

  predicate IsComment(d: string) { d == "" || (d[0] == '#' && forall i | 0 <= i < |d| - 1 :: d[i] != '\n') }

  /** A line is recognized as a header if and only if it is the name in two brackets, with any spaces before,
      between and behind, and nothing or a comment at the end. */
  lemma HeaderExactly(line: string, name: string)
    requires name != "" && !IsSpace(name[0])
    ensures Header(line, name) <==> exists a, b, c, d, comment ::
      Spaces(a) && Spaces(b) && Spaces(c) && Spaces(d) && IsComment(comment) && line == HeaderText(a, b, name, c, d, comment)
  {
    if Header(line, name) {
      var a := SkipSplits(line);
      var x := Skip(line);
      var b := SkipSplits(x[2..]);
      var y := Skip(x[2..]);
      var c := SkipSplits(y[|name|..]);
      var z := Skip(y[|name|..]);
      var d := SkipSplits(z[2..]);
      HeaderJoins(line, name, x, y, z, a, b, c, d);
    }
    if exists a, b, c, d, comment ::
        Spaces(a) && Spaces(b) && Spaces(c) && Spaces(d) && IsComment(comment) && line == HeaderText(a, b, name, c, d, comment)
    {
      var a, b, c, d, comment :|
        Spaces(a) && Spaces(b) && Spaces(c) && Spaces(d) && IsComment(comment) && line == HeaderText(a, b, name, c, d, comment);
      HeaderIsFound(a, b, name, c, d, comment);
    }
  }

  lemma HeaderJoins(line: string, name: string, x: string, y: string, z: string, a: string, b: string, c: string, d: string)
    requires "[[" <= x && line == a + x && x[2..] == b + y && name <= y && y[|name|..] == c + z && "]]" <= z &&
          z[2..] == d + Skip(z[2..])
    ensures line == HeaderText(a, b, name, c, d, Skip(z[2..]))
  {
    assert x == "[[" + x[2..] && y == name + y[|name|..] && z == "]]" + z[2..];
  }

  lemma HeaderIsFound(a: string, b: string, name: string, c: string, d: string, comment: string)
    requires Spaces(a) && Spaces(b) && Spaces(c) && Spaces(d) && IsComment(comment) && name != "" && !IsSpace(name[0])
    ensures Header(HeaderText(a, b, name, c, d, comment), name)
  {
    var w := d + comment;
    var z := "]]" + w;
    var y := name + (c + z);
    var x := "[[" + (b + y);
    SkipsSpaces(a, x);
    SkipsSpaces(b, y);
    SkipsSpaces(c, z);
    SkipsSpaces(d, comment);
    assert x[2..] == b + y && y[|name|..] == c + z && z[2..] == w;
    assert Skip(x) == x && Skip(y) == y && Skip(z) == z && Skip(comment) == comment;
    assert Closing(z) && Named(y, name) && Opening(x, name);
  }
}
