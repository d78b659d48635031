/** Virtual paths and the host paths they stand for. */
module HostPaths {
  datatype Option<+T> = None | Some(value: T)

  /** A virtual root and the text of its host path. */
  datatype Mapping = Mapping(virtual: string, host: string)

  /** Mappings with the longest virtual root first. */
  predicate LongestFirst(mappings: seq<Mapping>) {
    forall i, j | 0 <= i < j < |mappings| :: |mappings[i].virtual| >= |mappings[j].virtual|
  }

  datatype Literal = NotVirtual | Unsafe | Host(path: string)

  function Slash(s: string, i: nat): (n: nat)
    requires i <= |s|
    ensures i <= n <= |s| && (n < |s| ==> s[n] == '/') && forall k | i <= k < n :: s[k] != '/'
    decreases |s| - i
  {
    if i == |s| || s[i] == '/' then i else Slash(s, i + 1)
  }

  /** The names in a path: empty ones and dots are dropped. */
  function Names(s: string): seq<string>
    decreases |s|
  {
    if s == "" then []
    else
      var n := Slash(s, 0);
      (if n == 0 || s[..n] == "." then [] else [s[..n]]) + Names(if n < |s| then s[n + 1..] else "")
  }

  /** The root of a path: two slashes are one of their own, more than two count as one. */
  function RootOf(s: string): string {
    if "//" <= s && !("///" <= s) then "//" else if "/" <= s then "/" else ""
  }

  /** Appending a path: an absolute one takes the place of what is there. */
  function Under(base: string, path: string): string {
    Chain(if RootOf(path) != "" then RootOf(path) else base, Names(path))
  }

  function Chain(base: string, names: seq<string>): string
    decreases |names|
  {
    if names == [] then base
    else Chain(base + (if base != "" && base[|base| - 1] == '/' then "" else "/") + names[0], names[1..])
  }

  predicate Covers(virtual: string, value: string) { value == virtual || virtual + "/" <= value }

  function TranslateWith(m: Mapping, value: string): Literal
    requires Covers(m.virtual, value)
  {
    if value == m.virtual then Host(m.host)
    else
      var suffix := value[|m.virtual| + 1..];
      if ".." in Names(suffix) then Unsafe else Host(Under(m.host, suffix))
  }

  /** The first mapping that covers the value decides. */
  function Translate(mappings: seq<Mapping>, value: string): Literal {
    if mappings == [] then NotVirtual
    else if Covers(mappings[0].virtual, value) then TranslateWith(mappings[0], value)
    else Translate(mappings[1..], value)
  }

  ghost predicate IsBest(mappings: seq<Mapping>, value: string, best: Mapping) {
    best in mappings && Covers(best.virtual, value) && Translate(mappings, value) == TranslateWith(best, value)
  }

  /** With the longest roots first, the longest covering root decides, and only a value that no root covers
      is left alone. */
  lemma {:induction false} LongestRootDecides(mappings: seq<Mapping>, value: string, m: Mapping)
    requires LongestFirst(mappings) && m in mappings && Covers(m.virtual, value)
    ensures Translate(mappings, value) != NotVirtual
    ensures exists best :: IsBest(mappings, value, best) && |best.virtual| >= |m.virtual|
  {
    if Covers(mappings[0].virtual, value) {
      assert IsBest(mappings, value, mappings[0]);
      var i :| 0 <= i < |mappings| && mappings[i] == m;
    } else {
      LongestRootDecides(mappings[1..], value, m);
      var best :| IsBest(mappings[1..], value, best) && |best.virtual| >= |m.virtual|;
      assert IsBest(mappings, value, best);
    }
  }

  lemma {:induction false} ChainStaysUnder(base: string, names: seq<string>)
    ensures base <= Chain(base, names)
    decreases |names|
  {
    if names != [] {
      ChainStaysUnder(base + (if base != "" && base[|base| - 1] == '/' then "" else "/") + names[0], names[1..]);
    }
  }

  /** A virtual path stays under the host path of its root, unless two slashes follow the root: then the rest
      is taken as an absolute path. */
  lemma TranslatedStaysUnder(m: Mapping, value: string)
    requires Covers(m.virtual, value) && TranslateWith(m, value).Host?
    ensures !(m.virtual + "//" <= value) ==> m.host <= TranslateWith(m, value).path
    ensures m.virtual + "//" <= value ==>
      TranslateWith(m, value).path == Chain(RootOf(value[|m.virtual| + 1..]), Names(value[|m.virtual| + 1..]))
  {
    if value != m.virtual {
      var suffix := value[|m.virtual| + 1..];
      assert value == m.virtual + "/" + suffix;
      assert m.virtual + "//" <= value <==> "/" <= suffix;
      ChainStaysUnder(m.host, Names(suffix));
    }
  }

  /* ------------------------------------------------------------------ the text of a translated path */

  function JoinSlash(parts: seq<string>): string {
    if parts == [] then "" else if |parts| == 1 then parts[0] else parts[0] + "/" + JoinSlash(parts[1..])
  }

  /** Parts of a path: no slash in any. */
  predicate AreParts(parts: seq<string>) { parts != [] && forall i | 0 <= i < |parts| :: '/' !in parts[i] }

  /** The parts that count, in order. */
  function Counting(parts: seq<string>): seq<string> {
    if parts == [] then [] else (if parts[0] == "" || parts[0] == "." then [] else [parts[0]]) + Counting(parts[1..])
  }

  lemma {:induction false} SlashAfter(part: string, rest: string, i: nat)
    requires '/' !in part && i <= |part| && (rest == "" || rest[0] == '/')
    ensures Slash(part + rest, i) == |part|
    decreases |part| - i
  {
    if i < |part| {
      assert (part + rest)[i] == part[i];
      SlashAfter(part, rest, i + 1);
    }
  }

  /** However a path is made of parts, its names are the parts that count, in order. */
  lemma {:induction false} NamesAreCounting(parts: seq<string>)
    requires AreParts(parts)
    ensures Names(JoinSlash(parts)) == Counting(parts)
  {
    var s := JoinSlash(parts);
    if |parts| == 1 {
      SlashAfter(parts[0], "", 0);
      assert parts[0] + "" == parts[0] && Counting(parts[1..]) == [];
    } else {
      var rest := JoinSlash(parts[1..]);
      SlashAfter(parts[0], "/" + rest, 0);
      assert s == parts[0] + ("/" + rest) && s[..|parts[0]|] == parts[0] && s[|parts[0]| + 1..] == rest;
      forall i | 0 <= i < |parts[1..]|
        ensures '/' !in parts[1..][i]
      {
        assert parts[1..][i] == parts[i + 1];
      }
      NamesAreCounting(parts[1..]);
    }
  }

  function Separated(base: string): string { base + if base != "" && base[|base| - 1] == '/' then "" else "/" }

  /** Names are appended one behind the other with a slash between each two of them. */
  lemma {:induction false} ChainIsJoin(base: string, names: seq<string>)
    requires names != [] && forall i | 0 <= i < |names| :: names[i] != "" && '/' !in names[i]
    ensures Chain(base, names) == Separated(base) + JoinSlash(names)
    decreases |names|
  {
    var next := Separated(base) + names[0];
    assert next[|next| - 1] == names[0][|names[0]| - 1];
    if |names| == 1 {
      assert Chain(next, names[1..]) == next;
    } else {
      forall i | 0 <= i < |names[1..]|
        ensures names[1..][i] != "" && '/' !in names[1..][i]
      {
        assert names[1..][i] == names[i + 1];
      }
      ChainIsJoin(next, names[1..]);
      assert Separated(base) + JoinSlash(names) == next + "/" + JoinSlash(names[1..]);
    }
  }

  lemma {:induction false} CountingIsPlain(parts: seq<string>)
    requires AreParts(parts) || parts == []
    ensures forall i | 0 <= i < |Counting(parts)| :: Counting(parts)[i] != "" && '/' !in Counting(parts)[i]
    ensures ".." in Counting(parts) <==> ".." in parts
  {
    if parts != [] {
      assert parts == [parts[0]] + parts[1..];
      CountingIsPlain(parts[1..]);
    }
  }

  /** The host path of a virtual path, character for character: the host path of the root, a slash, and the
      parts of the suffix that count with slashes between them; a parent part is refused. */
  lemma TranslatedText(m: Mapping, parts: seq<string>)
    requires AreParts(parts) && !("/" <= JoinSlash(parts))
    ensures var value := m.virtual + "/" + JoinSlash(parts);
      && Covers(m.virtual, value)
      && TranslateWith(m, value) ==
         if ".." in parts then Unsafe
         else if Counting(parts) == [] then Host(m.host)
         else Host(Separated(m.host) + JoinSlash(Counting(parts)))
  {
    var value := m.virtual + "/" + JoinSlash(parts);
    assert value[|m.virtual| + 1..] == JoinSlash(parts);
    NamesAreCounting(parts);
    CountingIsPlain(parts);
    assert !("//" <= JoinSlash(parts));
    if Counting(parts) != [] {
      ChainIsJoin(m.host, Counting(parts));
    }
  }

  lemma {:induction false} AllCount(parts: seq<string>)
    requires forall i | 0 <= i < |parts| :: parts[i] != "" && parts[i] != "."
    ensures Counting(parts) == parts
  {
    if parts != [] {
      AllCount(parts[1..]);
      assert parts == [parts[0]] + parts[1..];
    }
  }

  /** A suffix of plain names is appended as it is. */
  lemma PlainSuffixIsKept(m: Mapping, parts: seq<string>)
    requires AreParts(parts) && forall i | 0 <= i < |parts| :: parts[i] != "" && parts[i] != "." && parts[i] != ".."
    ensures var value := m.virtual + "/" + JoinSlash(parts);
      Covers(m.virtual, value) && TranslateWith(m, value) == Host(Separated(m.host) + JoinSlash(parts))
  {
    AllCount(parts);
    assert JoinSlash(parts)[0] == parts[0][0];
    TranslatedText(m, parts);
  }
}
