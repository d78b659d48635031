/** Tables in a sequence of lines: a header line and the lines up to the next header of any kind. */
module LineTables {
  /** The lines under a wanted header; `on` says whether the lines before the first header are wanted. */
  function Filter<T>(lines: seq<T>, head: T -> bool, want: T -> bool, on: bool): seq<T> {
    if lines == [] then []
    else
      var now := if head(lines[0]) then want(lines[0]) else on;
      (if now then [lines[0]] else []) + Filter(lines[1..], head, want, now)
  }

  function Not<T>(p: T -> bool): T -> bool { line => !p(line) }

  /** Everything but the owned tables. */
  function Kept<T>(lines: seq<T>, head: T -> bool, owned: T -> bool): seq<T> {
    Filter(lines, head, Not(owned), true)
  }

  /** The owned tables alone. */
  function Tables<T>(lines: seq<T>, head: T -> bool, owned: T -> bool): seq<T> {
    Filter(lines, head, owned, false)
  }

  ghost predicate Headers<T(!new)>(head: T -> bool, owned: T -> bool) { forall line :: owned(line) ==> head(line) }

  /* ------------------------------------------------------------------ filtering */

  lemma {:induction false} FilterAppend<T>(a: seq<T>, b: seq<T>, head: T -> bool, want: T -> bool, on: bool)
    requires forall k | 0 <= k < |a| && head(a[k]) :: want(a[k]) == on
    ensures Filter(a + b, head, want, on) == (if on then a else []) + Filter(b, head, want, on)
  {
    if a == [] {
      assert a + b == b;
    } else {
      FilterAppend(a[1..], b, head, want, on);
      assert (a + b)[1..] == a[1..] + b && (a + b)[0] == a[0];
    }
  }

  /** The state does not matter at a header. */
  lemma FilterAtHeader<T>(lines: seq<T>, head: T -> bool, want: T -> bool, on: bool)
    requires lines == [] || head(lines[0])
    ensures Filter(lines, head, want, on) == Filter(lines, head, want, !on)
  {
  }

  /** Filtering twice keeps the tables that both want: dropping whole tables does not change which header
      governs a line. */
  lemma {:induction false} FilterFilter<T(!new)>(lines: seq<T>, head: T -> bool, a: T -> bool, b: T -> bool, both: T -> bool,
                                                 onA: bool, onB: bool)
    requires forall h :: both(h) == (a(h) && b(h))
    ensures Filter(Filter(lines, head, a, onA), head, b, onB) == Filter(lines, head, both, onA && onB)
  {
    if lines != [] {
      var first := lines[0];
      var nowA := if head(first) then a(first) else onA;
      var nowB := if nowA && head(first) then b(first) else onB;
      var rest := Filter(lines[1..], head, a, nowA);
      FilterFilter(lines[1..], head, a, b, both, nowA, nowB);
      if nowA {
        FilterCons(first, rest, head, b, onB);
      } else {
        assert Filter(lines, head, a, onA) == rest;
      }
    }
  }

  lemma FilterCons<T>(first: T, rest: seq<T>, head: T -> bool, want: T -> bool, on: bool)
    ensures var now := if head(first) then want(first) else on;
      Filter([first] + rest, head, want, on) == (if now then [first] else []) + Filter(rest, head, want, now)
  {
  }

  function StateAfter<T>(lines: seq<T>, head: T -> bool, want: T -> bool, on: bool): bool {
    if lines == [] then on else StateAfter(lines[1..], head, want, if head(lines[0]) then want(lines[0]) else on)
  }

  lemma Assoc<T>(a: seq<T>, b: seq<T>, c: seq<T>)
    ensures (a + b) + c == a + (b + c)
  {
  }

  lemma {:induction false} FilterConcat<T>(a: seq<T>, b: seq<T>, head: T -> bool, want: T -> bool, on: bool)
    ensures Filter(a + b, head, want, on) == Filter(a, head, want, on) + Filter(b, head, want, StateAfter(a, head, want, on))
  {
    if a == [] {
      assert a + b == b;
    } else {
      var now := if head(a[0]) then want(a[0]) else on;
      var first, tail := if now then [a[0]] else [], a[1..];
      FilterConcat(tail, b, head, want, now);
      FilterCons(a[0], tail + b, head, want, on);
      FilterCons(a[0], tail, head, want, on);
      Assoc([a[0]], tail, b);
      assert a == [a[0]] + tail;
      Assoc(first, Filter(tail, head, want, now), Filter(b, head, want, StateAfter(tail, head, want, now)));
    }
  }

  /** One line more at the end. */
  lemma FilterSnoc<T>(lines: seq<T>, x: T, head: T -> bool, want: T -> bool, on: bool)
    ensures var now := if head(x) then want(x) else StateAfter(lines, head, want, on);
      Filter(lines + [x], head, want, on) == Filter(lines, head, want, on) + (if now then [x] else [])
  {
    FilterConcat(lines, [x], head, want, on);
    FilterCons(x, [], head, want, StateAfter(lines, head, want, on));
    assert [x] + [] == [x];
  }

  /** The tables of one owner are the same with or without those of another. */
  lemma OtherTablesKept<T(!new)>(lines: seq<T>, head: T -> bool, owned: T -> bool, other: T -> bool)
    requires forall h :: !(owned(h) && other(h))
    ensures Tables(Kept(lines, head, owned), head, other) == Tables(lines, head, other)
  {
    FilterFilter(lines, head, Not(owned), other, other, true, false);
  }

  /* ------------------------------------------------------------------ ranges */

  type Range = (nat, nat)

  predicate IsTable<T>(lines: seq<T>, head: T -> bool, r: Range) {
    && r.0 < r.1 <= |lines|
    && (forall k | r.0 < k < r.1 :: !head(lines[k]))
    && (r.1 < |lines| ==> head(lines[r.1]))
  }

  /** The owned tables, each from its header to the next header of any kind: disjoint, in order, and all
      of them. */
  ghost predicate Ranges<T>(lines: seq<T>, head: T -> bool, owned: T -> bool, ranges: seq<Range>) {
    && (forall i | 0 <= i < |ranges| :: IsTable(lines, head, ranges[i]) && owned(lines[ranges[i].0]))
    && (forall i, j | 0 <= i < j < |ranges| :: ranges[i].1 <= ranges[j].0)
    && (forall k | 0 <= k < |lines| && owned(lines[k]) :: exists i :: 0 <= i < |ranges| && ranges[i].0 == k)
  }

  method Starts<T>(lines: seq<T>, owned: T -> bool) returns (starts: seq<nat>)
    ensures forall i | 0 <= i < |starts| :: starts[i] < |lines| && owned(lines[starts[i]])
    ensures forall i, j | 0 <= i < j < |starts| :: starts[i] < starts[j]
    ensures forall k | 0 <= k < |lines| && owned(lines[k]) :: exists i :: 0 <= i < |starts| && starts[i] == k
  {
    starts := [];
    for n := 0 to |lines|
      invariant forall i | 0 <= i < |starts| :: starts[i] < n && owned(lines[starts[i]])
      invariant forall i, j | 0 <= i < j < |starts| :: starts[i] < starts[j]
      invariant forall k | 0 <= k < n && owned(lines[k]) :: exists i :: 0 <= i < |starts| && starts[i] == k
    {
      if owned(lines[n]) {
        ghost var before := starts;
        starts := starts + [n];
        assert starts[|before|] == n;
        forall k | 0 <= k < n && owned(lines[k])
          ensures exists i :: 0 <= i < |starts| && starts[i] == k
        {
          var i :| 0 <= i < |before| && before[i] == k;
          assert starts[i] == k;
        }
      }
    }
  }

  method TableEnd<T>(lines: seq<T>, head: T -> bool, start: nat) returns (end: nat)
    requires start < |lines|
    ensures IsTable(lines, head, (start, end))
  {
    end := start + 1;
    while end < |lines| && !head(lines[end])
      invariant start < end <= |lines|
      invariant forall k | start < k < end :: !head(lines[k])
    {
      end := end + 1;
    }
  }

  method TableRanges<T(!new)>(lines: seq<T>, head: T -> bool, owned: T -> bool) returns (ranges: seq<Range>)
    requires Headers(head, owned)
    ensures Ranges(lines, head, owned, ranges)
  {
    var starts := Starts(lines, owned);
    ranges := [];
    for n := 0 to |starts|
      invariant |ranges| == n
      invariant forall i | 0 <= i < n :: ranges[i].0 == starts[i] && IsTable(lines, head, ranges[i])
    {
      var end := TableEnd(lines, head, starts[n]);
      ranges := ranges + [(starts[n], end)];
    }
    forall i, j | 0 <= i < j < |ranges|
      ensures ranges[i].1 <= ranges[j].0
    {
      assert starts[i] < starts[j] && owned(lines[starts[j]]) && head(lines[ranges[j].0]);
    }
    forall k | 0 <= k < |lines| && owned(lines[k])
      ensures exists i :: 0 <= i < |ranges| && ranges[i].0 == k
    {
      var i :| 0 <= i < |starts| && starts[i] == k;
      assert ranges[i].0 == k;
    }
  }

  /** Deleting one owned range, everything behind it being filtered already. */
  lemma DeleteRange<T(!new)>(lines: seq<T>, head: T -> bool, owned: T -> bool, r: Range, cut: nat)
    requires Headers(head, owned) && IsTable(lines, head, r) && owned(lines[r.0]) && r.1 <= cut <= |lines|
    requires forall k | r.0 < k < cut :: !owned(lines[k])
    ensures lines[r.1..cut] + Kept(lines[cut..], head, owned) == Kept(lines[r.0..], head, owned)
  {
    var keep := Not(owned);
    var table, behind := lines[r.0 + 1..r.1], lines[r.1..];
    assert lines[r.0..] == [lines[r.0]] + (table + behind);
    FilterCons(lines[r.0], table + behind, head, keep, true);
    FilterAppend(table, behind, head, keep, false);
    FilterAtHeader(behind, head, keep, false);
    assert behind == lines[r.1..cut] + lines[cut..];
    FilterAppend(lines[r.1..cut], lines[cut..], head, keep, true);
  }

  lemma NoneBetween<T>(lines: seq<T>, head: T -> bool, owned: T -> bool, ranges: seq<Range>, i: nat, k: nat)
    requires Ranges(lines, head, owned, ranges) && i <= |ranges| && k < |lines|
    requires i > 0 ==> ranges[i - 1].0 < k
    requires i < |ranges| ==> k < ranges[i].0
    ensures !owned(lines[k])
  {
  }

  lemma Splice<T>(all: seq<T>, start: nat, end: nat, cut: nat, behind: seq<T>)
    requires start <= end <= cut <= |all|
    ensures var lines := all[..cut] + behind;
      lines[..start] + lines[end..] == all[..start] + (all[end..cut] + behind)
  {
  }

  /** Deleting the ranges from the last to the first leaves the lines outside them, in order. */
  method DeleteTables<T(!new)>(all: seq<T>, head: T -> bool, owned: T -> bool) returns (lines: seq<T>)
    requires Headers(head, owned)
    ensures lines == Kept(all, head, owned)
  {
    var ranges := TableRanges(all, head, owned);
    lines := all;
    ghost var cut, behind := |all|, [];
    for i := |ranges| downto 0
      invariant cut == (if i == |ranges| then |all| else ranges[i].0) && cut <= |all|
      invariant lines == all[..cut] + behind && behind == Kept(all[cut..], head, owned)
    {
      var (start, end) := ranges[i];
      DeleteStep(all, head, owned, ranges, i, cut);
      Splice(all, start, end, cut, behind);
      lines := lines[..start] + lines[end..];
      cut, behind := start, all[end..cut] + behind;
    }
    KeptBefore(all, head, owned, ranges, cut);
  }

  lemma KeptBefore<T>(all: seq<T>, head: T -> bool, owned: T -> bool, ranges: seq<Range>, cut: nat)
    requires Ranges(all, head, owned, ranges) && cut <= |all|
    requires cut == if ranges == [] then |all| else ranges[0].0
    ensures Kept(all, head, owned) == all[..cut] + Kept(all[cut..], head, owned)
  {
    forall k | 0 <= k < cut
      ensures !owned(all[k])
    {
      NoneBetween(all, head, owned, ranges, 0, k);
    }
    FilterAppend(all[..cut], all[cut..], head, Not(owned), true);
    assert all == all[..cut] + all[cut..];
  }

  lemma DeleteStep<T(!new)>(all: seq<T>, head: T -> bool, owned: T -> bool, ranges: seq<Range>, i: nat, cut: nat)
    requires Headers(head, owned) && Ranges(all, head, owned, ranges) && i < |ranges|
    requires cut == if i + 1 == |ranges| then |all| else ranges[i + 1].0
    ensures ranges[i].0 < ranges[i].1 <= cut <= |all|
    ensures all[ranges[i].1..cut] + Kept(all[cut..], head, owned) == Kept(all[ranges[i].0..], head, owned)
  {
    assert IsTable(all, head, ranges[i]);
    if i + 1 < |ranges| {
      assert IsTable(all, head, ranges[i + 1]) && ranges[i].1 <= ranges[i + 1].0;
    }
    forall k | ranges[i].0 < k < cut
      ensures !owned(all[k])
    {
      NoneBetween(all, head, owned, ranges, i + 1, k);
    }
    DeleteRange(all, head, owned, ranges[i], cut);
  }
}
