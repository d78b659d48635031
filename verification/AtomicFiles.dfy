/** All-or-nothing replacement of a set of files. */
module AtomicFiles {
  datatype Option<+T> = None | Some(value: T)

  type Bytes = string

  /** The listed paths, and the names derived from them with the token of this call, which no other file has. */
  datatype Entry = Original(path: string) | Temporary(path: string) | Rollback(path: string)

  type Files = map<Entry, Bytes>

  datatype Value = Value(path: string, content: Bytes)

  /** A broken write may have created the file with any content. */
  datatype WriteFate = Written | Broken(left: Option<Bytes>)

  /** Which calls fail for the file at each position. Rolling back and cleaning up do not fail. */
  datatype Fates = Fates(readFails: nat -> bool, write: nat -> WriteFate, replaceFails: nat -> bool)

  function At(files: Files, e: Entry): Option<Bytes> { if e in files then Some(files[e]) else None }

  ghost predicate NoDerived(files: Files) { forall e | e in files :: e.Original? }

  /* ------------------------------------------------------------------ what is promised */

  predicate Distinct(values: seq<Value>) { forall i, j | 0 <= i < j < |values| :: values[i].path != values[j].path }

  predicate StagingFails(files: Files, values: seq<Value>, fates: Fates, k: nat)
    requires k < |values|
  {
    (Original(values[k].path) in files && fates.readFails(k)) || fates.write(k).Broken?
  }

  /** Nothing fails and no path is listed twice. */
  predicate Succeeds(files: Files, values: seq<Value>, fates: Fates) {
    && Distinct(values)
    && forall k | 0 <= k < |values| :: !StagingFails(files, values, fates, k) && !fates.replaceFails(k)
  }

  predicate Listed(values: seq<Value>, path: string) { exists i | 0 <= i < |values| :: values[i].path == path }

  predicate LeavesPartial(files: Files, values: seq<Value>, fates: Fates, k: nat)
    requires k < |values|
  {
    && !(Original(values[k].path) in files && fates.readFails(k))
    && fates.write(k).Broken? && fates.write(k).left.Some?
  }

  /** The file whose broken write leaves a temporary that nobody removes: the first failure, after the file
      was created, of a path not listed before. */
  predicate Leaks(files: Files, values: seq<Value>, fates: Fates, k: nat) {
    && k < |values| && LeavesPartial(files, values, fates, k)
    && (forall i | 0 <= i < k :: !StagingFails(files, values, fates, i))
    && !Listed(values[..k], values[k].path)
  }

  /** The content of the last listing of a path. */
  function LastContent(values: seq<Value>, path: string): Option<Bytes> {
    if values == [] then None
    else
      var last := values[|values| - 1];
      if last.path == path then Some(last.content) else LastContent(values[..|values| - 1], path)
  }

  lemma {:induction false} LastContentListed(values: seq<Value>, path: string)
    ensures LastContent(values, path).Some? <==> Listed(values, path)
  {
    if values != [] {
      var init := values[..|values| - 1];
      LastContentListed(init, path);
      assert Listed(init, path) ==> Listed(values, path);
      assert values[|values| - 1].path == path ==> Listed(values, path);
      if Listed(values, path) && values[|values| - 1].path != path {
        var i :| 0 <= i < |values| && values[i].path == path;
        assert init[i].path == path;
      }
    }
  }

  lemma {:induction false} LastContentDistinct(values: seq<Value>, k: nat)
    requires Distinct(values) && k < |values|
    ensures LastContent(values, values[k].path) == Some(values[k].content)
  {
    if k < |values| - 1 {
      LastContentDistinct(values[..|values| - 1], k);
    }
  }

  /** Every listed path has its new bytes and every other file is as it was. */
  ghost predicate AllWritten(before: Files, after: Files, values: seq<Value>) {
    && (forall k | 0 <= k < |values| :: At(after, Original(values[k].path)) == Some(values[k].content))
    && (forall e: Entry | !(e.Original? && Listed(values, e.path)) :: At(after, e) == At(before, e))
  }

  /* ------------------------------------------------------------------ the states in between */

  function StagedAt(e: Entry, files: Files, done: seq<Value>): Option<Bytes> {
    match e
    case Original(_) => At(files, e)
    case Temporary(p) => LastContent(done, p)
    case Rollback(_) => None
  }

  /** After staging some listings. */
  ghost predicate Staged(disk: Files, files: Files, done: seq<Value>) {
    forall e: Entry :: At(disk, e) == StagedAt(e, files, done)
  }

  function ReplacedAt(e: Entry, files: Files, values: seq<Value>, n: nat): Option<Bytes>
    requires n <= |values|
  {
    match e
    case Original(p) => if Listed(values[..n], p) then LastContent(values, p) else At(files, e)
    case Temporary(p) => if Listed(values[..n], p) then None else LastContent(values, p)
    case Rollback(_) => None
  }

  /** After replacing the first `n` paths. */
  ghost predicate Replaced(disk: Files, files: Files, values: seq<Value>, n: nat)
    requires n <= |values|
  {
    forall e: Entry :: At(disk, e) == ReplacedAt(e, files, values, n)
  }

  ghost predicate Remembers(originals: map<string, Option<Bytes>>, files: Files, done: seq<Value>) {
    forall i | 0 <= i < |done| :: done[i].path in originals && originals[done[i].path] == At(files, Original(done[i].path))
  }

  lemma StagedMore(disk: Files, files: Files, done: seq<Value>, v: Value)
    requires Staged(disk, files, done)
    ensures Staged(disk[Temporary(v.path) := v.content], files, done + [v])
  {
    assert (done + [v])[..|done|] == done;
    var after := disk[Temporary(v.path) := v.content];
    forall e: Entry
      ensures At(after, e) == StagedAt(e, files, done + [v])
    {
      assert At(disk, e) == StagedAt(e, files, done);
    }
  }

  lemma ReplacedMore(disk: Files, files: Files, values: seq<Value>, n: nat)
    requires n < |values| && Replaced(disk, files, values, n)
    requires Temporary(values[n].path) in disk
    ensures var p := values[n].path;
      Replaced((disk - {Temporary(p)})[Original(p) := disk[Temporary(p)]], files, values, n + 1)
  {
    var p := values[n].path;
    var after := (disk - {Temporary(p)})[Original(p) := disk[Temporary(p)]];
    assert At(disk, Temporary(p)) == ReplacedAt(Temporary(p), files, values, n);
    forall e: Entry
      ensures At(after, e) == ReplacedAt(e, files, values, n + 1)
    {
      assert At(disk, e) == ReplacedAt(e, files, values, n);
    }
  }

  function FailedAt(e: Entry, files: Files, values: seq<Value>, fates: Fates, k: nat): Option<Bytes>
    requires k < |values|
  {
    if e == Temporary(values[k].path) && LeavesPartial(files, values, fates, k) then fates.write(k).left
    else StagedAt(e, files, values[..k])
  }

  /** The disk when the listing at `k` raised: a broken write may have left its temporary. */
  ghost predicate StagedThenFailed(disk: Files, files: Files, values: seq<Value>, fates: Fates, k: nat)
    requires k < |values|
  {
    forall e: Entry :: At(disk, e) == FailedAt(e, files, values, fates, k)
  }

  /** The staging loop; `failed` is the position of the listing that raised. */
  method Stage(files: Files, values: seq<Value>, fates: Fates)
    returns (disk: Files, staged: seq<string>, originals: map<string, Option<Bytes>>, failed: Option<nat>)
    requires NoDerived(files)
    ensures failed.None? ==> Staged(disk, files, values) && |staged| == |values|
    ensures failed.None? ==> forall k | 0 <= k < |values| :: !StagingFails(files, values, fates, k)
    ensures failed.Some? ==> failed.value < |values| && |staged| == failed.value
    ensures failed.Some? ==> StagingFails(files, values, fates, failed.value)
    ensures failed.Some? ==> forall k | 0 <= k < failed.value :: !StagingFails(files, values, fates, k)
    ensures failed.Some? ==> StagedThenFailed(disk, files, values, fates, failed.value)
    ensures forall i | 0 <= i < |staged| :: staged[i] == values[i].path
    ensures Remembers(originals, files, values[..|staged|])
  {
    disk, staged, originals, failed := files, [], map[], None;
    for k := 0 to |values|
      invariant |staged| == k && forall i | 0 <= i < k :: staged[i] == values[i].path
      invariant Staged(disk, files, values[..k])
      invariant Remembers(originals, files, values[..k])
      invariant forall i | 0 <= i < k :: !StagingFails(files, values, fates, i)
    {
      var v := values[k];
      if Original(v.path) in disk && fates.readFails(k) {
        assert At(disk, Original(v.path)) == At(files, Original(v.path));
        return disk, staged, originals, Some(k);
      }
      assert At(disk, Original(v.path)) == At(files, Original(v.path));
      originals := originals[v.path := At(disk, Original(v.path))];
      if fates.write(k).Broken? {
        if fates.write(k).left.Some? {
          disk := disk[Temporary(v.path) := fates.write(k).left.value];
        }
        return disk, staged, originals, Some(k);
      }
      StagedMore(disk, files, values[..k], v);
      assert values[..k + 1] == values[..k] + [v];
      disk := disk[Temporary(v.path) := v.content];
      staged := staged + [v.path];
    }
    assert values[..|values|] == values;
  }

  lemma ListedLast(values: seq<Value>, path: string)
    requires Listed(values, path)
    ensures LastContent(values, path).Some?
  {
  }

  /** The replacing loop. It fails by itself when a path comes again: its temporary is gone. */
  method ReplaceAll(start: Files, staged: seq<string>, fates: Fates, ghost files: Files, ghost values: seq<Value>)
    returns (disk: Files, replaced: seq<string>, failed: bool)
    requires |staged| == |values| && forall i | 0 <= i < |staged| :: staged[i] == values[i].path
    requires Staged(start, files, values)
    ensures |replaced| <= |values| && forall i | 0 <= i < |replaced| :: replaced[i] == values[i].path
    ensures Replaced(disk, files, values, |replaced|) && Distinct(values[..|replaced|])
    ensures failed <==> !(Distinct(values) && forall k | 0 <= k < |values| :: !fates.replaceFails(k))
    ensures !failed ==> |replaced| == |values|
  {
    disk, replaced, failed := start, [], false;
    forall e: Entry
      ensures At(disk, e) == ReplacedAt(e, files, values, 0)
    {
      assert At(disk, e) == StagedAt(e, files, values);
    }
    for k := 0 to |staged|
      invariant |replaced| == k && forall i | 0 <= i < k :: replaced[i] == values[i].path
      invariant Replaced(disk, files, values, k) && Distinct(values[..k])
      invariant forall i | 0 <= i < k :: !fates.replaceFails(i)
    {
      var p := staged[k];
      ListedLast(values, p);
      assert At(disk, Temporary(p)) == ReplacedAt(Temporary(p), files, values, k);
      if Temporary(p) !in disk || fates.replaceFails(k) {
        return disk, replaced, true;
      }
      assert values[..k + 1] == values[..k] + [values[k]];
      ReplacedMore(disk, files, values, k);
      disk := (disk - {Temporary(p)})[Original(p) := disk[Temporary(p)]];
      replaced := replaced + [p];
    }
    assert values[..|values|] == values;
  }

  function RolledAt(e: Entry, files: Files, values: seq<Value>, n: nat, j: nat): Option<Bytes>
    requires j <= n <= |values|
  {
    match e
    case Original(p) => ReplacedAt(e, files, values, j)
    case _ => ReplacedAt(e, files, values, n)
  }

  lemma RolledMore(disk: Files, after: Files, files: Files, values: seq<Value>, n: nat, j: nat)
    requires j < n <= |values| && Distinct(values[..n])
    requires forall e: Entry :: At(disk, e) == RolledAt(e, files, values, n, j + 1)
    requires var p := values[j].path;
      forall e: Entry :: At(after, e) == if e == Original(p) then At(files, e) else At(disk, e)
    ensures forall e: Entry :: At(after, e) == RolledAt(e, files, values, n, j)
  {
  }

  /** The handler: the replaced paths get their originals back, the last one first. */
  method RollBack(start: Files, replaced: seq<string>, originals: map<string, Option<Bytes>>, ghost files: Files,
        ghost values: seq<Value>)
    returns (disk: Files)
    requires |replaced| <= |values| && forall i | 0 <= i < |replaced| :: replaced[i] == values[i].path
    requires Replaced(start, files, values, |replaced|) && Distinct(values[..|replaced|]) && Remembers(originals, files, values)
    ensures forall e: Entry :: At(disk, e) == RolledAt(e, files, values, |replaced|, 0)
  {
    disk := start;
    ghost var n := |replaced|;
    assert forall e: Entry :: At(disk, e) == RolledAt(e, files, values, n, n);
    for j := |replaced| downto 0
      invariant forall e: Entry :: At(disk, e) == RolledAt(e, files, values, n, j)
    {
      var p := replaced[j];
      var original := originals[p];
      ghost var before := disk;
      assert At(disk, Rollback(p)) == RolledAt(Rollback(p), files, values, n, j + 1);
      if original.None? {
        disk := disk - {Original(p)};
      } else {
        disk := disk[Rollback(p) := original.value];
        disk := (disk - {Rollback(p)})[Original(p) := disk[Rollback(p)]];
      }
      RolledMore(before, disk, files, values, n, j);
    }
  }

  /** The clean-up: no temporary of a staged file remains. */
  method RemoveTemporaries(start: Files, staged: seq<string>) returns (disk: Files)
    ensures forall e: Entry :: At(disk, e) == if e.Temporary? && e.path in staged then None else At(start, e)
  {
    disk := start;
    for i := 0 to |staged|
      invariant forall e: Entry :: At(disk, e) == if e.Temporary? && e.path in staged[..i] then None else At(start, e)
    {
      assert staged[..i + 1] == staged[..i] + [staged[i]];
      ghost var before := disk;
      disk := disk - {Temporary(staged[i])};
      assert forall e: Entry :: At(disk, e) == if e == Temporary(staged[i]) then None else At(before, e);
    }
    assert staged[..|staged|] == staged;
  }

  lemma SameFiles(a: Files, b: Files)
    requires forall e: Entry :: At(a, e) == At(b, e)
    ensures a == b
  {
    forall e: Entry
      ensures (e in a <==> e in b) && (e in a ==> a[e] == b[e])
    {
      assert At(a, e) == At(b, e);
    }
  }

  /** What is on the disk after a failed staging and the clean-up: the temporary of the broken write stays
      when its path had not been staged before. */
  lemma AfterFailedStaging(disk: Files, after: Files, staged: seq<string>, files: Files, values: seq<Value>,
        fates: Fates, k: nat)
    requires NoDerived(files) && k < |values| && StagedThenFailed(disk, files, values, fates, k)
    requires |staged| == k && forall i | 0 <= i < k :: staged[i] == values[i].path
    requires forall e: Entry :: At(after, e) == if e.Temporary? && e.path in staged then None else At(disk, e)
    ensures !(LeavesPartial(files, values, fates, k) && !Listed(values[..k], values[k].path)) ==> after == files
    ensures LeavesPartial(files, values, fates, k) && !Listed(values[..k], values[k].path) ==>
      after == files[Temporary(values[k].path) := fates.write(k).left.value]
  {
    var leak := LeavesPartial(files, values, fates, k) && !Listed(values[..k], values[k].path);
    var expected := if leak then files[Temporary(values[k].path) := fates.write(k).left.value] else files;
    forall e: Entry
      ensures At(after, e) == At(expected, e)
    {
      assert At(disk, e) == FailedAt(e, files, values, fates, k);
      assert e.path in staged <==> Listed(values[..k], e.path) by {
        assert forall i | 0 <= i < k :: staged[i] == values[..k][i].path;
      }
      LastContentListed(values[..k], e.path);
    }
    SameFiles(after, expected);
  }

  lemma AfterRollback(disk: Files, after: Files, staged: seq<string>, files: Files, values: seq<Value>, n: nat)
    requires NoDerived(files) && n <= |values| && forall e: Entry :: At(disk, e) == RolledAt(e, files, values, n, 0)
    requires |staged| == |values| && forall i | 0 <= i < |values| :: staged[i] == values[i].path
    requires forall e: Entry :: At(after, e) == if e.Temporary? && e.path in staged then None else At(disk, e)
    ensures after == files
  {
    forall e: Entry
      ensures At(after, e) == At(files, e)
    {
      assert At(disk, e) == RolledAt(e, files, values, n, 0);
      assert e.path in staged <==> Listed(values, e.path);
      LastContentListed(values, e.path);
    }
    SameFiles(after, files);
  }

  lemma AfterSuccess(disk: Files, after: Files, staged: seq<string>, files: Files, values: seq<Value>)
    requires NoDerived(files) && Distinct(values) && Replaced(disk, files, values, |values|)
    requires |staged| == |values| && forall i | 0 <= i < |values| :: staged[i] == values[i].path
    requires forall e: Entry :: At(after, e) == if e.Temporary? && e.path in staged then None else At(disk, e)
    ensures AllWritten(files, after, values)
  {
    assert values[..|values|] == values;
    forall e: Entry
      ensures At(after, e) == if e.Original? && Listed(values, e.path) then LastContent(values, e.path) else At(files, e)
    {
      assert At(disk, e) == ReplacedAt(e, files, values, |values|);
      LastContentListed(values, e.path);
    }
    forall k | 0 <= k < |values|
      ensures At(after, Original(values[k].path)) == Some(values[k].content)
    {
      LastContentDistinct(values, k);
      assert Listed(values, values[k].path);
    }
  }

  /** All or nothing: it succeeds exactly when no call fails and no path comes twice, and then every listed
      path has its new bytes; otherwise every file is as it was, but for the temporary of a broken write. */
  method WriteFilesAtomically(files: Files, values: seq<Value>, fates: Fates) returns (disk: Files, raised: bool)
    requires NoDerived(files)
    ensures raised <==> !Succeeds(files, values, fates)
    ensures !raised ==> AllWritten(files, disk, values)
    ensures raised && (forall k | 0 <= k < |values| :: !Leaks(files, values, fates, k)) ==> disk == files
    ensures forall k | 0 <= k < |values| && Leaks(files, values, fates, k) ::
      disk == files[Temporary(values[k].path) := fates.write(k).left.value]
  {
    var staged, originals, failed;
    disk, staged, originals, failed := Stage(files, values, fates);
    ghost var before := disk;
    if failed.Some? {
      disk := RemoveTemporaries(disk, staged);
      AfterFailedStaging(before, disk, staged, files, values, fates, failed.value);
      OnlyLeak(files, values, fates, failed.value);
      return disk, true;
    }
    assert values[..|staged|] == values;
    NoLeak(files, values, fates);
    var replaced;
    disk, replaced, raised := ReplaceAll(disk, staged, fates, files, values);
    if raised {
      disk := RollBack(disk, replaced, originals, files, values);
    }
    before := disk;
    disk := RemoveTemporaries(disk, staged);
    if raised {
      AfterRollback(before, disk, staged, files, values, |replaced|);
    } else {
      AfterSuccess(before, disk, staged, files, values);
    }
  }

  lemma NoLeak(files: Files, values: seq<Value>, fates: Fates)
    requires forall k | 0 <= k < |values| :: !StagingFails(files, values, fates, k)
    ensures forall k | 0 <= k < |values| :: !Leaks(files, values, fates, k)
  {
    forall k | 0 <= k < |values|
      ensures !Leaks(files, values, fates, k)
    {
      assert !StagingFails(files, values, fates, k);
    }
  }

  /** Only the first failing listing can leak. */
  lemma OnlyLeak(files: Files, values: seq<Value>, fates: Fates, k: nat)
    requires k < |values| && StagingFails(files, values, fates, k)
    requires forall i | 0 <= i < k :: !StagingFails(files, values, fates, i)
    ensures forall i | 0 <= i < |values| && Leaks(files, values, fates, i) :: i == k
    ensures Leaks(files, values, fates, k) <==> LeavesPartial(files, values, fates, k) && !Listed(values[..k], values[k].path)
  {
    forall i | 0 <= i < |values| && Leaks(files, values, fates, i)
      ensures i == k
    {
      assert StagingFails(files, values, fates, i);
    }
  }
}
