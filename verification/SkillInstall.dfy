/** Crash-safe replacement of an installed skill, and its recovery. */
module SkillInstall {
  datatype Option<+T> = None | Some(value: T)

  /** The files of a directory tree: relative paths with their bytes. */
  type Tree = map<string, string>

  /** How a filesystem call ends: an error is handled by the program, an interrupt only runs its clean-up,
      a crash runs nothing. A broken copy or removal leaves any tree behind; a rename is atomic. */
  datatype Kind = Error | Interrupt | Crash
  datatype Fate = Fine | Broken(kind: Kind, left: Tree)
  datatype End = Done | Stopped(kind: Kind)

  /** The skills directory and the fates of the calls still to come (`Fine` when none is listed). */
  datatype Disk = Disk(entries: map<string, Tree>, fates: seq<Fate>)

  function NextFate(d: Disk): Fate { if d.fates == [] then Fine else d.fates[0] }

  function Spend(d: Disk, entries: map<string, Tree>): Disk {
    Disk(entries, if d.fates == [] then [] else d.fates[1..])
  }

  function EndOf(fate: Fate): End { if fate.Fine? then Done else Stopped(fate.kind) }

  /* ------------------------------------------------------------------ names */

  predicate Alnum(c: char) { 'a' <= c <= 'z' || '0' <= c <= '9' }

  predicate Hex(c: char) { '0' <= c <= '9' || 'a' <= c <= 'f' }

  /** Lowercase kebab case. */
  predicate SkillName(name: string) {
    && name != "" && name[0] != '-' && name[|name| - 1] != '-'
    && (forall i | 0 <= i < |name| :: Alnum(name[i]) || name[i] == '-')
    && (forall i | 0 < i < |name| :: name[i - 1] != '-' || name[i] != '-')
  }

  const SUFFIX := ".backup"

  /** A dot, the skill, a dot, thirty-two hexadecimal digits and the suffix. */
  predicate BackupName(name: string, entry: string) {
    var prefix := "." + name + ".";
    && |entry| == |prefix| + 32 + |SUFFIX|
    && entry[..|prefix|] == prefix
    && entry[|prefix| + 32..] == SUFFIX
    && (forall i | |prefix| <= i < |prefix| + 32 :: Hex(entry[i]))
  }

  const STAGED := ".peval-skill-"

  predicate StagedName(entry: string) {
    |entry| > |STAGED| && entry[..|STAGED|] == STAGED && forall i | |STAGED| <= i < |entry| :: entry[i] != '.'
  }

  /** A backup belongs to one skill, and is neither a skill nor a staging directory. */
  lemma BackupOfOneSkill(a: string, b: string, entry: string)
    requires BackupName(a, entry)
    ensures BackupName(b, entry) ==> a == b
    ensures !SkillName(entry) && !StagedName(entry)
  {
    var prefix := "." + a + ".";
    assert entry[0] == prefix[0] == '.';
    assert entry[|a| + 1] == prefix[|a| + 1] == '.';
    if BackupName(b, entry) {
      var other := "." + b + ".";
      assert |prefix| == |other|;
      assert a == prefix[1..|a| + 1] && b == other[1..|b| + 1];
    }
  }

  /** A backup name is a dot, the skill, a dot, any thirty-two digits and the suffix, and nothing else is. */
  lemma BackupNameExactly(name: string, entry: string)
    ensures BackupName(name, entry) <==>
      exists digits :: |digits| == 32 && (forall i | 0 <= i < 32 :: Hex(digits[i])) && entry == "." + name + "." + digits + ".backup"
  {
    var prefix := "." + name + ".";
    if BackupName(name, entry) {
      var digits := entry[|prefix|..|prefix| + 32];
      assert forall i | 0 <= i < 32 :: digits[i] == entry[|prefix| + i];
      assert entry == entry[..|prefix|] + digits + entry[|prefix| + 32..];
    }
    if exists digits :: |digits| == 32 && (forall i | 0 <= i < 32 :: Hex(digits[i])) && entry == prefix + digits + SUFFIX {
      var digits :| |digits| == 32 && (forall i | 0 <= i < 32 :: Hex(digits[i])) && entry == prefix + digits + SUFFIX;
      assert entry == prefix + (digits + SUFFIX);
      assert entry[..|prefix|] == prefix && entry[|prefix| + 32..] == SUFFIX;
      assert forall i | |prefix| <= i < |prefix| + 32 :: entry[i] == digits[i - |prefix|];
    }
  }

  /** Requests exist, for example. */
  lemma ProperExists() returns (q: Request)
    ensures q.Proper()
  {
    var digits := seq(32, i => '0');
    var backup := ".a." + digits + ".backup";
    BackupNameExactly("a", backup);
    q := Request("a", map[], ".peval-skill-0", backup);
    assert ".peval-skill-0"[..|STAGED|] == STAGED;
  }

  lemma StagedIsNoSkill(entry: string)
    requires StagedName(entry)
    ensures !SkillName(entry)
  {
  }

  function Backups(entries: map<string, Tree>, name: string): set<string> {
    set e | e in entries && BackupName(name, e)
  }

  /* ------------------------------------------------------------------ sorted listings */

  predicate AtMost(a: string, b: string) {
    a == "" || (b != "" && (a[0] < b[0] || (a[0] == b[0] && AtMost(a[1..], b[1..]))))
  }

  lemma {:induction false} AtMostOrders(a: string, b: string, c: string)
    ensures AtMost(a, b) || AtMost(b, a)
    ensures AtMost(a, b) && AtMost(b, a) ==> a == b
    ensures AtMost(a, b) && AtMost(b, c) ==> AtMost(a, c)
  {
    if a != "" && b != "" {
      AtMostOrders(a[1..], b[1..], if c == "" then "" else c[1..]);
      assert a == [a[0]] + a[1..] && b == [b[0]] + b[1..];
    }
  }

  lemma {:induction false} LeastExists(names: set<string>) returns (least: string)
    requires names != {}
    ensures least in names && forall n | n in names :: AtMost(least, n)
  {
    var some :| some in names;
    least := some;
    if names == {some} {
      AtMostOrders(some, some, some);
    } else {
      least := LeastExists(names - {some});
      AtMostOrders(some, least, least);
      forall n | n in names ensures AtMost(if AtMost(some, least) then some else least, n) {
        AtMostOrders(some, least, n);
        AtMostOrders(some, some, some);
      }
      if AtMost(some, least) {
        least := some;
      }
    }
  }

  function Least(names: set<string>): (r: string)
    requires names != {}
    ensures r in names
  {
    ghost var witnessed := LeastExistsValue(names);
    assert witnessed in names && forall n | n in names :: AtMost(witnessed, n);
    assert forall a, b | a in names && b in names && AtMost(a, b) && AtMost(b, a) :: a == b by {
      forall a, b | a in names && b in names && AtMost(a, b) && AtMost(b, a) ensures a == b {
        AtMostOrders(a, b, b);
      }
    }
    var least :| least in names && forall n | n in names :: AtMost(least, n);
    least
  }

  ghost function LeastExistsValue(names: set<string>): (r: string)
    requires names != {}
    ensures r in names && forall n | n in names :: AtMost(r, n)
  {
    assert exists least :: least in names && forall n | n in names :: AtMost(least, n) by {
      var least := LeastExists(names);
    }
    var least :| least in names && forall n | n in names :: AtMost(least, n);
    least
  }

  function Sorted(names: set<string>): (r: seq<string>)
    ensures |r| == |names| && forall n :: n in r <==> n in names
  {
    if names == {} then [] else [Least(names)] + Sorted(names - {Least(names)})
  }

  /* ------------------------------------------------------------------ filesystem calls */

  /** An atomic rename. */
  function Rename(d: Disk, source: string, target: string): (Disk, End)
    requires source in d.entries
  {
    var fate := NextFate(d);
    (Spend(d, if fate.Fine? then (d.entries - {source})[target := d.entries[source]] else d.entries), EndOf(fate))
  }

  /** Removing a tree is not atomic: a broken removal leaves any remains under the same name. */
  function Remove(d: Disk, name: string): (Disk, End) {
    var fate := NextFate(d);
    (Spend(d, if fate.Fine? then d.entries - {name} else d.entries[name := fate.left]), EndOf(fate))
  }

  function Copy(d: Disk, source: Tree, target: string): (Disk, End) {
    var fate := NextFate(d);
    (Spend(d, d.entries[target := if fate.Fine? then source else fate.left]), EndOf(fate))
  }

  function MakeDirectory(d: Disk, name: string): (Disk, End) {
    var fate := NextFate(d);
    (Spend(d, if fate.Fine? then d.entries[name := map[]] else d.entries), EndOf(fate))
  }

  function RemoveAll(d: Disk, names: seq<string>): (Disk, End)
    decreases |names|
  {
    if names == [] then (d, Done)
    else
      var (after, end) := Remove(d, names[0]);
      if end.Done? then RemoveAll(after, names[1..]) else (after, end)
  }

  /* ------------------------------------------------------------------ recovery and installation */

  /** Decides from a tree and its expected name whether it is a complete skill. */
  type Validator = (Tree, string) -> bool

  function Recover(d: Disk, name: string, valid: Validator): (Disk, End) {
    var backups := Sorted(Backups(d.entries, name));
    if backups == [] then (d, Done)
    else if name in d.entries then RemoveAll(d, backups)
    else if |backups| != 1 then (d, Stopped(Error))
    else
      assert backups[0] in Backups(d.entries, name);
      if valid(d.entries[backups[0]], name) then Rename(d, backups[0], name) else (d, Stopped(Error))
  }

  /** `staged` and `backup` are the generated names. */
  datatype Request = Request(name: string, source: Tree, staged: string, backup: string) {
    predicate Proper() { SkillName(name) && StagedName(staged) && BackupName(name, backup) }
  }

  lemma NamesDiffer(q: Request)
    requires q.Proper()
    ensures q.name != q.staged && q.staged != q.backup && q.backup != q.name
  {
    StagedIsNoSkill(q.staged);
    BackupOfOneSkill(q.name, q.name, q.backup);
  }

  /** The guarded part; the flag says whether the previous skill was moved aside. */
  function Replace(d: Disk, q: Request, valid: Validator): (Disk, End, bool)
    requires q.Proper()
  {
    var (copied, end) := Copy(d, q.source, q.staged);
    if !end.Done? then (copied, end, false)
    else if !valid(q.source, q.name) then (copied, Stopped(Error), false)
    else if q.name in d.entries then MoveAside(copied, q)
    else
      var (placed, end) := Rename(copied, q.staged, q.name);
      (placed, end, false)
  }

  function MoveAside(d: Disk, q: Request): (Disk, End, bool)
    requires q.Proper() && q.name in d.entries && q.staged in d.entries
  {
    NamesDiffer(q);
    var (moved, end) := Rename(d, q.name, q.backup);
    if end.Done? then PlaceNew(moved, q) else (moved, end, false)
  }

  function PlaceNew(d: Disk, q: Request): (Disk, End, bool)
    requires q.staged in d.entries
  {
    var (placed, end) := Rename(d, q.staged, q.name);
    if !end.Done? then (placed, end, true)
    else
      var (cleaned, end) := Remove(placed, q.backup);
      (cleaned, end, true)
  }

  /** The exception handler, for errors after the previous skill was moved aside. */
  function Restore(d: Disk, q: Request): (Disk, End) {
    var (cleared, end) := if q.name in d.entries then Remove(d, q.name) else (d, Done);
    if !end.Done? then (cleared, end)
    else if q.backup !in cleared.entries then (cleared, Stopped(Error))
    else
      var (restored, end) := Rename(cleared, q.backup, q.name);
      (restored, if end.Done? then Stopped(Error) else end)
  }

  function Cleanup(d: Disk, q: Request, end: End): (Disk, End) {
    if end == Stopped(Crash) || q.staged !in d.entries then (d, end)
    else
      var (cleaned, removed) := Remove(d, q.staged);
      (cleaned, if removed.Done? then end else removed)
  }

  function Guarded(d: Disk, q: Request, valid: Validator): (Disk, End)
    requires q.Proper()
  {
    var (replaced, end, moved) := Replace(d, q, valid);
    var (handled, end) := if end == Stopped(Error) && moved then Restore(replaced, q) else (replaced, end);
    Cleanup(handled, q, end)
  }

  function Install(d: Disk, q: Request, valid: Validator): (Disk, End)
    requires q.Proper()
  {
    var (ready, end) := Recover(d, q.name, valid);
    if !end.Done? then (ready, end)
    else
      var (made, end) := MakeDirectory(ready, q.staged);
      if !end.Done? then (made, end) else Guarded(made, q, valid)
  }

  /* ------------------------------------------------------------------ what a recovery finds */

  /** What the next undisturbed recovery leaves at the destination of a valid skill. */
  function Recovered(entries: map<string, Tree>, name: string): Option<Tree> {
    if name in entries then Some(entries[name])
    else if Backups(entries, name) == {} then None
    else Some(entries[Least(Backups(entries, name))])
  }

  ghost predicate AtMostOne(names: set<string>) { forall a, b | a in names && b in names :: a == b }

  /** No skill ever has two backups. */
  ghost predicate Kept(entries: map<string, Tree>) {
    forall name | SkillName(name) :: AtMostOne(Backups(entries, name))
  }

  /** The skill and its backups are as they were. */
  ghost predicate Untouched(before: map<string, Tree>, after: map<string, Tree>, name: string) {
    forall e | e == name || BackupName(name, e) :: (e in before <==> e in after) && (e in before ==> after[e] == before[e])
  }

  lemma UntouchedRecovers(before: map<string, Tree>, after: map<string, Tree>, name: string)
    requires Untouched(before, after, name)
    ensures Recovered(after, name) == Recovered(before, name) && Backups(after, name) == Backups(before, name)
  {
    assert Backups(after, name) == Backups(before, name);
  }

  /** Only entries of one skill and a staging directory changed. */
  ghost predicate Changes(before: map<string, Tree>, after: map<string, Tree>, name: string) {
    forall e | e != name && !BackupName(name, e) && !StagedName(e) ::
      (e in before <==> e in after) && (e in before ==> after[e] == before[e])
  }

  lemma OthersUntouched(before: map<string, Tree>, after: map<string, Tree>, name: string, other: string)
    requires SkillName(name) && SkillName(other) && name != other && Changes(before, after, name)
    ensures Untouched(before, after, other)
  {
    forall e | e == other || BackupName(other, e)
      ensures (e in before <==> e in after) && (e in before ==> after[e] == before[e])
    {
      if BackupName(other, e) {
        BackupOfOneSkill(other, name, e);
      } else {
        if BackupName(name, e) {
          BackupOfOneSkill(name, name, e);
        }
        if StagedName(e) {
          StagedIsNoSkill(e);
        }
      }
    }
  }

  /* ------------------------------------------------------------------ recovery is safe */

  lemma RemoveOne(d: Disk, names: seq<string>)
    requires |names| == 1
    ensures RemoveAll(d, names) == Remove(d, names[0])
  {
  }

  lemma AtMostOneSize(names: set<string>)
    requires AtMostOne(names)
    ensures |names| <= 1
  {
    if names != {} {
      var n :| n in names;
      assert names == {n};
    }
  }

  /** Whatever interrupts it, a recovery changes nothing that the next one finds; it completes only with
      no backup left. */
  lemma RecoverIsSafe(d: Disk, name: string, valid: Validator)
    requires SkillName(name) && Kept(d.entries)
    ensures var (after, end) := Recover(d, name, valid);
      && Recovered(after.entries, name) == Recovered(d.entries, name)
      && AtMostOne(Backups(after.entries, name))
      && Changes(d.entries, after.entries, name)
      && (end.Done? ==> Backups(after.entries, name) == {})
  {
    var backups := Backups(d.entries, name);
    var (after, end) := Recover(d, name, valid);
    AtMostOneSize(backups);
    if backups != {} {
      var b := Sorted(backups)[0];
      assert backups == {b};
      BackupOfOneSkill(name, name, b);
      if name in d.entries {
        RemoveOne(d, Sorted(backups));
      }
      assert Backups(after.entries, name) == if b in after.entries then {b} else {};
    }
  }

  /** With no disturbance a recovery succeeds exactly when there is nothing to restore, or what there is to
      restore is a complete skill: the error about several backups is never met. */
  lemma RecoverSucceeds(d: Disk, name: string, valid: Validator)
    requires SkillName(name) && Kept(d.entries) && d.fates == []
    ensures var (after, end) := Recover(d, name, valid);
      && (end.Done? <==> name in d.entries || Recovered(d.entries, name).None? || valid(Recovered(d.entries, name).value, name))
      && (end.Done? && Recovered(d.entries, name).Some? ==>
            name in after.entries && after.entries[name] == Recovered(d.entries, name).value)
      && (end.Done? && Recovered(d.entries, name).None? ==> name !in after.entries)
  {
    RecoverIsSafe(d, name, valid);
    var backups := Backups(d.entries, name);
    AtMostOneSize(backups);
    if backups != {} {
      var b := Sorted(backups)[0];
      assert backups == {b};
      if name in d.entries {
        RemoveOne(d, Sorted(backups));
      }
    }
  }

  /* ------------------------------------------------------------------ installation is safe */

  function At(entries: map<string, Tree>, name: string): Option<Tree> {
    if name in entries then Some(entries[name]) else None
  }

  /** The entries of the skill, its backup and its staging directory; everything else is as in `base`. */
  ghost predicate Shape(entries: map<string, Tree>, base: map<string, Tree>, q: Request,
                        dest: Option<Tree>, kept: Option<Tree>, staged: Option<Tree>)
  {
    && At(entries, q.name) == dest && At(entries, q.backup) == kept && At(entries, q.staged) == staged
    && forall e | e !in [q.name, q.backup, q.staged] :: At(entries, e) == At(base, e)
  }

  lemma ShapeBackups(entries: map<string, Tree>, base: map<string, Tree>, q: Request,
                     dest: Option<Tree>, kept: Option<Tree>, staged: Option<Tree>)
    requires q.Proper() && Shape(entries, base, q, dest, kept, staged) && Backups(base, q.name) == {}
    ensures Backups(entries, q.name) == if kept.Some? then {q.backup} else {}
  {
    forall e | BackupName(q.name, e) && e in entries
      ensures e == q.backup
    {
      BackupOfOneSkill(q.name, q.name, e);
      assert e == q.backup || At(entries, e) == At(base, e);
      assert e in base ==> e in Backups(base, q.name);
    }
  }

  lemma ShapeRecovers(entries: map<string, Tree>, base: map<string, Tree>, q: Request,
                      dest: Option<Tree>, kept: Option<Tree>, staged: Option<Tree>)
    requires q.Proper() && Shape(entries, base, q, dest, kept, staged) && Backups(base, q.name) == {}
    ensures Recovered(entries, q.name) == if dest.Some? then dest else kept
    ensures Backups(entries, q.name) == if kept.Some? then {q.backup} else {}
    ensures Changes(base, entries, q.name)
  {
    ShapeBackups(entries, base, q, dest, kept, staged);
    forall e | e != q.name && !BackupName(q.name, e) && !StagedName(e)
      ensures (e in base <==> e in entries) && (e in base ==> entries[e] == base[e])
    {
      assert At(entries, e) == At(base, e);
    }
  }

  /** The ways the guarded part can end. */
  ghost predicate ReplaceEnds(base: map<string, Tree>, after: map<string, Tree>, end: End, moved: bool, q: Request,
                              prior: Option<Tree>, dest: Option<Tree>, kept: Option<Tree>, staged: Option<Tree>)
  {
    && Shape(after, base, q, dest, kept, staged)
    && (end.Done? ==> dest == Some(q.source) && kept.None? && staged.None?)
    && (!end.Done? && !moved ==> dest == prior && kept.None?)
    && (!end.Done? && moved ==> (dest.None? && kept == prior && prior.Some?) || (dest == Some(q.source) && kept.Some? && staged.None?))
  }

  lemma PlaceNewShape(d: Disk, q: Request, base: map<string, Tree>, kept: Option<Tree>)
    returns (dest: Option<Tree>, left: Option<Tree>, staged: Option<Tree>)
    requires q.Proper() && Shape(d.entries, base, q, None, kept, Some(q.source)) && kept.Some?
    ensures var (after, end, moved) := PlaceNew(d, q);
      ReplaceEnds(base, after.entries, end, moved, q, kept, dest, left, staged)
  {
    NamesDiffer(q);
    var (after, end, moved) := PlaceNew(d, q);
    dest, left, staged := At(after.entries, q.name), At(after.entries, q.backup), At(after.entries, q.staged);
  }

  lemma MoveAsideShape(d: Disk, q: Request, base: map<string, Tree>, prior: Option<Tree>)
    returns (dest: Option<Tree>, kept: Option<Tree>, staged: Option<Tree>)
    requires q.Proper() && Shape(d.entries, base, q, prior, None, Some(q.source)) && prior.Some?
    ensures var (after, end, moved) := MoveAside(d, q);
      ReplaceEnds(base, after.entries, end, moved, q, prior, dest, kept, staged)
  {
    NamesDiffer(q);
    var (moved, end) := Rename(d, q.name, q.backup);
    if end.Done? {
      assert Shape(moved.entries, base, q, None, prior, Some(q.source));
      dest, kept, staged := PlaceNewShape(moved, q, base, prior);
    } else {
      dest, kept, staged := prior, None, Some(q.source);
    }
  }

  lemma ReplaceShape(d: Disk, q: Request, valid: Validator, base: map<string, Tree>, prior: Option<Tree>)
    returns (dest: Option<Tree>, kept: Option<Tree>, staged: Option<Tree>)
    requires q.Proper() && Shape(d.entries, base, q, prior, None, Some(map[]))
    ensures var (after, end, moved) := Replace(d, q, valid);
      ReplaceEnds(base, after.entries, end, moved, q, prior, dest, kept, staged)
  {
    NamesDiffer(q);
    var (copied, end) := Copy(d, q.source, q.staged);
    if !end.Done? || !valid(q.source, q.name) {
      dest, kept, staged := prior, None, At(copied.entries, q.staged);
    } else {
      assert Shape(copied.entries, base, q, prior, None, Some(q.source));
      if prior.Some? {
        dest, kept, staged := MoveAsideShape(copied, q, base, prior);
      } else {
        var (placed, end) := Rename(copied, q.staged, q.name);
        dest, kept, staged := At(placed.entries, q.name), None, At(placed.entries, q.staged);
      }
    }
  }

  /** The handler's own guard: the new skill was already in place when the error came. */
  predicate HandlerFindsNew(d: Disk, q: Request, valid: Validator)
    requires q.Proper()
  {
    var (replaced, end, moved) := Replace(d, q, valid);
    end == Stopped(Error) && moved && q.name in replaced.entries
  }

  /** What the handler leaves then: the remains of the backup it puts back, or of the new skill it could
      not remove. */
  function Remains(d: Disk, q: Request, valid: Validator): Tree
    requires q.Proper() && HandlerFindsNew(d, q, valid)
  {
    var (replaced, _, _) := Replace(d, q, valid);
    var (cleared, end) := Remove(replaced, q.name);
    if end.Done? && q.backup in replaced.entries then replaced.entries[q.backup] else Recovered(cleared.entries, q.name).value
  }

  /** What `Guarded` guarantees from a directory without backups of the skill. */
  ghost predicate Outcome(d: Disk, q: Request, valid: Validator, after: map<string, Tree>, end: End, prior: Option<Tree>)
    requires q.Proper()
  {
    && (end.Done? ==> Recovered(after, q.name) == Some(q.source) && Backups(after, q.name) == {} && q.staged !in after)
    && (!HandlerFindsNew(d, q, valid) ==> Recovered(after, q.name) in [prior, Some(q.source)])
    && (!HandlerFindsNew(d, q, valid) && end == Stopped(Error) ==> Recovered(after, q.name) == prior)
    && (HandlerFindsNew(d, q, valid) ==> !end.Done? && Recovered(after, q.name) == Some(Remains(d, q, valid)))
    && AtMostOne(Backups(after, q.name))
  }

  lemma CleanupShape(d: Disk, q: Request, end: End, base: map<string, Tree>,
                     dest: Option<Tree>, kept: Option<Tree>, staged: Option<Tree>)
    requires q.Proper() && Shape(d.entries, base, q, dest, kept, staged)
    ensures var (after, ended) := Cleanup(d, q, end);
      && Shape(after.entries, base, q, dest, kept, At(after.entries, q.staged))
      && (ended.Done? ==> end.Done? && q.staged !in after.entries)
      && (end.Done? && staged.None? ==> ended.Done?)
  {
    NamesDiffer(q);
  }

  lemma RestoreShape(d: Disk, q: Request, base: map<string, Tree>, kept: Option<Tree>, staged: Option<Tree>)
    requires q.Proper() && Shape(d.entries, base, q, None, kept, staged) && kept.Some?
    ensures var (after, end) := Restore(d, q);
      && !end.Done?
      && (Shape(after.entries, base, q, None, kept, staged) || Shape(after.entries, base, q, kept, None, staged))
  {
    NamesDiffer(q);
  }

  lemma RestoreOverNewShape(d: Disk, q: Request, base: map<string, Tree>, dest: Option<Tree>, kept: Option<Tree>,
        staged: Option<Tree>)
    requires q.Proper() && Shape(d.entries, base, q, dest, kept, staged) && dest.Some? && kept.Some?
    ensures var (after, end) := Restore(d, q);
      var (cleared, removed) := Remove(d, q.name);
      && !end.Done?
      && (removed.Done? ==> Shape(after.entries, base, q, None, kept, staged) || Shape(after.entries, base, q, kept, None, staged))
      && (!removed.Done? ==> after == cleared && Shape(after.entries, base, q, At(cleared.entries, q.name), kept, staged)
                             && q.name in cleared.entries)
  {
    NamesDiffer(q);
  }

  /** Past the handler: the entries of the skill, and what is recovered from them. */
  lemma HandledShape(d: Disk, q: Request, valid: Validator, base: map<string, Tree>, prior: Option<Tree>)
    returns (dest: Option<Tree>, kept: Option<Tree>, staged: Option<Tree>)
    requires q.Proper() && Shape(d.entries, base, q, prior, None, Some(map[])) && HandlerFindsNew(d, q, valid)
    ensures var (after, end) := Restore(Replace(d, q, valid).0, q);
      && !end.Done? && Shape(after.entries, base, q, dest, kept, staged)
      && (if dest.Some? then dest else kept) == Some(Remains(d, q, valid))
  {
    NamesDiffer(q);
    var (replaced, end, moved) := Replace(d, q, valid);
    dest, kept, staged := ReplaceShape(d, q, valid, base, prior);
    RestoreOverNewShape(replaced, q, base, dest, kept, staged);
    var (after, _) := Restore(replaced, q);
    dest, kept := At(after.entries, q.name), At(after.entries, q.backup);
  }

  lemma GuardedOutcome(d: Disk, q: Request, valid: Validator, base: map<string, Tree>, prior: Option<Tree>)
    requires q.Proper() && Shape(d.entries, base, q, prior, None, Some(map[])) && Backups(base, q.name) == {}
    ensures var (after, end) := Guarded(d, q, valid);
      Outcome(d, q, valid, after.entries, end, prior) && Changes(base, after.entries, q.name)
  {
    var (replaced, end, moved) := Replace(d, q, valid);
    var dest, kept, staged := ReplaceShape(d, q, valid, base, prior);
    var (handled, ended) := if end == Stopped(Error) && moved then Restore(replaced, q) else (replaced, end);
    if HandlerFindsNew(d, q, valid) {
      dest, kept, staged := HandledShape(d, q, valid, base, prior);
    } else if end == Stopped(Error) && moved {
      RestoreShape(replaced, q, base, kept, staged);
      dest, kept := At(handled.entries, q.name), At(handled.entries, q.backup);
    }
    CleanupShape(handled, q, ended, base, dest, kept, staged);
    var (after, _) := Cleanup(handled, q, ended);
    ShapeRecovers(after.entries, base, q, dest, kept, At(after.entries, q.staged));
  }

  /** The run gets as far as its handler, and the handler finds the new skill in place: an error broke the
      removal of the backup. */
  predicate Spoils(d: Disk, q: Request, valid: Validator)
    requires q.Proper()
  {
    var (ready, end) := Recover(d, q.name, valid);
    end.Done? &&
    var (made, end) := MakeDirectory(ready, q.staged);
    end.Done? && HandlerFindsNew(made, q, valid)
  }

  function SpoiledBy(d: Disk, q: Request, valid: Validator): Tree
    requires q.Proper() && Spoils(d, q, valid)
  {
    Remains(MakeDirectory(Recover(d, q.name, valid).0, q.staged).0, q, valid)
  }

  /** What one installation does to its skill and to the others, wherever it stops. */
  ghost predicate SafeStep(d: Disk, q: Request, valid: Validator, after: map<string, Tree>, end: End)
    requires q.Proper()
  {
    && (end.Done? ==> Recovered(after, q.name) == Some(q.source) && Backups(after, q.name) == {} && q.staged !in after)
    && (!Spoils(d, q, valid) ==> Recovered(after, q.name) in [Recovered(d.entries, q.name), Some(q.source)])
    && (!Spoils(d, q, valid) && end == Stopped(Error) ==> Recovered(after, q.name) == Recovered(d.entries, q.name))
    && (Spoils(d, q, valid) ==> !end.Done? && Recovered(after, q.name) == Some(SpoiledBy(d, q, valid)))
    && AtMostOne(Backups(after, q.name))
    && Changes(d.entries, after, q.name)
  }

  lemma InstallIsSafe(d: Disk, q: Request, valid: Validator)
    requires q.Proper() && Kept(d.entries) && q.staged !in d.entries && q.backup !in d.entries
    ensures var (after, end) := Install(d, q, valid);
      SafeStep(d, q, valid, after.entries, end)
  {
    NamesDiffer(q);
    RecoverIsSafe(d, q.name, valid);
    var (ready, end) := Recover(d, q.name, valid);
    if end.Done? {
      NotRecovered(d, q, valid);
      var (made, end) := MakeDirectory(ready, q.staged);
      if end.Done? {
        var prior := At(ready.entries, q.name);
        assert Shape(made.entries, ready.entries, q, prior, None, Some(map[]));
        GuardedOutcome(made, q, valid, ready.entries, prior);
      }
    }
  }

  lemma NotRecovered(d: Disk, q: Request, valid: Validator)
    requires q.Proper() && Kept(d.entries) && q.staged !in d.entries && q.backup !in d.entries
    ensures var (ready, end) := Recover(d, q.name, valid);
      end.Done? ==> q.backup !in ready.entries && q.staged !in ready.entries
  {
    NamesDiffer(q);
    RecoverIsSafe(d, q.name, valid);
    var (ready, end) := Recover(d, q.name, valid);
    assert end.Done? && q.backup in ready.entries ==> q.backup in Backups(ready.entries, q.name);
    StagedStays(d, q, valid);
  }

  lemma StagedStays(d: Disk, q: Request, valid: Validator)
    requires q.Proper() && Kept(d.entries) && q.staged !in d.entries
    ensures q.staged !in Recover(d, q.name, valid).0.entries
  {
    NamesDiffer(q);
    var backups := Backups(d.entries, q.name);
    AtMostOneSize(backups);
    if backups != {} {
      var b := Sorted(backups)[0];
      assert backups == {b};
      BackupOfOneSkill(q.name, q.name, b);
      if q.name in d.entries {
        RemoveOne(d, Sorted(backups));
      }
    }
  }

  /* ------------------------------------------------------------------ runs */

  /** One call of the installer with the fates of its filesystem calls. */
  datatype Attempt = Attempt(request: Request, fates: seq<Fate>)

  function RunOf(entries: map<string, Tree>, attempts: seq<Attempt>, valid: Validator): map<string, Tree>
    requires forall a | a in attempts :: a.request.Proper()
  {
    if attempts == [] then entries
    else
      var last := attempts[|attempts| - 1];
      Install(Disk(RunOf(entries, attempts[..|attempts| - 1], valid), last.fates), last.request, valid).0.entries
  }

  /** The generated names are new, and no error breaks the removal of a backup. */
  ghost predicate Orderly(entries: map<string, Tree>, attempts: seq<Attempt>, valid: Validator)
    requires forall a | a in attempts :: a.request.Proper()
  {
    attempts == [] ||
    var init, last := attempts[..|attempts| - 1], attempts[|attempts| - 1];
    var before := RunOf(entries, init, valid);
    && Orderly(entries, init, valid)
    && last.request.staged !in before && last.request.backup !in before
    && !Spoils(Disk(before, last.fates), last.request, valid)
  }

  lemma StepKeeps(before: map<string, Tree>, after: map<string, Tree>, name: string)
    requires SkillName(name) && Kept(before) && Changes(before, after, name) && AtMostOne(Backups(after, name))
    ensures Kept(after)
    ensures forall other | SkillName(other) && other != name :: Recovered(after, other) == Recovered(before, other)
  {
    forall other | SkillName(other) && other != name
      ensures Recovered(after, other) == Recovered(before, other) && Backups(after, other) == Backups(before, other)
    {
      OthersUntouched(before, after, name, other);
      UntouchedRecovers(before, after, other);
    }
  }

  /** A change of the staging directory alone. */
  lemma StagingUntouched(before: map<string, Tree>, after: map<string, Tree>, q: Request)
    requires q.Proper()
    requires forall e | e != q.staged :: (e in before <==> e in after) && (e in before ==> after[e] == before[e])
    ensures Untouched(before, after, q.name)
  {
    NamesDiffer(q);
    forall e | BackupName(q.name, e)
      ensures e != q.staged
    {
      BackupOfOneSkill(q.name, q.name, e);
    }
  }

  lemma GuardedRefuses(made: Disk, q: Request, valid: Validator)
    requires q.Proper() && !valid(q.source, q.name)
    ensures Untouched(made.entries, Guarded(made, q, valid).0.entries, q.name)
  {
    var (copied, end) := Copy(made, q.source, q.staged);
    var stopped := if end.Done? then Stopped(Error) else end;
    assert Replace(made, q, valid) == (copied, stopped, false);
    assert Guarded(made, q, valid) == Cleanup(copied, q, stopped);
    StagingUntouched(made.entries, Cleanup(copied, q, stopped).0.entries, q);
  }

  /** A source that is no valid skill changes nothing of what the next recovery finds. */
  lemma InvalidIsRefused(d: Disk, q: Request, valid: Validator)
    requires q.Proper() && Kept(d.entries) && !valid(q.source, q.name)
    ensures Recovered(Install(d, q, valid).0.entries, q.name) == Recovered(d.entries, q.name)
  {
    RecoverIsSafe(d, q.name, valid);
    var (ready, end) := Recover(d, q.name, valid);
    if end.Done? {
      var (made, end) := MakeDirectory(ready, q.staged);
      StagingUntouched(ready.entries, made.entries, q);
      UntouchedRecovers(ready.entries, made.entries, q.name);
      if end.Done? {
        GuardedRefuses(made, q, valid);
        UntouchedRecovers(made.entries, Guarded(made, q, valid).0.entries, q.name);
      }
    }
  }

  /** What is found is a valid source of one of the attempts. */
  ghost predicate Installed(found: Option<Tree>, attempts: seq<Attempt>, valid: Validator, name: string) {
    exists a | a in attempts :: a.request.name == name && found == Some(a.request.source) && valid(a.request.source, name)
  }

  /** Over any run of installations, each interrupted anywhere: no skill ever has two backups, and what the
      next recovery finds for a skill is complete: the tree it had at first or a valid one that was installed. */
  lemma {:induction false} RunIsSafe(entries: map<string, Tree>, attempts: seq<Attempt>, valid: Validator, name: string)
    requires forall a | a in attempts :: a.request.Proper()
    requires SkillName(name) && Kept(entries) && Orderly(entries, attempts, valid)
    ensures Kept(RunOf(entries, attempts, valid))
    ensures var found := Recovered(RunOf(entries, attempts, valid), name);
      found == Recovered(entries, name) || Installed(found, attempts, valid, name)
  {
    if attempts != [] {
      var init, last := attempts[..|attempts| - 1], attempts[|attempts| - 1];
      RunIsSafe(entries, init, valid, name);
      var d := Disk(RunOf(entries, init, valid), last.fates);
      InstallIsSafe(d, last.request, valid);
      StepKeeps(d.entries, Install(d, last.request, valid).0.entries, last.request.name);
      if last.request.name == name && !valid(last.request.source, name) {
        InvalidIsRefused(d, last.request, valid);
      }
      assert last in attempts;
      if Installed(Recovered(d.entries, name), init, valid, name) {
        InstalledBefore(Recovered(d.entries, name), attempts, valid, name);
      }
    }
  }

  lemma InstalledBefore(found: Option<Tree>, attempts: seq<Attempt>, valid: Validator, name: string)
    requires attempts != [] && Installed(found, attempts[..|attempts| - 1], valid, name)
    ensures Installed(found, attempts, valid, name)
  {
  }

  /** So after any such run an undisturbed recovery succeeds, for a skill that was absent or valid at first. */
  lemma RunRecovers(entries: map<string, Tree>, attempts: seq<Attempt>, valid: Validator, name: string)
    requires forall a | a in attempts :: a.request.Proper()
    requires SkillName(name) && Kept(entries) && Orderly(entries, attempts, valid)
    requires Recovered(entries, name).Some? ==> valid(Recovered(entries, name).value, name)
    ensures var found := Recovered(RunOf(entries, attempts, valid), name);
      var (after, end) := Recover(Disk(RunOf(entries, attempts, valid), []), name, valid);
      && end.Done? && (name in after.entries <==> found.Some?)
      && (found.Some? ==> after.entries[name] == found.value && valid(found.value, name))
  {
    RunIsSafe(entries, attempts, valid, name);
    RecoverSucceeds(Disk(RunOf(entries, attempts, valid), []), name, valid);
  }

  /* ------------------------------------------------------------------ what an installation achieves */

  /** Without disturbance the guarded part puts a valid source in place, and leaves the directory of a
      refused one as it was; neither backup nor staging directory remains. */
  lemma GuardedAchieves(d: Disk, q: Request, valid: Validator, base: map<string, Tree>, prior: Option<Tree>)
    requires q.Proper() && d.fates == [] && Shape(d.entries, base, q, prior, None, Some(map[]))
    ensures var (after, end) := Guarded(d, q, valid);
      && (end.Done? <==> valid(q.source, q.name)) && (!end.Done? ==> end == Stopped(Error))
      && Shape(after.entries, base, q, if end.Done? then Some(q.source) else prior, None, None)
  {
    NamesDiffer(q);
    var (copied, _) := Copy(d, q.source, q.staged);
    if !valid(q.source, q.name) {
      assert Replace(d, q, valid) == (copied, Stopped(Error), false);
    } else if q.name in d.entries {
      var moved := Rename(copied, q.name, q.backup).0;
      var placed := Rename(moved, q.staged, q.name).0;
      assert Replace(d, q, valid) == (Remove(placed, q.backup).0, Done, true);
    } else {
      assert Replace(d, q, valid) == (Rename(copied, q.staged, q.name).0, Done, false);
    }
  }

  /** The same for an installation whose recovery went through. */
  lemma ReadyInstalls(d: Disk, q: Request, valid: Validator)
    requires q.Proper() && Recover(d, q.name, valid).1.Done?
    requires var ready := Recover(d, q.name, valid).0;
      ready.fates == [] && q.staged !in ready.entries && q.backup !in ready.entries
    ensures var ready := Recover(d, q.name, valid).0;
      var (after, end) := Install(d, q, valid);
      && (end.Done? <==> valid(q.source, q.name))
      && Shape(after.entries, ready.entries, q, if end.Done? then Some(q.source) else At(ready.entries, q.name), None, None)
  {
    NamesDiffer(q);
    var ready := Recover(d, q.name, valid).0;
    var (made, _) := MakeDirectory(ready, q.staged);
    assert Shape(made.entries, ready.entries, q, At(ready.entries, q.name), None, Some(map[]));
    GuardedAchieves(made, q, valid, ready.entries, At(ready.entries, q.name));
    assert Install(d, q, valid) == Guarded(made, q, valid);
  }

  /** Without disturbance an installation succeeds if and only if the source is a valid skill and there is
      nothing broken to recover; the source is then in place, and everything else is as it was. */
  lemma InstallSucceeds(d: Disk, q: Request, valid: Validator)
    requires q.Proper() && Kept(d.entries) && q.staged !in d.entries && q.backup !in d.entries && d.fates == []
    ensures var (after, end) := Install(d, q, valid);
      var found := Recovered(d.entries, q.name);
      && (end.Done? <==> valid(q.source, q.name) && (q.name in d.entries || found.None? || valid(found.value, q.name)))
      && (end.Done? ==> At(after.entries, q.name) == Some(q.source))
      && (!end.Done? && (q.name in d.entries || found.None? || valid(found.value, q.name)) ==>
            At(after.entries, q.name) == found)
      && Recovered(after.entries, q.name) == (if end.Done? then Some(q.source) else found)
      && forall e | e != q.name && !BackupName(q.name, e) :: At(after.entries, e) == At(d.entries, e)
  {
    NamesDiffer(q);
    RecoverIsSafe(d, q.name, valid);
    RecoverSucceeds(d, q.name, valid);
    NotRecovered(d, q, valid);
    InstallIsSafe(d, q, valid);
    RecoverSpendsNothing(d, q.name, valid);
    RecoverTouchesOwn(d, q.name, valid);
    if Recover(d, q.name, valid).1.Done? {
      ReadyInstalls(d, q, valid);
    }
  }

  lemma {:induction false} RemovedTouchOwn(d: Disk, names: seq<string>, e: string)
    requires e !in names
    ensures At(RemoveAll(d, names).0.entries, e) == At(d.entries, e)
    decreases |names|
  {
    if names != [] && Remove(d, names[0]).1.Done? {
      RemovedTouchOwn(Remove(d, names[0]).0, names[1..], e);
    }
  }

  /** A recovery touches the skill and its backups only. */
  lemma RecoverTouchesOwn(d: Disk, name: string, valid: Validator)
    ensures forall e | e != name && !BackupName(name, e) :: At(Recover(d, name, valid).0.entries, e) == At(d.entries, e)
  {
    var backups := Sorted(Backups(d.entries, name));
    forall e | e != name && !BackupName(name, e)
      ensures At(Recover(d, name, valid).0.entries, e) == At(d.entries, e)
    {
      assert e !in backups;
      RemovedTouchOwn(d, backups, e);
      if backups != [] {
        assert backups[0] in Backups(d.entries, name);
      }
    }
  }

  lemma {:induction false} RemovedSpendNothing(d: Disk, names: seq<string>)
    requires d.fates == []
    ensures RemoveAll(d, names).0.fates == [] && RemoveAll(d, names).1.Done?
    decreases |names|
  {
    if names != [] {
      RemovedSpendNothing(Remove(d, names[0]).0, names[1..]);
    }
  }

  lemma RecoverSpendsNothing(d: Disk, name: string, valid: Validator)
    requires d.fates == []
    ensures Recover(d, name, valid).0.fates == []
  {
    RemovedSpendNothing(d, Sorted(Backups(d.entries, name)));
  }

  /** At most one call still to come breaks, and with an error. */
  predicate OneError(fates: seq<Fate>) {
    fates == [] || (fates[0].Fine? && OneError(fates[1..])) || (|fates| == 1 && fates[0].kind.Error?)
  }

  /** A call leaves at most one error behind, and none if it broke itself. */
  lemma SpentOne(d: Disk, entries: map<string, Tree>)
    requires OneError(d.fates)
    ensures OneError(Spend(d, entries).fates)
    ensures NextFate(d).Broken? ==> NextFate(d).kind.Error? && Spend(d, entries).fates == []
  {
  }

  lemma {:induction false} RemovedSpendOne(d: Disk, names: seq<string>)
    requires OneError(d.fates)
    ensures OneError(RemoveAll(d, names).0.fates)
    decreases |names|
  {
    if names != [] {
      SpentOne(d, d.entries);
      RemovedSpendOne(Remove(d, names[0]).0, names[1..]);
    }
  }

  lemma RecoverSpendsOne(d: Disk, name: string, valid: Validator)
    requires OneError(d.fates)
    ensures OneError(Recover(d, name, valid).0.fates)
  {
    SpentOne(d, d.entries);
    RemovedSpendOne(d, Sorted(Backups(d.entries, name)));
  }

  /** The error came before the new skill was in place: the handler puts the previous one back. */
  lemma PlaceNewUndone(d: Disk, q: Request, base: map<string, Tree>, kept: Tree)
    requires q.Proper() && Shape(d.entries, base, q, None, Some(kept), Some(q.source)) && OneError(d.fates)
    ensures var (placed, end, _) := PlaceNew(d, q);
      && (end.Done? ==> Shape(placed.entries, base, q, Some(q.source), None, None))
      && (!end.Done? ==> end == Stopped(Error) && placed.fates == [])
      && (!end.Done? && q.name !in placed.entries ==>
            Restore(placed, q).1 == Stopped(Error) && Restore(placed, q).0.fates == []
            && Shape(Restore(placed, q).0.entries, base, q, Some(kept), None, Some(q.source)))
  {
    NamesDiffer(q);
    SpentOne(d, d.entries);
    var (placed, end) := Rename(d, q.staged, q.name);
    if end.Done? {
      SpentOne(placed, placed.entries);
    }
  }

  /** What the guarded part leaves when nothing that broke is left behind. */
  ghost predicate Undone(after: map<string, Tree>, end: End, q: Request, base: map<string, Tree>, prior: Option<Tree>) {
    (end.Done? || end == Stopped(Error)) && Shape(after, base, q, if end.Done? then Some(q.source) else prior, None, None)
  }

  lemma CleanupUndoes(d: Disk, q: Request, end: End, base: map<string, Tree>, prior: Option<Tree>, staged: Option<Tree>)
    requires q.Proper() && d.fates == [] && (end.Done? ==> staged.None?) && (end.Done? || end == Stopped(Error))
    requires Shape(d.entries, base, q, if end.Done? then Some(q.source) else prior, None, staged)
    ensures Undone(Cleanup(d, q, end).0.entries, Cleanup(d, q, end).1, q, base, prior)
  {
    NamesDiffer(q);
  }

  lemma GuardedUndone(d: Disk, q: Request, valid: Validator, base: map<string, Tree>, prior: Option<Tree>)
    requires q.Proper() && Shape(d.entries, base, q, prior, None, Some(map[])) && OneError(d.fates) && valid(q.source, q.name)
    requires !HandlerFindsNew(d, q, valid)
    ensures Undone(Guarded(d, q, valid).0.entries, Guarded(d, q, valid).1, q, base, prior)
  {
    NamesDiffer(q);
    var (copied, copyEnd) := Copy(d, q.source, q.staged);
    SpentOne(d, copied.entries);
    if !copyEnd.Done? {
      assert Replace(d, q, valid) == (copied, Stopped(Error), false);
      CleanupUndoes(copied, q, Stopped(Error), base, prior, At(copied.entries, q.staged));
    } else {
      CopiedUndone(d, copied, q, valid, base, prior);
    }
  }

  lemma CopiedUndone(d: Disk, copied: Disk, q: Request, valid: Validator, base: map<string, Tree>, prior: Option<Tree>)
    requires q.Proper() && Shape(copied.entries, base, q, prior, None, Some(q.source)) && OneError(copied.fates) &&
          valid(q.source, q.name)
    requires Copy(d, q.source, q.staged) == (copied, Done) && (q.name in d.entries <==> prior.Some?)
    requires !HandlerFindsNew(d, q, valid)
    ensures Undone(Guarded(d, q, valid).0.entries, Guarded(d, q, valid).1, q, base, prior)
  {
    NamesDiffer(q);
    if prior.None? {
      var (placed, end) := Rename(copied, q.staged, q.name);
      SpentOne(copied, placed.entries);
      assert Replace(d, q, valid) == (placed, end, false);
      assert Guarded(d, q, valid) == Cleanup(placed, q, end);
      if !end.Done? {
        CleanupUndoes(placed, q, end, base, prior, At(placed.entries, q.staged));
      }
    } else {
      var (moved, end) := Rename(copied, q.name, q.backup);
      SpentOne(copied, moved.entries);
      if end.Done? {
        assert Replace(d, q, valid) == PlaceNew(moved, q);
        MovedUndone(moved, q, base, prior.value);
      } else {
        assert Replace(d, q, valid) == (moved, end, false);
        CleanupUndoes(moved, q, end, base, prior, At(moved.entries, q.staged));
      }
    }
  }

  lemma MovedUndone(moved: Disk, q: Request, base: map<string, Tree>, kept: Tree)
    requires q.Proper() && Shape(moved.entries, base, q, None, Some(kept), Some(q.source)) && OneError(moved.fates)
    requires var (placed, end, _) := PlaceNew(moved, q); !(end == Stopped(Error) && q.name in placed.entries)
    ensures var (placed, end, _) := PlaceNew(moved, q);
      var (handled, ended) := if end == Stopped(Error) then Restore(placed, q) else (placed, end);
      var (after, last) := Cleanup(handled, q, ended);
      Undone(after.entries, last, q, base, Some(kept))
  {
    NamesDiffer(q);
    PlaceNewUndone(moved, q, base, kept);
    var (placed, end, _) := PlaceNew(moved, q);
    if !end.Done? {
      var (handled, ended) := Restore(placed, q);
      CleanupUndoes(handled, q, ended, base, Some(kept), Some(q.source));
    }
  }

  /** If one call of an installation fails at most, a valid source is installed, or the installation fails and
      the skill stands in its place again as it was; nothing is left in the directory either way.  Only an
      error in the removal of the backup is excepted. */
  lemma OneErrorIsUndone(d: Disk, q: Request, valid: Validator)
    requires q.Proper() && Kept(d.entries) && q.staged !in d.entries && q.backup !in d.entries
    requires OneError(d.fates) && valid(q.source, q.name) && Recover(d, q.name, valid).1.Done? && !Spoils(d, q, valid)
    ensures var (after, end) := Install(d, q, valid);
      && (end.Done? || end == Stopped(Error))
      && At(after.entries, q.name) == (if end.Done? then Some(q.source) else Recovered(d.entries, q.name))
      && q.staged !in after.entries && Backups(after.entries, q.name) == {}
  {
    NamesDiffer(q);
    RecoverIsSafe(d, q.name, valid);
    NotRecovered(d, q, valid);
    RecoverSpendsOne(d, q.name, valid);
    var (ready, _) := Recover(d, q.name, valid);
    var (made, end) := MakeDirectory(ready, q.staged);
    SpentOne(ready, made.entries);
    if end.Done? {
      var prior := At(ready.entries, q.name);
      assert Shape(made.entries, ready.entries, q, prior, None, Some(map[]));
      GuardedUndone(made, q, valid, ready.entries, prior);
      var (after, last) := Guarded(made, q, valid);
      ShapeRecovers(after.entries, ready.entries, q, if last.Done? then Some(q.source) else prior, None, None);
    }
  }

  /* ------------------------------------------------------------------ where it does not hold */

  lemma ReachesPlaceNew(made: Disk, q: Request, prior: Tree, rest: seq<Fate>, valid: Validator)
    requires q.Proper() && valid(q.source, q.name)
    requires made == Disk(map[q.name := prior, q.staged := map[]], [Fine, Fine] + rest)
    ensures Replace(made, q, valid) == PlaceNew(Disk(map[q.backup := prior, q.staged := q.source], rest), q)
  {
    NamesDiffer(q);
    var copied := Copy(made, q.source, q.staged).0;
    assert copied == Disk(map[q.name := prior, q.staged := q.source], [Fine] + rest);
    var moved := Rename(copied, q.name, q.backup).0;
    assert moved == Disk(map[q.backup := prior, q.staged := q.source], rest);
  }

  /** An error while the backup is removed makes the handler delete the new skill and put the remains of the
      old one in its place: any part of it. */
  lemma HandlerLosesBoth(q: Request, prior: Tree, remains: Tree, valid: Validator)
    requires q.Proper() && valid(q.source, q.name)
    ensures var d := Disk(map[q.name := prior], [Fine] + ([Fine, Fine] + [Fine, Broken(Error, remains)]));
      var (after, end) := Install(d, q, valid);
      && end == Stopped(Error) && Spoils(d, q, valid)
      && after.entries == map[q.name := remains]
  {
    var rest := [Fine, Broken(Error, remains)];
    var d := Disk(map[q.name := prior], [Fine] + ([Fine, Fine] + rest));
    NamesDiffer(q);
    var made := MakeDirectory(d, q.staged).0;
    assert made == Disk(map[q.name := prior, q.staged := map[]], [Fine, Fine] + rest);
    ReachesPlaceNew(made, q, prior, rest, valid);
    LosesFrom(Disk(map[q.backup := prior, q.staged := q.source], rest), q, prior, remains);
    assert Guarded(made, q, valid) == (Disk(map[q.name := remains], []), Stopped(Error));
  }

  lemma RestoresRemains(broken: Disk, q: Request, remains: Tree)
    requires q.Proper() && broken == Disk(map[q.backup := remains, q.name := q.source], [])
    ensures Restore(broken, q) == (Disk(map[q.name := remains], []), Stopped(Error))
  {
    NamesDiffer(q);
    var cleared := Remove(broken, q.name).0;
    assert cleared.entries == map[q.backup := remains];
    assert Rename(cleared, q.backup, q.name).0.entries == map[q.name := remains];
  }

  lemma LosesFrom(moved: Disk, q: Request, prior: Tree, remains: Tree)
    requires q.Proper() && moved.entries == map[q.backup := prior, q.staged := q.source]
    requires moved.fates == [Fine, Broken(Error, remains)]
    ensures var (replaced, end, aside) := PlaceNew(moved, q);
      && end == Stopped(Error) && aside && q.name in replaced.entries && q.staged !in replaced.entries
      && Restore(replaced, q) == (Disk(map[q.name := remains], []), Stopped(Error))
  {
    NamesDiffer(q);
    var placed := Rename(moved, q.staged, q.name).0;
    assert placed.entries == map[q.backup := prior, q.name := q.source];
    var broken := Remove(placed, q.backup).0;
    assert broken == Disk(map[q.backup := remains, q.name := q.source], []);
    RestoresRemains(broken, q, remains);
  }

  /* ------------------------------------------------------------------ the program */

  class SkillsDirectory {
    var entries: map<string, Tree>
    var fates: seq<Fate>
    const valid: Validator

    ghost function State(): Disk
      reads this
    {
      Disk(entries, fates)
    }

    constructor (entries: map<string, Tree>, fates: seq<Fate>, valid: Validator)
      ensures State() == Disk(entries, fates) && this.valid == valid
    {
      this.entries, this.fates, this.valid := entries, fates, valid;
    }

    /** The fate of the next call. */
    method Meet() returns (fate: Fate)
      modifies this`fates
      ensures fate == old(NextFate(State())) && State() == old(Spend(State(), entries))
    {
      fate := Fine;
      if fates != [] {
        fate, fates := fates[0], fates[1..];
      }
    }

    method ReplacePath(source: string, target: string) returns (end: End)
      requires source in entries
      modifies this
      ensures (State(), end) == old(Rename(State(), source, target))
    {
      var fate := Meet();
      if fate.Fine? {
        entries := (entries - {source})[target := entries[source]];
      }
      end := EndOf(fate);
    }

    method RemovePath(name: string) returns (end: End)
      modifies this
      ensures (State(), end) == old(Remove(State(), name))
    {
      var fate := Meet();
      entries := if fate.Fine? then entries - {name} else entries[name := fate.left];
      end := EndOf(fate);
    }

    method CopyTree(source: Tree, target: string) returns (end: End)
      modifies this
      ensures (State(), end) == old(Copy(State(), source, target))
    {
      var fate := Meet();
      entries := entries[target := if fate.Fine? then source else fate.left];
      end := EndOf(fate);
    }

    method MakeTemporary(name: string) returns (end: End)
      modifies this
      ensures (State(), end) == old(MakeDirectory(State(), name))
    {
      var fate := Meet();
      if fate.Fine? {
        entries := entries[name := map[]];
      }
      end := EndOf(fate);
    }

    method RecoverInterruptedReplacement(name: string) returns (end: End)
      modifies this
      ensures (State(), end) == old(Recover(State(), name, valid))
    {
      var backups := Sorted(Backups(entries, name));
      if backups == [] {
        return Done;
      }
      if name in entries {
        end := Done;
        ghost var before := State();
        var i := 0;
        while i < |backups| && end.Done?
          invariant i <= |backups|
          invariant end.Done? ==> RemoveAll(before, backups) == RemoveAll(State(), backups[i..])
          invariant !end.Done? ==> RemoveAll(before, backups) == (State(), end)
        {
          end := RemovePath(backups[i]);
          i := i + 1;
        }
        return;
      }
      if |backups| != 1 {
        return Stopped(Error);
      }
      assert backups[0] in Backups(entries, name);
      if !valid(entries[backups[0]], name) {
        return Stopped(Error);
      }
      end := ReplacePath(backups[0], name);
    }

    method TryReplace(q: Request) returns (end: End, movedExisting: bool)
      requires q.Proper()
      modifies this
      ensures (State(), end, movedExisting) == old(Replace(State(), q, valid))
    {
      NamesDiffer(q);
      movedExisting := false;
      end := CopyTree(q.source, q.staged);
      if !end.Done? {
        return;
      }
      if !valid(q.source, q.name) {
        return Stopped(Error), false;
      }
      if q.name in entries {
        end := ReplacePath(q.name, q.backup);
        if !end.Done? {
          return;
        }
        movedExisting := true;
      }
      end := ReplacePath(q.staged, q.name);
      if !end.Done? {
        return;
      }
      if movedExisting {
        end := RemovePath(q.backup);
      }
    }

    method Handle(q: Request) returns (end: End)
      modifies this
      ensures (State(), end) == old(Restore(State(), q))
    {
      if q.name in entries {
        end := RemovePath(q.name);
        if !end.Done? {
          return;
        }
      }
      if q.backup in entries {
        end := ReplacePath(q.backup, q.name);
        if !end.Done? {
          return;
        }
      }
      end := Stopped(Error);
    }

    method InstallSkill(q: Request) returns (end: End)
      requires q.Proper()
      modifies this
      ensures (State(), end) == old(Install(State(), q, valid))
    {
      end := RecoverInterruptedReplacement(q.name);
      if !end.Done? {
        return;
      }
      end := MakeTemporary(q.staged);
      if !end.Done? {
        return;
      }
      var movedExisting;
      end, movedExisting := TryReplace(q);
      if end == Stopped(Error) && movedExisting {
        end := Handle(q);
      }
      if end != Stopped(Crash) && q.staged in entries {
        var removed := RemovePath(q.staged);
        if !removed.Done? {
          end := removed;
        }
      }
    }
  }
}
