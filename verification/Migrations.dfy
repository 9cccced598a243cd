/**
 The migration runner (server/cmd/migrate/main.go): file names, the sorted file list, and migratePostgres
 with its transaction per file.

 A schema is the sequence of scripts committed to it.  The advisory lock serialises runs.
 */
module Migrations {
  import opened Common

  const MAX_UINT64 := 0xFFFF_FFFF_FFFF_FFFF

  datatype File = File(version: nat, name: string, content: string)

  // ----- file names

  /** strconv.ParseUint(s, 10, 64). */
  function ParseUint(s: string): Option<nat> {
    if s == [] || !AllDigits(s) || Value(s) > MAX_UINT64 then None else Some(Value(s))
  }

  function IndexOf(s: string, c: char): (i: Option<nat>)
    ensures i.Some? ==> i.value < |s| && s[i.value] == c && c !in s[..i.value]
    ensures i.None? ==> c !in s
  {
    if s == [] then None
    else if s[0] == c then Some(0)
    else
      match IndexOf(s[1..], c)
      case None => None
      case Some(i) =>
        assert s[..i + 1] == [s[0]] + s[1..][..i];
        Some(i + 1)
  }

  function TrimSuffix(s: string, suffix: string): string {
    if |suffix| <= |s| && s[|s| - |suffix|..] == suffix then s[..|s| - |suffix|] else s
  }

  /** parseMigrationFile: version and name of <version>_<name><suffix>. */
  function ParseName(filename: string, suffix: string): Option<(nat, string)> {
    var base := TrimSuffix(filename, suffix);
    match IndexOf(base, '_')
    case None => None
    case Some(i) =>
      var version := ParseUint(base[..i]);
      var name := base[i + 1..];
      if version.None? || name == "" then None else Some((version.value, name))
  }

  lemma {:induction false} IndexAfter(a: string, b: string, c: char)
    requires c !in a
    ensures IndexOf(a + [c] + b, c) == Some(|a|)
  {
    if a != [] {
      IndexAfter(a[1..], b, c);
      assert (a + [c] + b)[1..] == a[1..] + [c] + b;
    }
  }

  lemma SuffixTrimmed(base: string, suffix: string)
    ensures TrimSuffix(base + suffix, suffix) == base
  {
  }

  /** A name written from its version and title reads back as they were. */
  lemma NameReadsBack(version: nat, name: string, suffix: string)
    requires version <= MAX_UINT64 && name != ""
    ensures ParseName(Decimal(version) + "_" + name + suffix, suffix) == Some((version, name))
  {
    var d, base := Decimal(version), Decimal(version) + "_" + name;
    DecimalReadsBack(version);
    SuffixTrimmed(base, suffix);
    assert '_' !in d by {
      assert forall i :: 0 <= i < |d| ==> IsDigit(d[i]);
    }
    IndexAfter(d, name, '_');
    assert base[..|d|] == d && base[|d| + 1..] == name;
  }

  // ----- the sorted list

  ghost predicate Sorted(files: seq<File>) {
    forall i, j :: 0 <= i < j < |files| ==> files[i].version <= files[j].version
  }

  ghost predicate Increasing(files: seq<File>) {
    forall i, j :: 0 <= i < j < |files| ==> files[i].version < files[j].version
  }

  /** What sort.Slice may return: it is not stable. */
  ghost predicate SortOf(files: seq<File>, r: seq<File>) {
    Sorted(r) && multiset(r) == multiset(files)
  }

  /** Two different files of the list carry one version. */
  ghost predicate HasDuplicate(files: seq<File>) {
    exists i, j :: 0 <= i < j < |files| && files[i].version == files[j].version
  }

  method CheckDuplicateVersions(files: seq<File>) returns (ok: bool)
    requires Sorted(files)
    ensures ok <==> !HasDuplicate(files)
    ensures ok ==> Increasing(files)
  {
    var i := 1;
    while i < |files|
      invariant 1 <= i
      invariant forall j :: 1 <= j < i && j < |files| ==> files[j - 1].version < files[j].version
    {
      if files[i].version == files[i - 1].version {
        return false;
      }
      i := i + 1;
    }
    Ascending(files);
    return true;
  }

  lemma {:induction false} Ascending(files: seq<File>)
    requires forall j :: 1 <= j < |files| ==> files[j - 1].version < files[j].version
    ensures Increasing(files)
  {
    if |files| > 1 {
      var n := |files| - 1;
      Ascending(files[..n]);
      forall i | 0 <= i < n ensures files[i].version < files[n].version {
        assert files[..n][i].version <= files[..n][n - 1].version by {
          assert i < n - 1 ==> files[..n][i].version < files[..n][n - 1].version;
        }
      }
    }
  }

  lemma WithoutLast(a: seq<File>)
    requires Increasing(a) && a != []
    ensures Increasing(a[..|a| - 1]) && SetOf(a[..|a| - 1]) == SetOf(a) - {a[|a| - 1]}
  {
    var n := |a| - 1;
    assert a == a[..n] + [a[n]];
    assert forall i :: 0 <= i < n ==> a[i].version < a[n].version;
  }

  lemma SameLast(a: seq<File>, b: seq<File>)
    requires Increasing(a) && Increasing(b) && SetOf(a) == SetOf(b) && a != []
    ensures b != [] && a[|a| - 1] == b[|b| - 1]
  {
    assert a[|a| - 1] in SetOf(b);
    var j :| 0 <= j < |b| && b[j] == a[|a| - 1];
    assert b[|b| - 1] in SetOf(a);
    var k :| 0 <= k < |a| && a[k] == b[|b| - 1];
  }

  /** An increasing list is determined by the files in it. */
  lemma {:induction false} IncreasingIsUnique(a: seq<File>, b: seq<File>)
    requires Increasing(a) && Increasing(b) && SetOf(a) == SetOf(b)
    ensures a == b
  {
    if a == [] {
      if b != [] {
        SameLast(b, a);
      }
    } else {
      SameLast(a, b);
      WithoutLast(a);
      WithoutLast(b);
      IncreasingIsUnique(a[..|a| - 1], b[..|b| - 1]);
      assert a == a[..|a| - 1] + [a[|a| - 1]] && b == b[..|b| - 1] + [b[|b| - 1]];
    }
  }

  /** Without duplicates the sorted list is unique: neither the directory order nor the unstable sort matters. */
  lemma SortIsUnique(files: seq<File>, files': seq<File>, a: seq<File>, b: seq<File>)
    requires multiset(files) == multiset(files') && SortOf(files, a) && SortOf(files', b)
    requires !HasDuplicate(a) && !HasDuplicate(b)
    ensures a == b && Increasing(a)
  {
    forall f ensures f in a <==> f in b {
      assert f in a <==> f in multiset(a);
      assert f in b <==> f in multiset(b);
    }
    assert Increasing(a) && Increasing(b);
    IncreasingIsUnique(a, b);
  }

  // ----- reading the directory

  datatype Entry = Entry(filename: string, isDir: bool, data: string)

  const UP_SUFFIX := ".up.sql"

  predicate IsUp(e: Entry) {
    !e.isDir && |UP_SUFFIX| <= |e.filename| && e.filename[|e.filename| - |UP_SUFFIX|..] == UP_SUFFIX
  }

  /** The migration an entry holds, if its name parses. */
  function FileOf(e: Entry): Option<File> {
    match ParseName(e.filename, UP_SUFFIX)
    case None => None
    case Some((version, name)) => Some(File(version, name, e.data))
  }

  ghost predicate AllParse(entries: seq<Entry>) {
    forall i :: 0 <= i < |entries| && IsUp(entries[i]) ==> FileOf(entries[i]).Some?
  }

  /** The migrations of a directory listing, in its order. */
  function FilesOf(entries: seq<Entry>): seq<File> {
    if entries == [] then []
    else
      var fs, e := FilesOf(entries[..|entries| - 1]), entries[|entries| - 1];
      if IsUp(e) && FileOf(e).Some? then fs + [FileOf(e).value] else fs
  }

  /** Puts a file behind those of no greater version. */
  function Insert(files: seq<File>, f: File): seq<File> {
    if files == [] then [f]
    else if files[|files| - 1].version <= f.version then files + [f]
    else Insert(files[..|files| - 1], f) + [files[|files| - 1]]
  }

  lemma {:induction false} InsertAdds(files: seq<File>, f: File)
    ensures multiset(Insert(files, f)) == multiset(files) + multiset{f}
  {
    if files != [] {
      var n := |files| - 1;
      InsertAdds(files[..n], f);
      assert files == files[..n] + [files[n]];
    }
  }

  ghost predicate UpTo(files: seq<File>, version: nat) {
    forall i :: 0 <= i < |files| ==> files[i].version <= version
  }

  lemma SortedSnoc(files: seq<File>, f: File)
    requires Sorted(files) && UpTo(files, f.version)
    ensures Sorted(files + [f])
  {
  }

  lemma {:induction false} InsertStaysUpTo(files: seq<File>, f: File, version: nat)
    requires UpTo(files, version) && f.version <= version
    ensures UpTo(Insert(files, f), version)
  {
    if files != [] {
      InsertStaysUpTo(files[..|files| - 1], f, version);
    }
  }

  lemma {:induction false} InsertSorts(files: seq<File>, f: File)
    requires Sorted(files)
    ensures Sorted(Insert(files, f))
  {
    if files != [] {
      var n := |files| - 1;
      if files[n].version <= f.version {
        SortedSnoc(files, f);
      } else {
        InsertSorts(files[..n], f);
        InsertStaysUpTo(files[..n], f, files[n].version);
        SortedSnoc(Insert(files[..n], f), files[n]);
      }
    }
  }

  /** One more directory entry. */
  lemma {:induction false} FilesOfSnoc(entries: seq<Entry>, i: nat)
    requires i < |entries|
    ensures
      var e := entries[i];
      FilesOf(entries[..i + 1]) == FilesOf(entries[..i]) + if IsUp(e) && FileOf(e).Some? then [FileOf(e).value] else []
    ensures AllParse(entries[..i + 1]) <==> AllParse(entries[..i]) && (IsUp(entries[i]) ==> FileOf(entries[i]).Some?)
  {
    var p := entries[..i + 1];
    assert p[..i] == entries[..i] && p[i] == entries[i];
    assert forall j :: 0 <= j < i ==> entries[..i][j] == p[j];
  }

  lemma InsertSortOf(files: seq<File>, sorted: seq<File>, f: File)
    requires SortOf(files, sorted)
    ensures SortOf(files + [f], Insert(sorted, f))
  {
    InsertSorts(sorted, f);
    InsertAdds(sorted, f);
  }

  lemma PartParses(entries: seq<Entry>, i: nat)
    requires i < |entries| && IsUp(entries[i]) && FileOf(entries[i]).None?
    ensures !AllParse(entries)
  {
  }

  /** The listing's migrations, sorted; None when a name does not parse. */
  method CollectSorted(entries: seq<Entry>) returns (r: Option<seq<File>>)
    ensures r.Some? <==> AllParse(entries)
    ensures r.Some? ==> SortOf(FilesOf(entries), r.value)
  {
    var sorted: seq<File> := [];
    for i := 0 to |entries|
      invariant SortOf(FilesOf(entries[..i]), sorted) && AllParse(entries[..i])
    {
      FilesOfSnoc(entries, i);
      if IsUp(entries[i]) {
        var f := FileOf(entries[i]);
        if f.None? {
          PartParses(entries, i);
          return None;
        }
        InsertSortOf(FilesOf(entries[..i]), sorted, f.value);
        sorted := Insert(sorted, f.value);
      }
    }
    assert entries[..|entries|] == entries;
    return Some(sorted);
  }

  /** readUpMigrations: fails exactly when a name does not parse or two files share a version. */
  method ReadUpMigrations(entries: seq<Entry>) returns (r: Option<seq<File>>)
    ensures r.Some? <==> AllParse(entries) && !HasDuplicate(FilesOf(entries))
    ensures r.Some? ==> Increasing(r.value) && multiset(r.value) == multiset(FilesOf(entries))
  {
    r := CollectSorted(entries);
    if r.None? {
      return;
    }
    DuplicatesAreInvariant(r.value, FilesOf(entries));
    var ok := CheckDuplicateVersions(r.value);
    if !ok {
      return None;
    }
  }

  ghost function Versions(files: seq<File>): set<nat> {
    set i | 0 <= i < |files| :: files[i].version
  }

  lemma VersionsSnoc(files: seq<File>, f: File)
    ensures Versions(files + [f]) == Versions(files) + {f.version}
  {
    var q := files + [f];
    assert q[|files|] == f;
    assert forall i :: 0 <= i < |files| ==> q[i] == files[i];
  }

  /** As many versions as files exactly when none repeats. */
  lemma {:induction false} VersionCount(files: seq<File>)
    ensures |Versions(files)| <= |files| && (|Versions(files)| == |files| <==> !HasDuplicate(files))
  {
    if files != [] {
      var n := |files| - 1;
      var front := files[..n];
      VersionCount(front);
      VersionsSnoc(front, files[n]);
      assert files == front + [files[n]];
      if files[n].version in Versions(front) {
        var i :| 0 <= i < n && front[i].version == files[n].version;
        assert files[i].version == files[n].version;
      } else {
        assert forall i :: 0 <= i < n ==> files[i] == front[i];
        assert forall i :: 0 <= i < n ==> front[i].version in Versions(front);
      }
    }
  }

  lemma DuplicatesAreInvariant(a: seq<File>, b: seq<File>)
    requires multiset(a) == multiset(b)
    ensures HasDuplicate(a) <==> HasDuplicate(b)
  {
    assert |multiset(a)| == |a| && |multiset(b)| == |b|;
    VersionsIn(a, b);
    VersionsIn(b, a);
    assert Versions(a) == Versions(b);
    VersionCount(a);
    VersionCount(b);
  }

  lemma VersionsIn(a: seq<File>, b: seq<File>)
    requires multiset(a) == multiset(b)
    ensures Versions(a) <= Versions(b)
  {
    forall v | v in Versions(a) ensures v in Versions(b) {
      var i :| 0 <= i < |a| && a[i].version == v;
      assert a[i] in multiset(b);
      var j :| 0 <= j < |b| && b[j] == a[i];
    }
  }

  // ----- applying

  datatype Db = Db(applied: set<nat>, schema: seq<string>)

  /** How a transaction ends: committed, failed before it, or committed with the answer lost. */
  datatype Outcome = Commits | Fails | CommitsUnheard

  function Apply(db: Db, f: File): Db {
    Db(db.applied + {f.version}, db.schema + [f.content])
  }

  /** The loop over the files, from the i-th; `known` are the versions read at the start. */
  function PassFrom(db: Db, files: seq<File>, known: set<nat>, plan: nat -> Outcome, i: nat): (Db, bool)
    requires i <= |files|
    decreases |files| - i
  {
    if i == |files| then (db, true)
    else if files[i].version in known then PassFrom(db, files, known, plan, i + 1)
    else
      match plan(i)
      case Fails => (db, false)
      case CommitsUnheard => (Apply(db, files[i]), false)
      case Commits => PassFrom(Apply(db, files[i]), files, known, plan, i + 1)
  }

  function Pass(db: Db, files: seq<File>, plan: nat -> Outcome): (Db, bool) {
    PassFrom(db, files, db.applied, plan, 0)
  }

  class Database {
    var applied: set<nat>
    var schema: seq<string>

    constructor ()
      ensures View() == Db({}, [])
    {
      applied, schema := {}, [];
    }

    function View(): Db
      reads this
    {
      Db(applied, schema)
    }

    /** migratePostgres, after the file list is read. */
    method Migrate(files: seq<File>, plan: nat -> Outcome) returns (ok: bool)
      modifies this
      ensures (View(), ok) == Pass(old(View()), files, plan)
    {
      var known := applied;
      ghost var goal := Pass(View(), files, plan);
      for i := 0 to |files|
        invariant PassFrom(View(), files, known, plan, i) == goal
      {
        var f := files[i];
        if f.version in known {
          continue;
        }
        var outcome := plan(i);
        if outcome == Fails {
          return false;
        }
        schema := schema + [f.content];
        applied := applied + {f.version};
        if outcome == CommitsUnheard {
          return false;
        }
      }
      return true;
    }
  }

  // ----- runs that fail anywhere

  ghost function Contents(files: seq<File>): seq<string> {
    seq(|files|, i requires 0 <= i < |files| => files[i].content)
  }

  /** The first n files are applied, each once and in order, and nothing else. */
  ghost predicate AtPrefix(db: Db, files: seq<File>, n: nat) {
    n <= |files| && db.applied == Versions(files[..n]) && db.schema == Contents(files[..n])
  }

  lemma NextPrefix(db: Db, files: seq<File>, n: nat)
    requires AtPrefix(db, files, n) && n < |files|
    ensures AtPrefix(Apply(db, files[n]), files, n + 1)
  {
    assert files[..n + 1] == files[..n] + [files[n]];
    assert Versions(files[..n + 1]) == Versions(files[..n]) + {files[n].version} by {
      forall i | 0 <= i < n ensures files[..n + 1][i] == files[..n][i] {
      }
      assert files[..n + 1][n] == files[n];
    }
    assert Contents(files[..n + 1]) == Contents(files[..n]) + [files[n].content];
  }

  lemma KnownIff(files: seq<File>, n: nat, i: nat)
    requires Increasing(files) && n <= |files| && i < |files|
    ensures files[i].version in Versions(files[..n]) <==> i < n
  {
    if i < n {
      assert files[..n][i] == files[i];
    }
  }

  /** What was applied at the start is skipped. */
  lemma {:induction false} SkipsKnown(db: Db, files: seq<File>, known: nat, plan: nat -> Outcome, i: nat)
    requires Increasing(files) && i <= known <= |files|
    ensures PassFrom(db, files, Versions(files[..known]), plan, i) ==
      PassFrom(db, files, Versions(files[..known]), plan, known)
    decreases known - i
  {
    if i < known {
      KnownIff(files, known, i);
      SkipsKnown(db, files, known, plan, i + 1);
    }
  }

  /** From there a pass moves along the list and stops somewhere; it ends well only at the end. */
  lemma {:induction false} Advances(db: Db, files: seq<File>, known: nat, plan: nat -> Outcome, i: nat) returns (m: nat)
    requires Increasing(files) && known <= i <= |files| && AtPrefix(db, files, i)
    ensures
      var (db', ok) := PassFrom(db, files, Versions(files[..known]), plan, i);
      i <= m && AtPrefix(db', files, m) && (ok ==> m == |files|)
    decreases |files| - i
  {
    m := i;
    if i < |files| && !plan(i).Fails? {
      KnownIff(files, known, i);
      NextPrefix(db, files, i);
      m := i + 1;
      if plan(i).Commits? {
        m := Advances(Apply(db, files[i]), files, known, plan, i + 1);
      }
    } else if i < |files| {
      KnownIff(files, known, i);
    }
  }

  lemma PassAdvances(db: Db, files: seq<File>, plan: nat -> Outcome, n: nat) returns (m: nat)
    requires Increasing(files) && AtPrefix(db, files, n)
    ensures
      var (db', ok) := Pass(db, files, plan);
      n <= m && AtPrefix(db', files, m) && (ok ==> m == |files|)
  {
    SkipsKnown(db, files, n, plan, 0);
    m := Advances(db, files, n, plan, n);
  }

  ghost function Runs(db: Db, files: seq<File>, plans: seq<nat -> Outcome>): Db {
    if |plans| == 0 then db else Pass(Runs(db, files, plans[..|plans| - 1]), files, plans[|plans| - 1]).0
  }

  /** Any sequence of runs, each failing anywhere or nowhere, leaves a prefix of the list applied. */
  lemma {:induction false} AlwaysAPrefix(files: seq<File>, plans: seq<nat -> Outcome>)
    requires Increasing(files)
    ensures exists n :: AtPrefix(Runs(Db({}, []), files, plans), files, n)
  {
    if |plans| == 0 {
      assert files[..0] == [];
      assert AtPrefix(Runs(Db({}, []), files, plans), files, 0);
    } else {
      var k := |plans| - 1;
      AlwaysAPrefix(files, plans[..k]);
      var db := Runs(Db({}, []), files, plans[..k]);
      var n :| AtPrefix(db, files, n);
      var m := PassAdvances(db, files, plans[k], n);
      assert Runs(Db({}, []), files, plans) == Pass(db, files, plans[k]).0;
      assert AtPrefix(Runs(Db({}, []), files, plans), files, m);
    }
  }

  ghost predicate Clean(plan: nat -> Outcome) {
    forall i :: plan(i) == Commits
  }

  lemma {:induction false} CleanPassEnds(db: Db, files: seq<File>, known: set<nat>, plan: nat -> Outcome, i: nat)
    requires Clean(plan) && i <= |files|
    ensures PassFrom(db, files, known, plan, i).1
    decreases |files| - i
  {
    if i < |files| {
      assert plan(i) == Commits;
      if files[i].version in known {
        CleanPassEnds(db, files, known, plan, i + 1);
      } else {
        CleanPassEnds(Apply(db, files[i]), files, known, plan, i + 1);
      }
    }
  }

  /** After any such history a clean run ends where one uninterrupted run would. */
  lemma ResumeIsStraight(files: seq<File>, plans: seq<nat -> Outcome>, clean: nat -> Outcome)
    requires Increasing(files) && Clean(clean)
    ensures Pass(Runs(Db({}, []), files, plans), files, clean) == Pass(Db({}, []), files, clean)
    ensures Pass(Db({}, []), files, clean).0 == Db(Versions(files), Contents(files))
  {
    AlwaysAPrefix(files, plans);
    var db, empty := Runs(Db({}, []), files, plans), Db({}, []);
    var n :| AtPrefix(db, files, n);
    assert files[..0] == [] && AtPrefix(empty, files, 0);
    var m := PassAdvances(db, files, clean, n);
    var m' := PassAdvances(empty, files, clean, 0);
    CleanPassEnds(db, files, db.applied, clean, 0);
    CleanPassEnds(empty, files, empty.applied, clean, 0);
    assert files[..|files|] == files;
  }

  // ----- which entries are migrations

  /** A directory entry is read exactly when it is a file whose name ends in the suffix of up migrations. */
  lemma IsUpIff(e: Entry)
    ensures IsUp(e) <==> !e.isDir && exists stem :: e.filename == stem + ".up.sql"
  {
    if IsUp(e) {
      assert e.filename == e.filename[..|e.filename| - 7] + ".up.sql";
    }
  }
}
