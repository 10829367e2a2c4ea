/**
 The migration runner: loading the embedded files in version order, and a
 resumable run over a ledger of applied migrations.
 */
module Migrations {
  import opened Tables
  import opened Decimal
  import Splitter

  datatype Migration = Migration(version: nat, name: string, checksum: string, statements: seq<string>)
  datatype Applied = Applied(version: nat, name: string, checksum: string)

  function RowOf(m: Migration): Applied
  {
    Applied(m.version, m.name, m.checksum)
  }

  ghost predicate InOrder(migrations: seq<Migration>)
  {
    forall i, j | 0 <= i < j < |migrations| :: migrations[i].version < migrations[j].version
  }

  // ---------- Load ----------

  datatype File = File(name: string, contents: string)

  /** The number before the first underscore, which must stand fourth. */
  function ParseVersion(name: string): Option<nat>
  {
    if |name| > 3 && name[3] == '_' && '_' !in name[..3] && IsDigit(name[0]) && IsDigit(name[1]) && IsDigit(name[2]) then
      var version := 100 * DigitValue(name[0]) + 10 * DigitValue(name[1]) + DigitValue(name[2]);
      if version == 0 then None else Some(version)
    else None
  }

  /** A file has a version just when its name begins with the three digits of a number from 1 to 999 and an underscore. */
  lemma VersionIsThreeDigits(name: string, n: nat)
    ensures ParseVersion(name) == Some(n) <==>
              && 1 <= n <= 999 && |name| >= 4
              && name[..4] == [DigitOf(n / 100 % 10), DigitOf(n / 10 % 10), DigitOf(n % 10), '_']
  {
    var a, b, c := n / 100 % 10, n / 10 % 10, n % 10;
    if |name| >= 4 {
      assert name[..4] == [name[0], name[1], name[2], name[3]];
      assert name[..3] == [name[0], name[1], name[2]];
      if ParseVersion(name) == Some(n) {
        ThreeDigits(DigitValue(name[0]), DigitValue(name[1]), DigitValue(name[2]), n);
        SameDigit(name[0]);
        SameDigit(name[1]);
        SameDigit(name[2]);
      }
      if 1 <= n <= 999 && name[..4] == [DigitOf(a), DigitOf(b), DigitOf(c), '_'] {
        ThreeDigits(a, b, c, n);
        assert name[0] == DigitOf(a) && name[1] == DigitOf(b) && name[2] == DigitOf(c) && name[3] == '_';
      }
    }
  }

  lemma ThreeDigits(a: nat, b: nat, c: nat, n: nat)
    requires a < 10 && b < 10 && c < 10 && n <= 999
    ensures n == 100 * a + 10 * b + c <==> n / 100 % 10 == a && n / 10 % 10 == b && n % 10 == c
  {
  }

  lemma SameDigit(c: char)
    requires IsDigit(c)
    ensures DigitOf(DigitValue(c)) == c
  {
  }

  /** The order in which file names are sorted. */
  predicate NotAfter(a: string, b: string)
  {
    a == "" || (b != "" && (a[0] < b[0] || (a[0] == b[0] && NotAfter(a[1..], b[1..]))))
  }

  ghost predicate Sorted(files: seq<File>)
  {
    forall i, j | 0 <= i < j < |files| :: NotAfter(files[i].name, files[j].name)
  }

  lemma VersionsFollowNames(a: string, b: string)
    requires NotAfter(a, b) && ParseVersion(a).Some? && ParseVersion(b).Some?
    ensures ParseVersion(a).value <= ParseVersion(b).value
  {
    assert NotAfter(a[1..], b[1..]) || a[0] < b[0];
    if a[0] == b[0] {
      assert a[1..][0] == a[1] && b[1..][0] == b[1] && a[1..][1..] == a[2..] && b[1..][1..] == b[2..];
      assert NotAfter(a[1..], b[1..]);
      if a[1] == b[1] {
        assert NotAfter(a[2..], b[2..]);
        assert a[2..][0] == a[2] && b[2..][0] == b[2];
      }
    }
  }

  /** What one file is loaded as. */
  ghost predicate IsLoaded(file: File, m: Migration, sha: string -> string)
  {
    && ParseVersion(file.name) == Some(m.version) && m.name == file.name && m.checksum == sha(file.contents)
    && Splitter.Split(file.contents) == Some(m.statements) && m.statements != []
  }

  /** Files that cannot be loaded: a bad name, an unterminated text, or no statement in it. */
  ghost predicate IsBad(file: File)
  {
    ParseVersion(file.name).None? || Splitter.Split(file.contents) in {None, Some([])}
  }

  /** The files loaded so far, in the order of their versions. */
  ghost predicate AreLoaded(files: seq<File>, migrations: seq<Migration>, sha: string -> string)
  {
    && |migrations| == |files| && InOrder(migrations)
    && forall i | 0 <= i < |files| :: IsLoaded(files[i], migrations[i], sha)
  }

  lemma OneMoreLoaded(files: seq<File>, i: nat, migrations: seq<Migration>, m: Migration, sha: string -> string)
    requires Sorted(files) && i < |files| && AreLoaded(files[..i], migrations, sha) && IsLoaded(files[i], m, sha)
    requires forall q | q in migrations :: q.version != m.version
    ensures AreLoaded(files[..i + 1], migrations + [m], sha)
  {
    hide ParseVersion, NotAfter, Splitter.Split;
    forall j | 0 <= j < i
      ensures migrations[j].version < m.version
    {
      assert IsLoaded(files[..i][j], migrations[j], sha) && migrations[j] in migrations;
      VersionsFollowNames(files[j].name, files[i].name);
    }
    forall j | 0 <= j < i + 1
      ensures IsLoaded(files[..i + 1][j], (migrations + [m])[j], sha)
    {
      assert j < i ==> IsLoaded(files[..i][j], migrations[j], sha);
    }
  }

  /** Loads sorted files one by one. */
  method LoadSorted(files: seq<File>, sha: string -> string) returns (loaded: Option<seq<Migration>>)
    requires Sorted(files)
    ensures loaded.Some? ==> AreLoaded(files, loaded.value, sha)
    ensures loaded.None? <==>
              || (exists f | f in files :: IsBad(f))
              || (exists i, j | 0 <= i < j < |files| :: ParseVersion(files[i].name) == ParseVersion(files[j].name))
  {
    hide Splitter.Split, ParseVersion, NotAfter, InOrder, Sorted;
    var migrations: seq<Migration> := [];
    var versions: set<nat> := {};
    NoneLoaded(sha);
    for i := 0 to |files|
      invariant AreLoaded(files[..i], migrations, sha)
      invariant forall v :: v in versions <==> exists m :: m in migrations && m.version == v
    {
      var file := files[i];
      var version := ParseVersion(file.name);
      if version.None? {
        assert file in files && IsBad(file);
        return None;
      }
      if version.value in versions {
        ghost var m :| m in migrations && m.version == version.value;
        ghost var j :| 0 <= j < i && migrations[j] == m;
        assert IsLoaded(files[..i][j], migrations[j], sha);
        assert ParseVersion(files[j].name) == ParseVersion(files[i].name);
        return None;
      }
      versions := versions + {version.value};
      var statements := Splitter.SplitStatements(file.contents);
      if statements.None? || statements.value == [] {
        assert file in files && IsBad(file);
        return None;
      }
      var m := Migration(version.value, file.name, sha(file.contents), statements.value);
      OneMoreLoaded(files, i, migrations, m, sha);
      migrations := migrations + [m];
    }
    assert files[..|files|] == files;
    LoadedIsGood(files, migrations, sha);
    loaded := Some(migrations);
  }

  lemma NoneLoaded(sha: string -> string)
    ensures AreLoaded([], [], sha)
  {
  }

  lemma LoadedIsGood(files: seq<File>, migrations: seq<Migration>, sha: string -> string)
    requires AreLoaded(files, migrations, sha)
    ensures forall f | f in files :: !IsBad(f)
    ensures forall i, j | 0 <= i < j < |files| :: ParseVersion(files[i].name) != ParseVersion(files[j].name)
  {
    hide ParseVersion, Splitter.Split;
    forall i, j | 0 <= i < j < |files|
      ensures ParseVersion(files[i].name) != ParseVersion(files[j].name)
    {
      assert IsLoaded(files[i], migrations[i], sha) && IsLoaded(files[j], migrations[j], sha);
    }
  }

  // ---------- Sorting ----------

  lemma {:induction false} NamesCompare(a: string, b: string)
    ensures NotAfter(a, b) || NotAfter(b, a)
  {
    if a != "" && b != "" && a[0] == b[0] {
      NamesCompare(a[1..], b[1..]);
    }
  }

  lemma {:induction false} NamesChain(a: string, b: string, c: string)
    requires NotAfter(a, b) && NotAfter(b, c)
    ensures NotAfter(a, c)
  {
    if a != "" && b != "" && c != "" && a[0] == b[0] == c[0] {
      NamesChain(a[1..], b[1..], c[1..]);
    }
  }

  ghost predicate NamesDiffer(files: seq<File>)
  {
    forall i, j | 0 <= i < j < |files| :: files[i].name != files[j].name
  }

  lemma InsertedIsSorted(files: seq<File>, at: nat, file: File)
    requires Sorted(files) && at <= |files|
    requires at > 0 ==> NotAfter(files[at - 1].name, file.name)
    requires at < |files| ==> NotAfter(file.name, files[at].name)
    ensures Sorted(files[..at] + [file] + files[at..])
  {
    hide NotAfter;
    var longer := files[..at] + [file] + files[at..];
    forall i, j | 0 <= i < j < |longer|
      ensures NotAfter(longer[i].name, longer[j].name)
    {
      if j == at && i < at - 1 {
        NamesChain(files[i].name, files[at - 1].name, file.name);
      } else if i == at && j > at + 1 {
        NamesChain(file.name, files[at].name, files[j - 1].name);
      }
    }
  }

  lemma InsertedDiffers(files: seq<File>, at: nat, file: File)
    requires NamesDiffer(files) && at <= |files| && forall f | f in files :: f.name != file.name
    ensures NamesDiffer(files[..at] + [file] + files[at..])
    ensures forall f :: f in files[..at] + [file] + files[at..] <==> f in files || f == file
  {
    assert files == files[..at] + files[at..];
  }

  method SortByName(files: seq<File>) returns (sorted: seq<File>)
    requires NamesDiffer(files)
    ensures Sorted(sorted) && NamesDiffer(sorted) && |sorted| == |files|
    ensures forall f :: f in sorted <==> f in files
  {
    hide NotAfter, Sorted, NamesDiffer;
    sorted := [];
    Nothing();
    for i := 0 to |files|
      invariant Sorted(sorted) && NamesDiffer(sorted) && |sorted| == i
      invariant forall f :: f in sorted <==> f in files[..i]
    {
      var file, at := files[i], |sorted|;
      while at > 0 && !NotAfter(sorted[at - 1].name, file.name)
        invariant 0 <= at <= |sorted|
        invariant at < |sorted| ==> NotAfter(file.name, sorted[at].name)
      {
        NamesCompare(sorted[at - 1].name, file.name);
        at := at - 1;
      }
      NewName(files, i);
      InsertedIsSorted(sorted, at, file);
      InsertedDiffers(sorted, at, file);
      assert files[..i + 1] == files[..i] + [file];
      sorted := sorted[..at] + [file] + sorted[at..];
    }
    assert files[..|files|] == files;
  }

  lemma Nothing()
    ensures Sorted([]) && NamesDiffer([])
  {
  }

  lemma NewName(files: seq<File>, i: nat)
    requires NamesDiffer(files) && i < |files|
    ensures forall f | f in files[..i] :: f.name != files[i].name
  {
  }

  lemma SameFiles(files: seq<File>, sorted: seq<File>)
    requires NamesDiffer(files) && NamesDiffer(sorted) && forall f :: f in sorted <==> f in files
    ensures (exists i, j | 0 <= i < j < |sorted| :: ParseVersion(sorted[i].name) == ParseVersion(sorted[j].name))
       <==> exists f, g | f in files && g in files :: f.name != g.name && ParseVersion(f.name) == ParseVersion(g.name)
  {
    hide ParseVersion;
    if f, g :| f in files && g in files && f.name != g.name && ParseVersion(f.name) == ParseVersion(g.name) {
      var i :| 0 <= i < |sorted| && sorted[i] == f;
      var j :| 0 <= j < |sorted| && sorted[j] == g;
      assert i < j || j < i;
    }
    if i, j :| 0 <= i < j < |sorted| && ParseVersion(sorted[i].name) == ParseVersion(sorted[j].name) {
      assert sorted[i] in files && sorted[j] in files;
    }
  }

  /** Loads the files of a directory, in the order of their versions. */
  method Load(files: seq<File>, sha: string -> string) returns (loaded: Option<seq<Migration>>)
    requires NamesDiffer(files)
    ensures loaded.Some? ==>
              && InOrder(loaded.value) && |loaded.value| == |files|
              && (forall f | f in files :: exists m :: m in loaded.value && IsLoaded(f, m, sha))
              && (forall m | m in loaded.value :: exists f :: f in files && IsLoaded(f, m, sha))
    ensures loaded.None? <==>
              || (exists f | f in files :: IsBad(f))
              || (exists f, g | f in files && g in files :: f.name != g.name && ParseVersion(f.name) == ParseVersion(g.name))
  {
    hide Splitter.Split, ParseVersion, NotAfter, InOrder, Sorted, NamesDiffer, IsLoaded, IsBad;
    var sorted := SortByName(files);
    SameFiles(files, sorted);
    loaded := LoadSorted(sorted, sha);
    if loaded.Some? {
      forall f | f in files
        ensures exists m :: m in loaded.value && IsLoaded(f, m, sha)
      {
        var i :| 0 <= i < |sorted| && sorted[i] == f;
        assert loaded.value[i] in loaded.value;
      }
      forall m | m in loaded.value
        ensures exists f :: f in files && IsLoaded(f, m, sha)
      {
        var i :| 0 <= i < |sorted| && loaded.value[i] == m;
        assert sorted[i] in files;
      }
    }
  }
}
