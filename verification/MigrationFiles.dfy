/** Which statements a start executes: those of the files of the listing, up to where it dies. */
module MigrationFiles {
  import opened Migrations
  import opened Wrappers

  // ------------------------------------------------------------ what the listing gives

  function At(o: Options, variant: Variant): Option<string> {
    if variant.Standard? then o.standard else o.lite
  }

  /** What the first entry of a version has of a variant. */
  function Lookup(paths: seq<Options>, v: nat, variant: Variant): Option<string> {
    if paths == [] then None
    else if paths[0].version == v then At(paths[0], variant)
    else Lookup(paths[1..], v, variant)
  }

  /** Every file has a variant, and no two have the same version and variant. */
  predicate WellNamed(files: seq<File>) {
    && (forall i | 0 <= i < |files| :: files[i].variant.Some?)
    && (forall i, j | 0 <= i < j < |files| ::
          files[i].version != files[j].version || files[i].variant != files[j].variant)
  }

  predicate Named(files: seq<File>, v: nat, variant: Variant) {
    exists i :: 0 <= i < |files| && files[i].version == v && files[i].variant == Some(variant)
  }

  lemma {:induction false} AddFileLookup(paths: seq<Options>, f: File)
    requires f.variant.Some?
    ensures AddFile(paths, f).Some? <==> Lookup(paths, f.version, f.variant.value).None?
    ensures AddFile(paths, f).Some? ==>
              forall v, w :: Lookup(AddFile(paths, f).value, v, w)
                          == if v == f.version && w == f.variant.value then Some(f.sql) else Lookup(paths, v, w)
  {
    if paths == [] {
      assert forall v, w :: Lookup([], v, w) == None;
    } else if paths[0].version == f.version {
      var rest := paths[1..];
      if AddFile(paths, f).Some? {
        var more := AddFile(paths, f).value;
        assert more[1..] == rest;
      }
    } else {
      AddFileLookup(paths[1..], f);
      if AddFile(paths, f).Some? {
        var more := AddFile(paths, f).value;
        assert more[1..] == AddFile(paths[1..], f).value;
      }
    }
  }

  ghost predicate LooksUp(paths: seq<Options>, files: seq<File>) {
    && (forall v, w :: Lookup(paths, v, w).Some? <==> Named(files, v, w))
    && (forall v, w, sql :: Lookup(paths, v, w) == Some(sql) ==> File(v, Some(w), sql) in files)
  }

  lemma NamedNext(files: seq<File>, f: File)
    requires f.variant.Some?
    ensures forall v, w :: Named(files + [f], v, w)
                      <==> Named(files, v, w) || (v == f.version && w == f.variant.value)
    ensures WellNamed(files + [f]) <==> WellNamed(files) && !Named(files, f.version, f.variant.value)
  {
    var more := files + [f];
    assert more[|files|] == f;
    assert forall i | 0 <= i < |files| :: more[i] == files[i];
  }

  /** The listing is rejected exactly when a name has no variant or two files have the same version
      and variant; otherwise each variant of a version is the content of its file. */
  lemma {:induction false} CollectIff(files: seq<File>)
    ensures Collect(files).Some? <==> WellNamed(files)
    ensures Collect(files).Some? ==> LooksUp(Collect(files).value, files)
  {
    if files != [] {
      var front, f := files[..|files| - 1], files[|files| - 1];
      CollectIff(front);
      assert files == front + [f];
      if f.variant.Some? {
        NamedNext(front, f);
        if Collect(front).Some? {
          AddFileLookup(Collect(front).value, f);
          if Collect(files).Some? { LooksUpNext(Collect(front).value, Collect(files).value, front, f); }
        }
      }
      assert WellNamed(files) ==> WellNamed(front);
    }
  }

  lemma LooksUpNext(before: seq<Options>, after: seq<Options>, files: seq<File>, f: File)
    requires f.variant.Some? && LooksUp(before, files)
    requires forall v, w :: Lookup(after, v, w)
                         == if v == f.version && w == f.variant.value then Some(f.sql) else Lookup(before, v, w)
    ensures LooksUp(after, files + [f])
  {
    NamedNext(files, f);
    forall v, w, sql | Lookup(after, v, w) == Some(sql)
      ensures File(v, Some(w), sql) in files + [f]
    {
      if v == f.version && w == f.variant.value {
        assert f in files + [f] && f == File(v, Some(w), sql);
      }
    }
  }

  lemma {:induction false} AddFileVersions(paths: seq<Options>, f: File)
    requires f.variant.Some? && AddFile(paths, f).Some?
    ensures Versions(AddFile(paths, f).value)
         == Versions(paths) + if f.version in Versions(paths) then [] else [f.version]
  {
    var more := AddFile(paths, f).value;
    if paths != [] {
      assert Versions(paths) == [paths[0].version] + Versions(paths[1..]);
      if paths[0].version != f.version {
        AddFileVersions(paths[1..], f);
        assert Versions(more) == [paths[0].version] + Versions(AddFile(paths[1..], f).value);
      }
    }
  }

  /** Each version has one entry. */
  lemma {:induction false} CollectDistinct(files: seq<File>)
    requires Collect(files).Some?
    ensures Distinct(Versions(Collect(files).value))
  {
    if files != [] {
      var front, f := files[..|files| - 1], files[|files| - 1];
      CollectDistinct(front);
      AddFileVersions(Collect(front).value, f);
    }
  }

  lemma {:induction false} LookupAt(paths: seq<Options>, i: nat, variant: Variant)
    requires i < |paths| && Distinct(Versions(paths))
    ensures Lookup(paths, paths[i].version, variant) == At(paths[i], variant)
  {
    if i > 0 {
      assert Versions(paths)[0] != Versions(paths)[i];
      assert forall j | 0 <= j < |paths| - 1 :: Versions(paths[1..])[j] == Versions(paths)[j + 1];
      LookupAt(paths[1..], i - 1, variant);
    }
  }

  /** The variant of a version whose file is run: the configured one if there is such a file. */
  function Preferred(files: seq<File>, v: nat, configured: Variant): Variant {
    if Named(files, v, configured) then configured else Standard
  }

  lemma ChosenIsPreferred(paths: seq<Options>, files: seq<File>, configured: Variant, i: nat)
    requires LooksUp(paths, files) && Distinct(Versions(paths)) && i < |paths|
    ensures Chosen(paths[i], configured)
         == Lookup(paths, paths[i].version, Preferred(files, paths[i].version, configured))
  {
    LookupAt(paths, i, Standard);
    LookupAt(paths, i, Lite);
    assert Lookup(paths, paths[i].version, configured).Some? <==> Named(files, paths[i].version, configured);
  }

  /** Each step executes the statements of its version's file of the preferred variant. */
  lemma StepsRunTheirFiles(files: seq<File>, configured: Variant, split: string -> seq<string>, i: nat)
    returns (sql: string)
    requires Collect(files).Some? && AllChosen(Collect(files).value, configured) && i < |Collect(files).value|
    ensures var s := StepsOf(Collect(files).value, configured, split)[i];
            File(s.version, Some(Preferred(files, s.version, configured)), sql) in files && s.statements == split(sql)
  {
    var paths := Collect(files).value;
    CollectIff(files);
    CollectDistinct(files);
    ChosenIsPreferred(paths, files, configured, i);
    sql := Chosen(paths[i], configured).value;
    assert Lookup(paths, paths[i].version, Preferred(files, paths[i].version, configured)) == Some(sql);
  }

  /** There is a file to run for every version exactly when each has a standard or a configured one. */
  lemma AllChosenIff(files: seq<File>, configured: Variant)
    requires Collect(files).Some?
    ensures AllChosen(Collect(files).value, configured)
       <==> forall v: nat | Lists(files, v) :: Named(files, v, Standard) || Named(files, v, configured)
  {
    var paths := Collect(files).value;
    CollectIff(files);
    CollectDistinct(files);
    CollectCovers(files);
    forall i | 0 <= i < |paths|
      ensures Lists(files, paths[i].version)
      ensures Chosen(paths[i], configured).Some?
         <==> Named(files, paths[i].version, Standard) || Named(files, paths[i].version, configured)
    {
      assert Versions(paths)[i] in Versions(paths);
      LookupAt(paths, i, Standard);
      LookupAt(paths, i, configured);
    }
    forall v: nat | Lists(files, v)
      ensures exists i :: 0 <= i < |paths| && paths[i].version == v
    {
      assert v in Versions(paths);
      var i :| 0 <= i < |Versions(paths)| && Versions(paths)[i] == v;
      assert paths[i].version == v;
    }
  }

  // ------------------------------------------------------------ how far a start comes

  /** Of the steps, the first `k` were executed and recorded, and `n` statements of the next. */
  predicate CameTo(steps: seq<Step>, before: Db, after: Db, k: nat, n: nat) {
    && k <= |steps|
    && (if k < |steps| then n <= |steps[k].statements| else n == 0)
    && after.recorded == before.recorded + VersionsOf(steps)[..k]
    && after.executed == before.executed + AllStatements(steps[..k])
                         + if k < |steps| then steps[k].statements[..n] else []
  }

  /** Where a process comes with this many writes. */
  predicate Affords(steps: seq<Step>, budget: nat, k: nat, n: nat) {
    k <= |steps| && if k < |steps| then budget == Cost(steps[..k]) + n else Cost(steps) <= budget
  }

  lemma {:induction false} RunComesTo(steps: seq<Step>, current: int, db: Db, budget: nat) returns (k: nat, n: nat)
    requires forall i | 0 <= i < |steps| :: steps[i].version > current
    ensures CameTo(steps, db, RunSteps(steps, current, db, budget).0, k, n) && Affords(steps, budget, k, n)
    ensures RunSteps(steps, current, db, budget).1 <==> k == |steps|
    decreases |steps|
  {
    if steps == [] {
      k, n := 0, 0;
      Nowhere(steps, db);
    } else if budget <= |steps[0].statements| {
      k, n := 0, budget;
      assert steps[..0] == [] && VersionsOf(steps)[..0] == [];
      assert db.recorded + [] == db.recorded && db.executed + [] == db.executed;
    } else {
      var s := steps[0];
      var db1 := Db(db.recorded + [s.version], db.executed + s.statements);
      var left := budget - |s.statements| - 1;
      var k1, n1 := RunComesTo(steps[1..], current, db1, left);
      k, n := k1 + 1, n1;
      OneStepFurther(steps, db, RunSteps(steps[1..], current, db1, left).0, k1, n1);
      assert steps[..k][1..] == steps[1..][..k1];
    }
  }

  lemma Nowhere(steps: seq<Step>, db: Db)
    requires steps == []
    ensures CameTo(steps, db, db, 0, 0)
  {
    assert db.recorded + VersionsOf(steps)[..0] == db.recorded;
    assert db.executed + [] + [] == db.executed;
  }

  lemma OneStepFurther(steps: seq<Step>, before: Db, after: Db, k: nat, n: nat)
    requires steps != []
    requires CameTo(steps[1..], Db(before.recorded + [steps[0].version], before.executed + steps[0].statements),
                    after, k, n)
    ensures CameTo(steps, before, after, k + 1, n)
  {
    var vs := VersionsOf(steps);
    assert VersionsOf(steps[1..]) == vs[1..];
    assert vs[..k + 1] == [steps[0].version] + vs[1..][..k];
    assert steps[..k + 1][1..] == steps[1..][..k];
    assert AllStatements(steps[..k + 1]) == steps[0].statements + AllStatements(steps[1..][..k]);
  }

  /** A start of a database whose recorded versions are the first `m` goes on behind them: it executes
      and records one step after another, as far as its writes go. */
  lemma StartComesTo(steps: seq<Step>, db: Db, budget: nat) returns (k: nat, n: nat)
    requires Ascending(VersionsOf(steps)) && IsPrefix(steps, db.recorded)
    ensures CameTo(steps[|db.recorded|..], db, Migrate(steps, db, budget).0, k, n)
    ensures Affords(steps[|db.recorded|..], budget, k, n)
    ensures Migrate(steps, db, budget).1 <==> |db.recorded| + k == |steps|
  {
    var m := |db.recorded|;
    GoesOnBehind(steps, db, budget);
    k, n := RunComesTo(steps[m..], Current(db.recorded), db, budget);
  }
}
