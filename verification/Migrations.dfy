/** The schema migrations of `backend/server/runtime_postgres/database.py`. */
module Migrations {
  import opened Wrappers

  // ------------------------------------------------------------ collecting the files

  datatype Variant = Standard | Lite
  /** A file of the migrations directory; `variant` is missing when its name has neither. */
  datatype File = File(version: nat, variant: Option<Variant>, sql: string)

  /** One entry of `migration_paths`. */
  datatype Options = Options(version: nat, standard: Option<string>, lite: Option<string>)

  /** Adds a file; `None` is the error for a second file of the same version and variant. */
  function AddFile(paths: seq<Options>, f: File): Option<seq<Options>>
    requires f.variant.Some?
  {
    if paths == [] then
      Some([if f.variant.value.Standard? then Options(f.version, Some(f.sql), None)
            else Options(f.version, None, Some(f.sql))])
    else if paths[0].version == f.version then
      if f.variant.value.Standard? then
        (if paths[0].standard.Some? then None else Some([paths[0].(standard := Some(f.sql))] + paths[1..]))
      else
        (if paths[0].lite.Some? then None else Some([paths[0].(lite := Some(f.sql))] + paths[1..]))
    else
      var rest := AddFile(paths[1..], f);
      if rest.None? then None else Some([paths[0]] + rest.value)
  }

  /** The loop over the sorted directory listing. */
  function Collect(files: seq<File>): Option<seq<Options>> {
    if files == [] then Some([])
    else
      var before := Collect(files[..|files| - 1]);
      var f := files[|files| - 1];
      if before.None? || f.variant.None? then None else AddFile(before.value, f)
  }

  predicate Ascending(versions: seq<nat>) {
    forall i, j | 0 <= i < j < |versions| :: versions[i] < versions[j]
  }

  function Versions(paths: seq<Options>): seq<nat> {
    seq(|paths|, i requires 0 <= i < |paths| => paths[i].version)
  }

  predicate InNumericOrder(files: seq<File>) {
    forall i, j | 0 <= i < j < |files| :: files[i].version <= files[j].version
  }

  lemma {:induction false} AddFileAscending(paths: seq<Options>, f: File)
    requires f.variant.Some? && Ascending(Versions(paths)) && AddFile(paths, f).Some?
    requires forall i | 0 <= i < |paths| :: paths[i].version <= f.version
    ensures var more := AddFile(paths, f).value;
            && Ascending(Versions(more)) && more != []
            && (forall i | 0 <= i < |more| :: more[i].version <= f.version)
            && more[0].version == if paths == [] then f.version else paths[0].version
  {
    if paths != [] && paths[0].version != f.version {
      forall i, j | 0 <= i < j < |Versions(paths[1..])|
        ensures Versions(paths[1..])[i] < Versions(paths[1..])[j]
      {
        assert Versions(paths)[i + 1] < Versions(paths)[j + 1];
      }
      AddFileAscending(paths[1..], f);
      var rest := AddFile(paths[1..], f).value;
      var more := [paths[0]] + rest;
      assert |paths| > 1 ==> Versions(paths)[0] < Versions(paths)[1];
      forall i, j | 0 <= i < j < |more|
        ensures Versions(more)[i] < Versions(more)[j]
      {
        assert Versions(more)[j] == Versions(rest)[j - 1];
        if i > 0 {
          assert Versions(rest)[i - 1] < Versions(rest)[j - 1];
        } else if j > 1 {
          assert Versions(rest)[0] < Versions(rest)[j - 1];
        }
      }
    } else if paths != [] {
      var more := AddFile(paths, f).value;
      assert Versions(more) == Versions(paths);
    }
  }

  /** When file names sort as their numbers do, the versions come in strictly ascending order. */
  lemma {:induction false} CollectAscending(files: seq<File>)
    requires InNumericOrder(files) && Collect(files).Some?
    ensures Ascending(Versions(Collect(files).value))
    ensures files != [] ==>
              forall i | 0 <= i < |Collect(files).value| ::
                Collect(files).value[i].version <= files[|files| - 1].version
  {
    if files != [] {
      var front, f := files[..|files| - 1], files[|files| - 1];
      CollectAscending(front);
      AddFileAscending(Collect(front).value, f);
    }
  }

  // ------------------------------------------------------------ running the steps

  /** A version and the statements of the variant chosen for it. */
  datatype Step = Step(version: nat, statements: seq<string>)

  /** `schema_migrations` in insertion order, and every statement ever executed. */
  datatype Db = Db(recorded: seq<nat>, executed: seq<string>)

  /** `COALESCE(MAX(version), -1)` */
  function Current(recorded: seq<nat>): int {
    if recorded == [] then -1
    else
      var m := Current(recorded[..|recorded| - 1]);
      if m >= recorded[|recorded| - 1] then m else recorded[|recorded| - 1]
  }

  /** The loop of `migrate`, in a process that dies after `budget` database writes. Each
      write is committed on its own. The second result says whether the run finished. */
  function RunSteps(steps: seq<Step>, current: int, db: Db, budget: nat): (Db, bool)
    decreases |steps|
  {
    if steps == [] then (db, true)
    else
      var s := steps[0];
      if s.version <= current then RunSteps(steps[1..], current, db, budget)
      else if budget <= |s.statements| then (db.(executed := db.executed + s.statements[..budget]), false)
      else
        RunSteps(steps[1..], current, Db(db.recorded + [s.version], db.executed + s.statements),
                 budget - |s.statements| - 1)
  }

  /** One start of the server. */
  function Migrate(steps: seq<Step>, db: Db, budget: nat): (Db, bool) {
    RunSteps(steps, Current(db.recorded), db, budget)
  }

  /** One start after another. */
  function Starts(steps: seq<Step>, db: Db, budgets: seq<nat>): Db {
    if budgets == [] then db else Migrate(steps, Starts(steps, db, budgets[..|budgets| - 1]), budgets[|budgets| - 1]).0
  }

  const EMPTY := Db([], [])

  function VersionsOf(steps: seq<Step>): seq<nat> {
    seq(|steps|, i requires 0 <= i < |steps| => steps[i].version)
  }

  function AllStatements(steps: seq<Step>): seq<string> {
    if steps == [] then [] else steps[0].statements + AllStatements(steps[1..])
  }

  // ------------------------------------------------------------ ascending versions

  lemma {:induction false} CurrentOfPrefix(steps: seq<Step>, m: nat)
    requires Ascending(VersionsOf(steps)) && m <= |steps|
    ensures Current(VersionsOf(steps)[..m]) == if m == 0 then -1 else steps[m - 1].version
  {
    if m > 0 {
      var vs := VersionsOf(steps);
      CurrentOfPrefix(steps, m - 1);
      assert vs[..m][..m - 1] == vs[..m - 1];
      if m > 1 { assert vs[m - 2] < vs[m - 1]; }
    }
  }

  /** Steps already applied are skipped. */
  lemma {:induction false} SkipApplied(steps: seq<Step>, m: nat, current: int, db: Db, budget: nat)
    requires m <= |steps| && forall i | 0 <= i < m :: steps[i].version <= current
    ensures RunSteps(steps, current, db, budget) == RunSteps(steps[m..], current, db, budget)
    decreases m
  {
    if m > 0 {
      SkipApplied(steps[1..], m - 1, current, db, budget);
      assert steps[1..][m - 1..] == steps[m..];
    } else {
      assert steps[0..] == steps;
    }
  }

  /** The versions of some first steps have been recorded; of all of them if the run finished. */
  ghost predicate RecordedSome(steps: seq<Step>, before: seq<nat>, after: seq<nat>, finished: bool) {
    exists k: nat :: RecordedFirst(steps, before, after, k) && (finished ==> k == |steps|)
  }

  predicate RecordedFirst(steps: seq<Step>, before: seq<nat>, after: seq<nat>, k: nat) {
    k <= |steps| && after == before + VersionsOf(steps)[..k]
  }

  lemma RecordedNone(steps: seq<Step>, before: seq<nat>)
    ensures RecordedFirst(steps, before, before, 0)
  {
    assert before + VersionsOf(steps)[..0] == before;
  }

  lemma RecordedOneMore(steps: seq<Step>, before: seq<nat>, after: seq<nat>, k: nat)
    requires steps != [] && RecordedFirst(steps[1..], before + [steps[0].version], after, k)
    ensures RecordedFirst(steps, before, after, k + 1)
  {
    var vs := VersionsOf(steps);
    assert VersionsOf(steps[1..]) == vs[1..];
    assert vs[..k + 1] == [steps[0].version] + vs[1..][..k];
  }

  /** Steps not applied yet are recorded one by one; a finished run has executed and recorded
      them all. */
  lemma {:induction false} ApplyRest(steps: seq<Step>, current: int, db: Db, budget: nat)
    requires forall i | 0 <= i < |steps| :: steps[i].version > current
    ensures var (db', finished) := RunSteps(steps, current, db, budget);
            && RecordedSome(steps, db.recorded, db'.recorded, finished)
            && (finished ==> db'.executed == db.executed + AllStatements(steps))
            && db.executed <= db'.executed
    decreases |steps|
  {
    RecordedNone(steps, db.recorded);
    if steps != [] && budget > |steps[0].statements| {
      var s := steps[0];
      var db1 := Db(db.recorded + [s.version], db.executed + s.statements);
      ApplyRest(steps[1..], current, db1, budget - |s.statements| - 1);
      var (db', finished) := RunSteps(steps, current, db, budget);
      var k: nat :| RecordedFirst(steps[1..], db1.recorded, db'.recorded, k) && (finished ==> k == |steps[1..]|);
      RecordedOneMore(steps, db.recorded, db'.recorded, k);
    }
  }

  ghost predicate IsPrefix(steps: seq<Step>, recorded: seq<nat>) {
    recorded <= VersionsOf(steps)
  }

  /** A start goes on behind the steps recorded, which have all been applied. */
  lemma GoesOnBehind(steps: seq<Step>, db: Db, budget: nat)
    requires Ascending(VersionsOf(steps)) && IsPrefix(steps, db.recorded)
    ensures var rest := steps[|db.recorded|..];
            && (forall i | 0 <= i < |rest| :: rest[i].version > Current(db.recorded))
            && Migrate(steps, db, budget) == RunSteps(rest, Current(db.recorded), db, budget)
  {
    var m, vs := |db.recorded|, VersionsOf(steps);
    var current := Current(db.recorded);
    assert db.recorded == vs[..m];
    CurrentOfPrefix(steps, m);
    forall i | 0 <= i < |steps|
      ensures i < m ==> steps[i].version <= current
      ensures i >= m ==> steps[i].version > current
    {
      if i + 1 < m { assert vs[i] < vs[m - 1]; }
      if 0 < m <= i { assert vs[m - 1] < vs[i]; }
    }
    SkipApplied(steps, m, current, db, budget);
  }

  /** One start keeps the recorded versions a prefix of those available; if it finishes, all
      are recorded and what was executed is what was missing. */
  lemma MigrateKeepsPrefix(steps: seq<Step>, db: Db, budget: nat)
    requires Ascending(VersionsOf(steps)) && IsPrefix(steps, db.recorded)
    ensures var (db', finished) := Migrate(steps, db, budget);
            && IsPrefix(steps, db'.recorded) && db.recorded <= db'.recorded
            && (finished ==> db'.recorded == VersionsOf(steps)
                             && db'.executed == db.executed + AllStatements(steps[|db.recorded|..]))
  {
    var m, vs := |db.recorded|, VersionsOf(steps);
    GoesOnBehind(steps, db, budget);
    ApplyRest(steps[m..], Current(db.recorded), db, budget);
    var (db', finished) := Migrate(steps, db, budget);
    assert VersionsOf(steps[m..]) == vs[m..];
    var k: nat :| RecordedFirst(steps[m..], db.recorded, db'.recorded, k) && (finished ==> k == |steps[m..]|);
    assert db'.recorded == vs[..m + k];
    assert vs[..|vs|] == vs;
  }

  /** However often the server dies and at whatever statement, the recorded versions are a
      prefix of those available, each once. */
  lemma {:induction false} CrashesKeepPrefix(steps: seq<Step>, budgets: seq<nat>)
    requires Ascending(VersionsOf(steps))
    ensures IsPrefix(steps, Starts(steps, EMPTY, budgets).recorded)
    ensures Ascending(Starts(steps, EMPTY, budgets).recorded)
  {
    if budgets != [] {
      CrashesKeepPrefix(steps, budgets[..|budgets| - 1]);
      MigrateKeepsPrefix(steps, Starts(steps, EMPTY, budgets[..|budgets| - 1]), budgets[|budgets| - 1]);
    }
    var recorded := Starts(steps, EMPTY, budgets).recorded;
    forall i, j | 0 <= i < j < |recorded|
      ensures recorded[i] < recorded[j]
    {
      assert recorded[i] == VersionsOf(steps)[i] && recorded[j] == VersionsOf(steps)[j];
    }
  }

  /** After any crashes, a start that finishes has recorded every version, and the start
      after it executes nothing. */
  lemma FinishedMeansDone(steps: seq<Step>, budgets: seq<nat>, budget: nat, next: nat)
    requires Ascending(VersionsOf(steps))
    requires Migrate(steps, Starts(steps, EMPTY, budgets), budget).1
    ensures var db := Migrate(steps, Starts(steps, EMPTY, budgets), budget).0;
            db.recorded == VersionsOf(steps) && Migrate(steps, db, next) == (db, true)
  {
    CrashesKeepPrefix(steps, budgets);
    MigrateKeepsPrefix(steps, Starts(steps, EMPTY, budgets), budget);
    var db := Migrate(steps, Starts(steps, EMPTY, budgets), budget).0;
    var n := |steps|;
    CurrentOfPrefix(steps, n);
    assert VersionsOf(steps)[..n] == VersionsOf(steps);
    forall i | 0 <= i < n
      ensures steps[i].version <= Current(db.recorded)
    {
      if i + 1 < n { assert VersionsOf(steps)[i] < VersionsOf(steps)[n - 1]; }
    }
    SkipApplied(steps, n, Current(db.recorded), db, next);
    assert steps[n..] == [];
  }

  // ------------------------------------------------------------ versions out of order

  function Cost(steps: seq<Step>): nat {
    if steps == [] then 0 else |steps[0].statements| + 1 + Cost(steps[1..])
  }

  /** Dying right after the first `k` steps of a fresh database. */
  lemma {:induction false} DieAfter(steps: seq<Step>, k: nat, db: Db)
    requires k <= |steps|
    ensures RunSteps(steps, -1, db, Cost(steps[..k])).0.recorded == db.recorded + VersionsOf(steps)[..k]
    decreases k
  {
    var vs := VersionsOf(steps);
    if k == 0 {
      assert db.recorded + vs[..0] == db.recorded;
    } else {
      var s := steps[0];
      assert steps[..k][1..] == steps[1..][..k - 1];
      var db1 := Db(db.recorded + [s.version], db.executed + s.statements);
      DieAfter(steps[1..], k - 1, db1);
      assert VersionsOf(steps[1..]) == vs[1..];
      assert vs[..k] == [s.version] + vs[1..][..k - 1];
    }
  }

  lemma {:induction false} CurrentIsMax(recorded: seq<nat>)
    ensures forall v <- recorded :: v <= Current(recorded)
  {
    if recorded != [] {
      CurrentIsMax(recorded[..|recorded| - 1]);
      assert recorded == recorded[..|recorded| - 1] + [recorded[|recorded| - 1]];
    }
  }

  /** A version not above the current one is never recorded by a run. */
  lemma {:induction false} LowVersionsAreSkipped(steps: seq<Step>, current: int, db: Db, budget: nat, v: nat)
    requires v <= current && v !in db.recorded
    ensures v !in RunSteps(steps, current, db, budget).0.recorded
    decreases |steps|
  {
    if steps != [] {
      var s := steps[0];
      if s.version <= current {
        LowVersionsAreSkipped(steps[1..], current, db, budget, v);
      } else if budget > |s.statements| {
        LowVersionsAreSkipped(steps[1..], current, Db(db.recorded + [s.version], db.executed + s.statements),
                              budget - |s.statements| - 1, v);
      }
    }
  }

  lemma {:induction false} EnoughFinishes(steps: seq<Step>, current: int, db: Db, budget: nat)
    requires budget >= Cost(steps)
    ensures RunSteps(steps, current, db, budget).1
    decreases |steps|
  {
    if steps != [] {
      var s := steps[0];
      if s.version <= current {
        EnoughFinishes(steps[1..], current, db, budget);
      } else {
        EnoughFinishes(steps[1..], current, Db(db.recorded + [s.version], db.executed + s.statements),
                       budget - |s.statements| - 1);
      }
    }
  }

  predicate Distinct(versions: seq<nat>) {
    forall i, j | 0 <= i < j < |versions| :: versions[i] != versions[j]
  }

  /** Every start that finishes, after any crashes, has recorded every version. */
  ghost predicate AlwaysCompletes(steps: seq<Step>) {
    forall budgets: seq<nat>, budget: nat ::
      Migrate(steps, Starts(steps, EMPTY, budgets), budget).1 ==>
        forall v <- VersionsOf(steps) :: v in Migrate(steps, Starts(steps, EMPTY, budgets), budget).0.recorded
  }

  lemma {:induction false} AscendingFromNeighbours(versions: seq<nat>)
    requires forall i | 0 <= i < |versions| - 1 :: versions[i] < versions[i + 1]
    ensures Ascending(versions)
  {
    forall i, j | 0 <= i < j < |versions|
      ensures versions[i] < versions[j]
    {
      NeighboursReach(versions, i, j);
    }
  }

  lemma {:induction false} NeighboursReach(versions: seq<nat>, i: nat, j: nat)
    requires i < j < |versions| && forall k | 0 <= k < |versions| - 1 :: versions[k] < versions[k + 1]
    ensures versions[i] < versions[j]
    decreases j - i
  {
    if i + 1 < j { NeighboursReach(versions, i + 1, j); }
  }

  /** Recovery from crashes loses no migration exactly when the listing is in numeric order:
      otherwise dying right after a version that sorts before a lower one skips that one. */
  lemma CompletesIffAscending(steps: seq<Step>)
    requires Distinct(VersionsOf(steps))
    ensures AlwaysCompletes(steps) <==> Ascending(VersionsOf(steps))
  {
    var vs := VersionsOf(steps);
    if Ascending(vs) {
      forall budgets: seq<nat>, budget: nat | Migrate(steps, Starts(steps, EMPTY, budgets), budget).1
        ensures forall v <- vs :: v in Migrate(steps, Starts(steps, EMPTY, budgets), budget).0.recorded
      {
        FinishedMeansDone(steps, budgets, budget, 0);
      }
    } else {
      if forall i | 0 <= i < |vs| - 1 :: vs[i] < vs[i + 1] {
        AscendingFromNeighbours(vs);
      }
      var i :| 0 <= i < |vs| - 1 && vs[i] >= vs[i + 1];
      OutOfOrderIsLost(steps, i);
    }
  }

  lemma OutOfOrderIsLost(steps: seq<Step>, i: nat)
    requires Distinct(VersionsOf(steps)) && i + 1 < |steps| && steps[i].version >= steps[i + 1].version
    ensures !AlwaysCompletes(steps)
  {
    var vs := VersionsOf(steps);
    var v := vs[i + 1];
    var budgets := [Cost(steps[..i + 1])];
    assert budgets[..0] == [];
    DieAfter(steps, i + 1, EMPTY);
    var db := Starts(steps, EMPTY, budgets);
    assert Starts(steps, EMPTY, []) == EMPTY;
    assert db == Migrate(steps, Starts(steps, EMPTY, budgets[..|budgets| - 1]), budgets[0]).0;
    assert db.recorded == vs[..i + 1];
    assert vs[..i + 1][i] == vs[i];
    assert vs[i] in db.recorded;
    CurrentIsMax(db.recorded);
    LowVersionsAreSkipped(steps, Current(db.recorded), db, Cost(steps), v);
    EnoughFinishes(steps, Current(db.recorded), db, Cost(steps));
    assert Migrate(steps, Starts(steps, EMPTY, budgets), Cost(steps)).1;
    assert v in vs;
  }

  // ------------------------------------------------------------ from the listing to the database

  /** The variant configured, or the standard one where the version has no such variant. */
  function Chosen(o: Options, configured: Variant): Option<string> {
    if configured.Lite? && o.lite.Some? then o.lite else o.standard
  }

  predicate AllChosen(paths: seq<Options>, configured: Variant) {
    forall i | 0 <= i < |paths| :: Chosen(paths[i], configured).Some?
  }

  /** The steps of a listing, when `split` splits a migration into statements. */
  function StepsOf(paths: seq<Options>, configured: Variant, split: string -> seq<string>): seq<Step>
    requires AllChosen(paths, configured)
  {
    seq(|paths|, i requires 0 <= i < |paths| => Step(paths[i].version, split(Chosen(paths[i], configured).value)))
  }

  predicate Lists(files: seq<File>, v: nat) { exists f <- files :: f.version == v }

  /** Whatever the files hold: if their names sort as their numbers do, then after any crashes a
      start that finishes has recorded the version of every file, in order and each once. */
  lemma ListedFilesAreRecorded(files: seq<File>, configured: Variant, split: string -> seq<string>,
                               budgets: seq<nat>, budget: nat)
    requires InNumericOrder(files) && Collect(files).Some? && AllChosen(Collect(files).value, configured)
    requires var steps := StepsOf(Collect(files).value, configured, split);
             Migrate(steps, Starts(steps, EMPTY, budgets), budget).1
    ensures var steps := StepsOf(Collect(files).value, configured, split);
            var recorded := Migrate(steps, Starts(steps, EMPTY, budgets), budget).0.recorded;
            Ascending(recorded) && forall v: nat :: v in recorded <==> Lists(files, v)
  {
    var paths := Collect(files).value;
    var steps := StepsOf(paths, configured, split);
    CollectAscending(files);
    assert VersionsOf(steps) == Versions(paths);
    FinishedMeansDone(steps, budgets, budget, 0);
    CollectCovers(files);
  }

  lemma {:induction false} AddFileCovers(paths: seq<Options>, f: File)
    requires f.variant.Some? && AddFile(paths, f).Some?
    ensures forall v: nat :: v in Versions(AddFile(paths, f).value) <==> v in Versions(paths) || v == f.version
  {
    var more := AddFile(paths, f).value;
    if paths == [] {
      assert Versions(more) == [f.version] && Versions(paths) == [];
    } else if paths[0].version == f.version {
      assert Versions(more) == Versions(paths);
      assert Versions(paths)[0] == f.version;
    } else {
      AddFileCovers(paths[1..], f);
      var rest := AddFile(paths[1..], f).value;
      assert Versions(more) == [paths[0].version] + Versions(rest);
      assert Versions(paths) == [paths[0].version] + Versions(paths[1..]);
    }
  }

  /** The versions collected are those of the files. */
  lemma {:induction false} CollectCovers(files: seq<File>)
    requires Collect(files).Some?
    ensures forall v: nat :: v in Versions(Collect(files).value) <==> Lists(files, v)
  {
    if files != [] {
      var front, f := files[..|files| - 1], files[|files| - 1];
      CollectCovers(front);
      AddFileCovers(Collect(front).value, f);
      assert files == front + [f];
      forall v: nat
        ensures Lists(files, v) <==> Lists(front, v) || f.version == v
      {
        assert f in files;
        assert forall g <- front :: g in files;
      }
    }
  }

  // ------------------------------------------------------------ the loops of migrate

  class SchemaDatabase {
    var recorded: seq<nat>
    var executed: seq<string>

    constructor ()
      ensures Abs() == EMPTY
    {
      recorded, executed := [], [];
    }

    ghost function Abs(): Db
      reads this
    {
      Db(recorded, executed)
    }

    /** `migrate` in a process that dies after `budget` writes. */
    method RunMigrations(steps: seq<Step>, budget: nat) returns (finished: bool)
      modifies this
      ensures (Abs(), finished) == Migrate(steps, old(Abs()), budget)
      ensures Ascending(VersionsOf(steps)) && old(IsPrefix(steps, recorded)) ==>
                IsPrefix(steps, recorded) && (finished ==> recorded == VersionsOf(steps))
    {
      var current := Current(recorded);
      var left := budget;
      ghost var goal := Migrate(steps, Abs(), budget);
      if Ascending(VersionsOf(steps)) && IsPrefix(steps, recorded) {
        MigrateKeepsPrefix(steps, Abs(), budget);
      }
      for i := 0 to |steps|
        invariant RunSteps(steps[i..], current, Abs(), left) == goal
      {
        var s := steps[i];
        assert steps[i..][0] == s && steps[i..][1..] == steps[i + 1..];
        if s.version > current {
          ghost var before, budget' := Abs(), left;
          for k := 0 to |s.statements|
            invariant recorded == before.recorded && executed == before.executed + s.statements[..k]
            invariant left == budget' - k
          {
            if left == 0 {
              return false;
            }
            executed := executed + [s.statements[k]];
            left := left - 1;
            assert s.statements[..k + 1] == s.statements[..k] + [s.statements[k]];
          }
          assert s.statements[..|s.statements|] == s.statements;
          if left == 0 {
            return false;
          }
          recorded := recorded + [s.version];
          left := left - 1;
        }
      }
      finished := true;
    }
  }
}
