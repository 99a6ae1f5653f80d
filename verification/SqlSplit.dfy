/** `_split_sql_statements` of `backend/server/runtime_postgres/database.py`. */
module SqlSplit {
  import opened PyStrings
  import opened SqlPatterns
  import opened Wrappers

  // ------------------------------------------------------------ splitting at the matches

  /** `re.split` with one group: text, match, text, match, ..., text. The text since the last
      match begins at `from`. */
  function Pieces(p: Pattern, text: string, from: nat, i: nat): (parts: seq<string>)
    requires from <= i <= |text|
    ensures |parts| % 2 == 1
    decreases |text| - i
  {
    if i == |text| then [text[from..]]
    else
      var end := MatchEnd(p, text, i);
      if end.None? || end.value == i then Pieces(p, text, from, i + 1)
      else [text[from..i], text[i..end.value]] + Pieces(p, text, end.value, end.value)
  }

  function Concat(parts: seq<string>): string {
    if parts == [] then "" else Concat(parts[..|parts| - 1]) + parts[|parts| - 1]
  }

  lemma {:induction false} ConcatFront(part: string, parts: seq<string>)
    ensures Concat([part] + parts) == part + Concat(parts)
  {
    var all := [part] + parts;
    if parts == [] {
      assert all == [part] && all[..0] == [];
    } else {
      var n := |parts| - 1;
      assert all[..|all| - 1] == [part] + parts[..n];
      ConcatFront(part, parts[..n]);
      Regroup(part, Concat(parts[..n]), parts[n]);
    }
  }

  lemma Regroup(a: string, b: string, c: string)
    ensures a + b + c == a + (b + c)
  {
  }

  lemma CutTwice(text: string, from: nat, i: nat, end: nat)
    requires from <= i <= end <= |text|
    ensures text[from..] == text[from..i] + (text[i..end] + text[end..])
  {
  }

  lemma {:induction false} ConcatOne(part: string)
    ensures Concat([part]) == part
  {
    assert [part][..0] == [];
  }

  lemma ConcatTwo(a: string, b: string, parts: seq<string>)
    ensures Concat([a, b] + parts) == a + (b + Concat(parts))
  {
    assert [a, b] + parts == [a] + ([b] + parts);
    ConcatFront(a, [b] + parts);
    ConcatFront(b, parts);
  }

  /** The pieces are the text, cut. */
  lemma {:induction false} PiecesAreText(p: Pattern, text: string, from: nat, i: nat)
    requires from <= i <= |text|
    ensures Concat(Pieces(p, text, from, i)) == text[from..]
    decreases |text| - i
  {
    if i == |text| {
      ConcatOne(text[from..]);
    } else {
      var end := MatchEnd(p, text, i);
      if end.None? || end.value == i {
        PiecesAreText(p, text, from, i + 1);
      } else {
        PiecesAreText(p, text, end.value, end.value);
        ConcatTwo(text[from..i], text[i..end.value], Pieces(p, text, end.value, end.value));
        CutTwice(text, from, i, end.value);
      }
    }
  }

  // ------------------------------------------------------------ cores and statements

  /** The match before segment `j`, if there is one. */
  function MatchBefore(parts: seq<string>, j: nat): string
    requires 2 * j < |parts|
  {
    if j > 0 then parts[2 * j - 1] else ""
  }

  /** The match before segment `j`, and the segment, without surrounding whitespace. */
  function CoreAt(parts: seq<string>, j: nat): string
    requires 2 * j < |parts|
  {
    Strip(MatchBefore(parts, j) + Strip(parts[2 * j]))
  }

  function Terminate(core: string): string {
    if core != "" && core[|core| - 1] == ';' then core else core + ";"
  }

  /** The statements for these cores. */
  function Terminated(cores: seq<string>): seq<string> {
    if cores == [] then [] else Terminated(cores[..|cores| - 1]) + [Terminate(cores[|cores| - 1])]
  }

  /** A statement ends with a terminator, which was added only where there is none. */
  predicate IsStatement(statement: string, core: string) {
    && core != "" && statement != "" && statement[|statement| - 1] == ';'
    && if core[|core| - 1] == ';' then statement == core else statement == core + ";"
  }

  /** The cores of the first `n` segments; empty ones are skipped. */
  function Cores(parts: seq<string>, n: nat): seq<string>
    requires 2 * n <= |parts| + 1
  {
    if n == 0 then []
    else
      var core := CoreAt(parts, n - 1);
      if core == "" then Cores(parts, n - 1) else Cores(parts, n - 1) + [core]
  }

  // ------------------------------------------------------------ nothing is lost

  lemma ConcatAppend(parts: seq<string>, p: string)
    ensures Concat(parts + [p]) == Concat(parts) + p
  {
    assert (parts + [p])[..|parts|] == parts;
  }

  lemma CoreText(parts: seq<string>, j: nat)
    requires 2 * j < |parts|
    ensures Squash(CoreAt(parts, j)) == Squash(MatchBefore(parts, j) + parts[2 * j])
  {
    CoreOf(MatchBefore(parts, j), parts[2 * j]);
  }

  lemma CoreOf(found: string, segment: string)
    ensures Squash(Strip(found + Strip(segment))) == Squash(found + segment)
  {
    SquashStrip(found + Strip(segment));
    SquashAppend(found, Strip(segment));
    SquashStrip(segment);
    SquashAppend(found, segment);
  }

  /** The text up to the end of segment `j`. */
  function TextTo(parts: seq<string>, j: nat): string
    requires 2 * j < |parts|
  {
    Concat(parts[..2 * j + 1])
  }

  lemma TextStep(parts: seq<string>, j: nat)
    requires 0 < j && 2 * j < |parts|
    ensures TextTo(parts, j) == TextTo(parts, j - 1) + (parts[2 * j - 1] + parts[2 * j])
  {
    var front := parts[..2 * j - 1];
    assert parts[..2 * j] == front + [parts[2 * j - 1]];
    assert parts[..2 * j + 1] == parts[..2 * j] + [parts[2 * j]];
    ConcatAppend(front, parts[2 * j - 1]);
    ConcatAppend(parts[..2 * j], parts[2 * j]);
    Regroup(Concat(front), parts[2 * j - 1], parts[2 * j]);
  }

  lemma FirstText(parts: seq<string>)
    requires parts != []
    ensures TextTo(parts, 0) == parts[0]
  {
    assert parts[..1] == [] + [parts[0]];
    ConcatAppend([], parts[0]);
  }

  lemma CoresStep(cores: seq<string>, core: string)
    ensures Squash(Concat(cores + [core])) == Squash(Concat(cores)) + Squash(core)
  {
    ConcatAppend(cores, core);
    SquashAppend(Concat(cores), core);
  }

  /** The cores of the first segments keep their text, whitespace aside. */
  lemma {:induction false} CoresKeepText(parts: seq<string>, j: nat)
    requires 2 * j < |parts|
    ensures Squash(Concat(Cores(parts, j + 1))) == Squash(TextTo(parts, j))
  {
    var core := CoreAt(parts, j);
    CoresStep(Cores(parts, j), core);
    CoreText(parts, j);
    assert Squash(Concat(Cores(parts, j + 1))) == Squash(Concat(Cores(parts, j))) + Squash(core);
    if j == 0 {
      FirstText(parts);
      assert "" + parts[0] == parts[0];
    } else {
      CoresKeepText(parts, j - 1);
      TextStep(parts, j);
      SquashAppend(TextTo(parts, j - 1), parts[2 * j - 1] + parts[2 * j]);
    }
  }

  /** Splitting loses no text but whitespace: the cores, in order, spell the migration. */
  lemma SplitLosesNothing(p: Pattern, sql: string, j: nat)
    requires |Pieces(p, sql, 0, 0)| == 2 * j + 1
    ensures Squash(Concat(Cores(Pieces(p, sql, 0, 0), j + 1))) == Squash(sql)
  {
    var parts := Pieces(p, sql, 0, 0);
    PiecesAreText(p, sql, 0, 0);
    CoresKeepText(parts, j);
    assert parts[..2 * j + 1] == parts;
    assert sql[0..] == sql;
  }

  lemma {:induction false} CoresAreNotEmpty(parts: seq<string>, n: nat)
    requires 2 * n <= |parts| + 1
    ensures forall core <- Cores(parts, n) :: core != ""
  {
    if n > 0 { CoresAreNotEmpty(parts, n - 1); }
  }

  /** Each statement is a core, with a terminator added only where there is none. */
  lemma {:induction false} StatementsAreTerminated(cores: seq<string>)
    requires forall core <- cores :: core != ""
    ensures |Terminated(cores)| == |cores|
    ensures forall i | 0 <= i < |cores| :: IsStatement(Terminated(cores)[i], cores[i])
  {
    if cores != [] {
      var n := |cores| - 1;
      forall core | core in cores[..n]
        ensures core != ""
      {
        assert core in cores;
      }
      StatementsAreTerminated(cores[..n]);
      assert cores[n] in cores;
    }
  }

  // ------------------------------------------------------------ where the text is cut

  datatype Cut = Cut(start: nat, end: nat)

  /** Nowhere in this part of the text does an index statement begin. */
  ghost predicate NoneBegins(text: string, from: nat, to: nat) {
    forall i: nat, e: nat | from <= i < to :: !Matches(INDEX_STATEMENT, text, i, e)
  }

  /** The cuts from here on: at each index statement that begins first, as far as it goes. */
  ghost predicate AreCuts(text: string, from: nat, cuts: seq<Cut>)
    decreases |cuts|
  {
    if cuts == [] then NoneBegins(text, from, |text| + 1)
    else
      && from <= cuts[0].start && NoneBegins(text, from, cuts[0].start)
      && Longest(INDEX_STATEMENT, text, cuts[0].start, Some(cuts[0].end))
      && AreCuts(text, cuts[0].end, cuts[1..])
  }

  /** There is one way to cut a text. */
  lemma {:induction false} CutsAreUnique(text: string, from: nat, a: seq<Cut>, b: seq<Cut>)
    requires AreCuts(text, from, a) && AreCuts(text, from, b)
    ensures a == b
    decreases |a|
  {
    SomeBeginsIff(text, from, a);
    SomeBeginsIff(text, from, b);
    if a != [] {
      assert a[0].start == b[0].start;
      assert a[0] == b[0];
      CutsAreUnique(text, a[0].end, a[1..], b[1..]);
      assert a == [a[0]] + a[1..] && b == [b[0]] + b[1..];
    }
  }

  lemma SomeBeginsIff(text: string, from: nat, cuts: seq<Cut>)
    requires AreCuts(text, from, cuts)
    ensures cuts == [] <==> NoneBegins(text, from, |text| + 1)
  {
    if cuts != [] {
      assert Matches(INDEX_STATEMENT, text, cuts[0].start, cuts[0].end);
    }
  }

  predicate InOrder(text: string, from: nat, cuts: seq<Cut>)
    decreases |cuts|
  {
    if cuts == [] then from <= |text|
    else from <= cuts[0].start <= cuts[0].end <= |text| && InOrder(text, cuts[0].end, cuts[1..])
  }

  /** The text from each cut to the next; the first stretch begins at `from`. */
  function Stretches(text: string, from: nat, cuts: seq<Cut>): (stretches: seq<string>)
    requires InOrder(text, from, cuts)
    ensures |stretches| == |cuts| + 1
    decreases |cuts|
  {
    if cuts == [] then [text[from..]]
    else
      OrderFromEarlier(text, cuts[0].end, cuts[0].start, cuts[1..]);
      [text[from..cuts[0].start]] + Stretches(text, cuts[0].start, cuts[1..])
  }

  lemma OrderFromEarlier(text: string, from: nat, earlier: nat, cuts: seq<Cut>)
    requires InOrder(text, from, cuts) && earlier <= from
    ensures InOrder(text, earlier, cuts)
  {
  }

  lemma {:induction false} StretchesAreText(text: string, from: nat, cuts: seq<Cut>)
    requires InOrder(text, from, cuts)
    ensures Concat(Stretches(text, from, cuts)) == text[from..]
    decreases |cuts|
  {
    if cuts == [] {
      ConcatOne(text[from..]);
    } else {
      var c := cuts[0].start;
      OrderFromEarlier(text, cuts[0].end, c, cuts[1..]);
      StretchesAreText(text, c, cuts[1..]);
      ConcatFront(text[from..c], Stretches(text, c, cuts[1..]));
      assert text[from..] == text[from..c] + text[c..];
    }
  }

  function PiecesOf(text: string, from: nat, cuts: seq<Cut>): (parts: seq<string>)
    requires InOrder(text, from, cuts)
    ensures |parts| == 2 * |cuts| + 1
    decreases |cuts|
  {
    if cuts == [] then [text[from..]]
    else [text[from..cuts[0].start], text[cuts[0].start..cuts[0].end]] + PiecesOf(text, cuts[0].end, cuts[1..])
  }

  /** A cut does not end in front of whitespace. */
  predicate EndsClear(text: string, cuts: seq<Cut>) {
    forall c <- cuts :: c.end < |text| ==> !IsSpace(text[c.end])
  }

  lemma NothingBegins(text: string, from: nat, i: nat)
    requires NoneBegins(text, from, i) && i <= |text| && MatchEnd(INDEX_STATEMENT, text, i).None?
    ensures NoneBegins(text, from, i + 1)
  {
    IndexStatementIsGreedy(text);
    assert Longest(INDEX_STATEMENT, text, i, None);
  }

  /** Splitting cuts the text where it is to be cut. */
  lemma {:induction false} PiecesAreCut(text: string, from: nat, i: nat) returns (cuts: seq<Cut>)
    requires from <= i <= |text| && NoneBegins(text, from, i)
    ensures AreCuts(text, from, cuts) && InOrder(text, from, cuts) && EndsClear(text, cuts)
    ensures Pieces(INDEX_STATEMENT, text, from, i) == PiecesOf(text, from, cuts)
    decreases |text| - i
  {
    IndexStatementIsGreedy(text);
    var end := MatchEnd(INDEX_STATEMENT, text, i);
    assert Longest(INDEX_STATEMENT, text, i, end);
    if end.None? {
      NothingBegins(text, from, i);
      if i == |text| {
        cuts := [];
      } else {
        cuts := PiecesAreCut(text, from, i + 1);
      }
    } else {
      var more := PiecesAreCut(text, end.value, end.value);
      cuts := [Cut(i, end.value)] + more;
      IndexStatementEndsClear(text, i);
      assert cuts[1..] == more;
    }
  }

  // ------------------------------------------------------------ cores are stretches

  /** What stands before segment `j`, and the segment, are stretch `j`. */
  lemma {:induction false} PartsAreStretch(text: string, from: nat, cuts: seq<Cut>, j: nat)
    requires InOrder(text, from, cuts) && j <= |cuts|
    ensures MatchBefore(PiecesOf(text, from, cuts), j) + PiecesOf(text, from, cuts)[2 * j]
         == Stretches(text, from, cuts)[j]
    decreases |cuts|
  {
    var parts := PiecesOf(text, from, cuts);
    if j == 0 {
      assert "" + parts[0] == parts[0];
    } else {
      var c, rest := cuts[0], cuts[1..];
      var more := PiecesOf(text, c.end, rest);
      assert parts[2 * j] == more[2 * (j - 1)];
      if j == 1 {
        var to := if rest == [] then |text| else rest[0].start;
        assert parts[1] == text[c.start..c.end] && more[0] == text[c.end..to];
        assert text[c.start..c.end] + text[c.end..to] == text[c.start..to];
      } else {
        assert parts[2 * j - 1] == more[2 * (j - 1) - 1];
        PartsAreStretch(text, c.end, rest, j - 1);
      }
    }
  }

  /** A segment behind a match does not begin with whitespace. */
  lemma {:induction false} SegmentsAreClear(text: string, from: nat, cuts: seq<Cut>, j: nat)
    requires InOrder(text, from, cuts) && EndsClear(text, cuts) && 0 < j <= |cuts|
    ensures var segment := PiecesOf(text, from, cuts)[2 * j];
            segment == "" || !IsSpace(segment[0])
    decreases |cuts|
  {
    var c, rest := cuts[0], cuts[1..];
    var more := PiecesOf(text, c.end, rest);
    assert PiecesOf(text, from, cuts)[2 * j] == more[2 * (j - 1)];
    assert c in cuts;
    assert EndsClear(text, rest) by { assert forall d <- rest :: d in cuts; }
    if j > 1 { SegmentsAreClear(text, c.end, rest, j - 1); }
  }

  /** A core is its stretch without the whitespace around it. */
  lemma CoreIsStretch(text: string, cuts: seq<Cut>, j: nat)
    requires InOrder(text, 0, cuts) && EndsClear(text, cuts) && j <= |cuts|
    ensures CoreAt(PiecesOf(text, 0, cuts), j) == Strip(Stretches(text, 0, cuts)[j])
  {
    var parts := PiecesOf(text, 0, cuts);
    PartsAreStretch(text, 0, cuts, j);
    if j > 0 { SegmentsAreClear(text, 0, cuts, j); }
    StripBehind(MatchBefore(parts, j), parts[2 * j]);
  }

  /** The stretches that are not blank, without the whitespace around them. */
  function NonBlank(stretches: seq<string>): seq<string> {
    if stretches == [] then []
    else
      var n := |stretches| - 1;
      NonBlank(stretches[..n]) + if Strip(stretches[n]) == "" then [] else [Strip(stretches[n])]
  }

  lemma {:induction false} CoresAreStretches(text: string, cuts: seq<Cut>, n: nat)
    requires InOrder(text, 0, cuts) && EndsClear(text, cuts) && n <= |cuts| + 1
    ensures Cores(PiecesOf(text, 0, cuts), n) == NonBlank(Stretches(text, 0, cuts)[..n])
  {
    if n > 0 {
      CoresAreStretches(text, cuts, n - 1);
      CoreIsStretch(text, cuts, n - 1);
      var stretches := Stretches(text, 0, cuts);
      assert stretches[..n][..n - 1] == stretches[..n - 1];
    }
  }

  // ------------------------------------------------------------ the loop

  /** One round of the loop, up to the test for an empty statement. */
  method StatementAt(parts: seq<string>, i: nat, ghost n: nat) returns (stmt: string)
    requires i == 2 * n < |parts|
    ensures stmt == CoreAt(parts, n)
  {
    var segment := Strip(parts[i]);
    var prefix := if i > 0 then parts[i - 1] else "";
    stmt := Strip(prefix + segment);
  }

  method WithTerminator(stmt: string) returns (statement: string)
    requires stmt != ""
    ensures statement == Terminate(stmt)
  {
    statement := if stmt[|stmt| - 1] == ';' then stmt else stmt + ";";
  }

  lemma CoresNext(parts: seq<string>, n: nat, core: string)
    requires 2 * n < |parts| && core == CoreAt(parts, n)
    ensures Cores(parts, n + 1) == if core == "" then Cores(parts, n) else Cores(parts, n) + [core]
  {
  }

  lemma TerminatedStep(cores: seq<string>, core: string)
    ensures Terminated(cores + [core]) == Terminated(cores) + [Terminate(core)]
  {
    assert (cores + [core])[..|cores|] == cores;
  }

  /** The rest of the round. */
  method AddStatement(before: seq<string>, stmt: string, ghost cores: seq<string>) returns (statements: seq<string>)
    requires before == Terminated(cores)
    ensures statements == Terminated(if stmt == "" then cores else cores + [stmt])
  {
    statements := before;
    TerminatedStep(cores, stmt);
    if stmt != "" {
      var statement := WithTerminator(stmt);
      statements := statements + [statement];
    }
  }

  method Round(parts: seq<string>, i: nat, ghost n: nat, before: seq<string>) returns (statements: seq<string>)
    requires i == 2 * n < |parts| && before == Terminated(Cores(parts, n))
    ensures statements == Terminated(Cores(parts, n + 1))
  {
    var stmt := StatementAt(parts, i, n);
    CoresNext(parts, n, stmt);
    statements := AddStatement(before, stmt, Cores(parts, n));
  }

  /** The loop over the segments. */
  method StatementsOf(parts: seq<string>, ghost m: nat) returns (statements: seq<string>)
    requires |parts| == 2 * m + 1
    ensures statements == Terminated(Cores(parts, m + 1))
  {
    statements := [];
    var i := 0;
    ghost var n := 0;
    while i < |parts|
      invariant i == 2 * n && n <= m + 1
      invariant statements == Terminated(Cores(parts, n))
    {
      statements := Round(parts, i, n, statements);
      i, n := i + 2, n + 1;
    }
    assert n == m + 1;
  }

  /** `_split_sql_statements`. The text is cut where an index statement begins, and nowhere else;
      each stretch that is not blank, without the whitespace around it, is a core, and the statements
      are the cores with a terminator. */
  method SplitSqlStatements(sql: string)
    returns (statements: seq<string>, ghost cores: seq<string>, ghost cuts: seq<Cut>)
    ensures |statements| == |cores| && forall i | 0 <= i < |cores| :: IsStatement(statements[i], cores[i])
    ensures Squash(Concat(cores)) == Squash(sql)
    ensures AreCuts(sql, 0, cuts) && InOrder(sql, 0, cuts) && Concat(Stretches(sql, 0, cuts)) == sql
    ensures cores == NonBlank(Stretches(sql, 0, cuts))
  {
    var parts := Pieces(INDEX_STATEMENT, sql, 0, 0);
    ghost var m := |parts| / 2;
    statements := StatementsOf(parts, m);
    cores := Cores(parts, m + 1);
    CoresAreNotEmpty(parts, m + 1);
    StatementsAreTerminated(cores);
    SplitLosesNothing(INDEX_STATEMENT, sql, m);
    cuts := PiecesAreCut(sql, 0, 0);
    CoresAreStretches(sql, cuts, m + 1);
    StretchesAreText(sql, 0, cuts);
    assert Stretches(sql, 0, cuts)[..m + 1] == Stretches(sql, 0, cuts) && sql[0..] == sql;
  }
}
