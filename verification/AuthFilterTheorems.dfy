/** The emitted SQL means what the filters mean. */
module AuthFilterTheorems {
  import opened Wrappers
  import opened Jsonb
  import opened AuthFilters

  // ------------------------------------------------------------ containment says what a filter says

  lemma EqContainment(meta: Json, key: string, v: Json)
    ensures Contains(meta, JObj(map[key := v])) <==> EqualsAt(meta, key, v)
  {
    var fields := map[key := v];
    assert key in fields && fields[key] == v;
    assert meta.JObj? && key in meta.fields && Deep(meta.fields[key], v) ==>
      forall k <- fields :: k in meta.fields && Deep(meta.fields[k], fields[k]);
  }

  lemma MemberContainment(meta: Json, key: string, v: Json)
    ensures Contains(meta, JObj(map[key := JArr([v])])) <==> MemberAt(meta, key, v)
  {
    EqContainment(meta, key, JArr([v]));
    if meta.JObj? && key in meta.fields && meta.fields[key].JArr? {
      var items := meta.fields[key].items;
      assert v in [v];
      assert Deep(meta.fields[key], JArr([v])) <==> exists u <- items :: Deep(u, v);
      if Scalar(v) {
        assert forall u <- items :: Deep(u, v) <==> u == v;
      }
    }
  }

  // ------------------------------------------------------------ existing bindings survive

  lemma {:induction false} CompileKeeps(f: Filter, st: Binds, prefix: string)
    ensures Keeps(st.params, Compile(f, st, prefix).0.params)
    decreases f, 1
  {
    match f
    case Eq(_, _) =>
    case HasAny(key, ms) => MembersKeep(key, ms, st, prefix);
    case AllOf(fs) => CompileAllKeeps(fs, st, prefix);
    case AnyOf(fs) => CompileAllKeeps(fs, st, prefix);
    case Unset =>
  }

  lemma {:induction false} MembersKeep(key: string, ms: seq<JsonText>, st: Binds, prefix: string)
    ensures Keeps(st.params, CompileMembers(key, ms, st, prefix).0.params)
  {
    if ms != [] { MembersKeep(key, ms[..|ms| - 1], st, prefix); }
  }

  lemma {:induction false} CompileAllKeeps(fs: seq<Filter>, st: Binds, prefix: string)
    ensures Keeps(st.params, CompileAll(fs, st, prefix).0.params)
    decreases fs, 0
  {
    if fs != [] {
      CompileAllKeeps(fs[..|fs| - 1], st, prefix);
      CompileKeeps(fs[|fs| - 1], CompileAll(fs[..|fs| - 1], st, prefix).0, prefix);
    }
  }

  // ------------------------------------------------------------ when there is no text

  /** Compilation raises exactly for filters with a match that is not JSON; otherwise the
      text is empty exactly for filters that demand nothing, and those bind nothing. */
  lemma {:induction false} CompileShape(f: Filter, st: Binds, prefix: string)
    ensures Compile(f, st, prefix).1.Some? <==> WellFormed(f)
    ensures WellFormed(f) ==> (Compile(f, st, prefix).1.value == [] <==> Vacuous(f))
    ensures WellFormed(f) && Vacuous(f) ==> Compile(f, st, prefix).0 == st
    decreases f, 1
  {
    match f
    case Eq(_, _) =>
    case HasAny(key, ms) =>
      MembersShape(key, ms, st, prefix);
      var preds := CompileMembers(key, ms, st, prefix).1;
      if preds.Some? { JoinEmptyIff(preds.value, OR); }
    case AllOf(fs) =>
      CompileAllShape(fs, st, prefix);
      var preds := CompileAll(fs, st, prefix).1;
      if preds.Some? { JoinEmptyIff(preds.value, AND); }
    case AnyOf(fs) =>
      CompileAllShape(fs, st, prefix);
      var preds := CompileAll(fs, st, prefix).1;
      if preds.Some? { JoinEmptyIff(preds.value, OR); }
    case Unset =>
  }

  lemma {:induction false} MembersShape(key: string, ms: seq<JsonText>, st: Binds, prefix: string)
    ensures CompileMembers(key, ms, st, prefix).1.Some? <==> forall m <- ms :: m.Parsed?
    ensures var r := CompileMembers(key, ms, st, prefix);
            r.1.Some? ==> |r.1.value| == |ms| && (ms == [] ==> r.0 == st) && forall p <- r.1.value :: p != []
  {
    if ms != [] {
      var front, last := ms[..|ms| - 1], ms[|ms| - 1];
      MembersShape(key, front, st, prefix);
      FrontAndLast(ms);
    }
  }

  lemma {:induction false} CompileAllShape(fs: seq<Filter>, st: Binds, prefix: string)
    ensures CompileAll(fs, st, prefix).1.Some? <==> forall g <- fs :: WellFormed(g)
    ensures CompileAll(fs, st, prefix).1.Some? ==>
              var r := CompileAll(fs, st, prefix);
              && (r.1.value == [] <==> forall g <- fs :: Vacuous(g))
              && (r.1.value == [] ==> r.0 == st)
              && forall p <- r.1.value :: p != []
    decreases fs, 0
  {
    if fs != [] {
      var front, last := fs[..|fs| - 1], fs[|fs| - 1];
      CompileAllShape(front, st, prefix);
      CompileShape(last, CompileAll(front, st, prefix).0, prefix);
      FrontAndLast(fs);
    }
  }

  lemma FrontAndLast<T>(s: seq<T>)
    requires s != []
    ensures s[|s| - 1] in s && forall x: T :: x in s <==> x in s[..|s| - 1] || x == s[|s| - 1]
  {
    assert s == s[..|s| - 1] + [s[|s| - 1]];
  }

  lemma JoinEmptyIff(preds: seq<seq<Tok>>, sep: Tok)
    requires forall p <- preds :: p != []
    ensures Join(preds, sep) == [] <==> preds == []
  {
    if |preds| == 1 { assert preds[0] in preds; }
  }

  // ------------------------------------------------------------ parsing separated lists

  /** Wherever the text stands, it is read as one operand, and as `q`. */
  ghost predicate Parses(ts: seq<Tok>, q: Sql) {
    forall rest: seq<Tok> :: ParseAtom(ts + rest) == Got(q, rest)
  }

  function Conj(qs: seq<Sql>): Sql
    requires qs != []
  {
    if |qs| == 1 then qs[0] else Both(qs[0], Conj(qs[1..]))
  }

  function Disj(qs: seq<Sql>): Sql
    requires qs != []
  {
    if |qs| == 1 then qs[0] else Either(qs[0], Disj(qs[1..]))
  }

  predicate EndsOperands(rest: seq<Tok>) { rest == [] || rest[0].RP? }

  lemma AndStep(ts: seq<Tok>, q: Sql, more: seq<Tok>, q': Sql, rest: seq<Tok>)
    requires ParseAtom(ts) == Got(q, more) && more != [] && more[0].AND?
    requires ParseAnd(more[1..]) == Got(q', rest)
    ensures ParseAnd(ts) == Got(Both(q, q'), rest)
  {
  }

  lemma OrStep(ts: seq<Tok>, q: Sql, more: seq<Tok>, q': Sql, rest: seq<Tok>)
    requires ParseAtom(ts) == Got(q, more) && more != [] && more[0].OR?
    requires ParseOr(more[1..]) == Got(q', rest)
    ensures ParseOr(ts) == Got(Either(q, q'), rest)
  {
    assert ParseAnd(ts) == Got(q, more);
  }

  lemma LastOperand(ts: seq<Tok>, q: Sql, rest: seq<Tok>)
    requires ParseAtom(ts) == Got(q, rest) && EndsOperands(rest)
    ensures ParseAnd(ts) == Got(q, rest)
  {
  }

  lemma LastConjunction(ts: seq<Tok>, q: Sql, rest: seq<Tok>)
    requires ParseAnd(ts) == Got(q, rest) && EndsOperands(rest)
    ensures ParseOr(ts) == Got(q, rest)
  {
  }

  lemma SeparatedSplits(preds: seq<seq<Tok>>, sep: Tok, rest: seq<Tok>) returns (more: seq<Tok>)
    requires |preds| > 1
    ensures more != [] && more[0] == sep && more[1..] == Separated(preds[1..], sep) + rest
    ensures Separated(preds, sep) + rest == preds[0] + more
  {
    more := [sep] + (Separated(preds[1..], sep) + rest);
  }

  lemma {:induction false} AndListParses(preds: seq<seq<Tok>>, qs: seq<Sql>, rest: seq<Tok>)
    requires |preds| == |qs| > 0 && EndsOperands(rest)
    requires forall i | 0 <= i < |qs| :: Parses(preds[i], qs[i])
    ensures ParseAnd(Separated(preds, AND) + rest) == Got(Conj(qs), rest)
  {
    assert Parses(preds[0], qs[0]);
    if |preds| > 1 {
      AndListParses(preds[1..], qs[1..], rest);
      var more := SeparatedSplits(preds, AND, rest);
      assert ParseAtom(preds[0] + more) == Got(qs[0], more);
      AndStep(preds[0] + more, qs[0], more, Conj(qs[1..]), rest);
    } else {
      assert ParseAtom(preds[0] + rest) == Got(qs[0], rest);
      LastOperand(preds[0] + rest, qs[0], rest);
    }
  }

  lemma {:induction false} OrListParses(preds: seq<seq<Tok>>, qs: seq<Sql>, rest: seq<Tok>)
    requires |preds| == |qs| > 0 && EndsOperands(rest)
    requires forall i | 0 <= i < |qs| :: Parses(preds[i], qs[i])
    ensures ParseOr(Separated(preds, OR) + rest) == Got(Disj(qs), rest)
  {
    assert Parses(preds[0], qs[0]);
    if |preds| > 1 {
      OrListParses(preds[1..], qs[1..], rest);
      var more := SeparatedSplits(preds, OR, rest);
      assert ParseAtom(preds[0] + more) == Got(qs[0], more);
      OrStep(preds[0] + more, qs[0], more, Disj(qs[1..]), rest);
    } else {
      assert ParseAtom(preds[0] + rest) == Got(qs[0], rest);
      LastOperand(preds[0] + rest, qs[0], rest);
      LastConjunction(preds[0] + rest, qs[0], rest);
    }
  }

  /** Text in parentheses is one operand. */
  lemma ParenthesesParse(inner: seq<Tok>, q: Sql)
    requires forall rest: seq<Tok> | EndsOperands(rest) :: ParseOr(inner + rest) == Got(q, rest)
    ensures Parses([LP] + inner + [RP], q)
  {
    forall rest: seq<Tok>
      ensures ParseAtom([LP] + inner + [RP] + rest) == Got(q, rest)
    {
      var ts := [LP] + inner + [RP] + rest;
      var after := [RP] + rest;
      assert ts[1..] == inner + after;
      assert EndsOperands(after);
      assert after[1..] == rest;
    }
  }

  lemma AndParenthesesParse(preds: seq<seq<Tok>>, qs: seq<Sql>)
    requires |preds| == |qs| > 0
    requires forall i | 0 <= i < |qs| :: Parses(preds[i], qs[i])
    ensures Parses([LP] + Separated(preds, AND) + [RP], Conj(qs))
  {
    forall rest: seq<Tok> | EndsOperands(rest)
      ensures ParseOr(Separated(preds, AND) + rest) == Got(Conj(qs), rest)
    {
      AndListParses(preds, qs, rest);
      LastConjunction(Separated(preds, AND) + rest, Conj(qs), rest);
    }
    ParenthesesParse(Separated(preds, AND), Conj(qs));
  }

  lemma JoinParses(preds: seq<seq<Tok>>, qs: seq<Sql>, sep: Tok)
    requires |preds| == |qs| > 0 && (sep.AND? || sep.OR?)
    requires forall i | 0 <= i < |qs| :: Parses(preds[i], qs[i])
    ensures Parses(Join(preds, sep), if sep.AND? then Conj(qs) else Disj(qs))
  {
    if |preds| == 1 {
      assert Parses(preds[0], qs[0]);
    } else if sep.AND? {
      AndParenthesesParse(preds, qs);
    } else {
      forall rest: seq<Tok> | EndsOperands(rest)
        ensures ParseOr(Separated(preds, OR) + rest) == Got(Disj(qs), rest)
      {
        OrListParses(preds, qs, rest);
      }
      ParenthesesParse(Separated(preds, OR), Disj(qs));
    }
  }

  // ------------------------------------------------------------ evaluating lists

  predicate AllHold(qs: seq<Sql>, params: map<string, Json>, meta: Json) {
    forall q <- qs :: Eval(q, params, meta)
  }

  predicate AnyHolds(qs: seq<Sql>, params: map<string, Json>, meta: Json) {
    exists q <- qs :: Eval(q, params, meta)
  }

  predicate AllAccept(fs: seq<Filter>, meta: Json)
    requires forall g <- fs :: WellFormed(g)
  {
    forall g <- fs | !Vacuous(g) :: Accepts(g, meta)
  }

  predicate AnyAccepts(fs: seq<Filter>, meta: Json)
    requires forall g <- fs :: WellFormed(g)
  {
    exists g <- fs | !Vacuous(g) :: Accepts(g, meta)
  }

  predicate AnyMember(key: string, ms: seq<JsonText>, meta: Json)
    requires forall m <- ms :: m.Parsed?
  {
    exists m <- ms :: MemberAt(meta, key, m.v)
  }

  predicate ListBound(qs: seq<Sql>, params: map<string, Json>) {
    forall q <- qs :: AllBound(q, params)
  }

  lemma {:induction false} ConjEval(qs: seq<Sql>, params: map<string, Json>, meta: Json)
    requires qs != []
    ensures Eval(Conj(qs), params, meta) <==> AllHold(qs, params, meta)
    ensures ListBound(qs, params) ==> AllBound(Conj(qs), params)
  {
    if |qs| > 1 {
      ConjEval(qs[1..], params, meta);
      assert qs == [qs[0]] + qs[1..];
    }
  }

  lemma {:induction false} DisjEval(qs: seq<Sql>, params: map<string, Json>, meta: Json)
    requires qs != []
    ensures Eval(Disj(qs), params, meta) <==> AnyHolds(qs, params, meta)
    ensures ListBound(qs, params) ==> AllBound(Disj(qs), params)
  {
    if |qs| > 1 {
      DisjEval(qs[1..], params, meta);
      assert qs == [qs[0]] + qs[1..];
    }
  }

  lemma {:induction false} EvalKeeps(q: Sql, a: map<string, Json>, b: map<string, Json>)
    requires AllBound(q, a) && Keeps(a, b)
    ensures AllBound(q, b) && forall meta :: Eval(q, a, meta) <==> Eval(q, b, meta)
  {
    match q
    case Atom(_) =>
    case Both(l, r) => EvalKeeps(l, a, b); EvalKeeps(r, a, b);
    case Either(l, r) => EvalKeeps(l, a, b); EvalKeeps(r, a, b);
  }

  /** Adding one operand, whose evaluation binds more parameters. */
  lemma ExtendEval(qs: seq<Sql>, q: Sql, a: map<string, Json>, b: map<string, Json>, meta: Json)
    requires ListBound(qs, a) && AllBound(q, b) && Keeps(a, b)
    ensures ListBound(qs + [q], b)
    ensures AllHold(qs + [q], b, meta) <==> AllHold(qs, a, meta) && Eval(q, b, meta)
    ensures AnyHolds(qs + [q], b, meta) <==> AnyHolds(qs, a, meta) || Eval(q, b, meta)
  {
    forall q' | q' in qs
      ensures AllBound(q', b) && (Eval(q', a, meta) <==> Eval(q', b, meta))
    {
      EvalKeeps(q', a, b);
    }
    assert q in qs + [q];
    assert forall q' | q' in qs :: q' in qs + [q];
  }

  lemma ExtendAccepts(front: seq<Filter>, last: Filter, meta: Json)
    requires WellFormed(last) && forall g <- front :: WellFormed(g)
    ensures forall g <- front + [last] :: WellFormed(g)
    ensures AllAccept(front + [last], meta) <==> AllAccept(front, meta) && (Vacuous(last) || Accepts(last, meta))
    ensures AnyAccepts(front + [last], meta) <==> AnyAccepts(front, meta) || (!Vacuous(last) && Accepts(last, meta))
  {
    assert last in front + [last];
    assert forall g | g in front :: g in front + [last];
  }

  // ------------------------------------------------------------ the compiler is faithful

  lemma TestParses(name: string)
    ensures Parses([Test(name)], Atom(name))
  {
    forall rest: seq<Tok>
      ensures ParseAtom([Test(name)] + rest) == Got(Atom(name), rest)
    {
      assert ([Test(name)] + rest)[1..] == rest;
    }
  }

  ghost predicate Faithful(ts: seq<Tok>, q: Sql, params: map<string, Json>, f: Filter)
    requires WellFormed(f)
  {
    Parses(ts, q) && AllBound(q, params) && forall meta :: Eval(q, params, meta) <==> Accepts(f, meta)
  }

  /** The texts in `r`, read as `qs`, stand for the filters `fs` that demand something. */
  ghost predicate FaithfulList(r: (Binds, Option<seq<seq<Tok>>>), qs: seq<Sql>, fs: seq<Filter>)
    requires forall g <- fs :: WellFormed(g)
  {
    && r.1.Some? && |qs| == |r.1.value|
    && (forall i | 0 <= i < |qs| :: Parses(r.1.value[i], qs[i]))
    && ListBound(qs, r.0.params)
    && forall meta :: (AllHold(qs, r.0.params, meta) <==> AllAccept(fs, meta))
                      && (AnyHolds(qs, r.0.params, meta) <==> AnyAccepts(fs, meta))
  }

  lemma {:induction false} CompileFaithful(f: Filter, st: Binds, prefix: string) returns (q: Sql)
    requires WellFormed(f) && !Vacuous(f)
    ensures Compile(f, st, prefix).1.Some?
    ensures Faithful(Compile(f, st, prefix).1.value, q, Compile(f, st, prefix).0.params, f)
    decreases f, 1
  {
    CompileShape(f, st, prefix);
    match f
    case Eq(key, m) =>
      q := Atom(BoundName(st, prefix));
      TestParses(q.name);
      forall meta ensures Eval(q, Compile(f, st, prefix).0.params, meta) <==> Accepts(f, meta) {
        EqContainment(meta, key, m.v);
      }
    case HasAny(key, ms) =>
      q := HasAnyFaithful(key, ms, st, prefix);
    case AllOf(fs) =>
      CompileAllShape(fs, st, prefix);
      var qs := CompileAllFaithful(fs, st, prefix);
      var r := CompileAll(fs, st, prefix);
      q := Conj(qs);
      JoinParses(r.1.value, qs, AND);
      forall meta ensures Eval(q, r.0.params, meta) <==> Accepts(f, meta) { ConjEval(qs, r.0.params, meta); }
      ConjEval(qs, r.0.params, JNull);
    case AnyOf(fs) =>
      CompileAllShape(fs, st, prefix);
      var qs := CompileAllFaithful(fs, st, prefix);
      var r := CompileAll(fs, st, prefix);
      q := Disj(qs);
      JoinParses(r.1.value, qs, OR);
      forall meta ensures Eval(q, r.0.params, meta) <==> Accepts(f, meta) { DisjEval(qs, r.0.params, meta); }
      DisjEval(qs, r.0.params, JNull);
  }

  lemma HasAnyFaithful(key: string, ms: seq<JsonText>, st: Binds, prefix: string) returns (q: Sql)
    requires ms != [] && forall m <- ms :: m.Parsed?
    ensures var r := Compile(HasAny(key, ms), st, prefix);
            r.1.Some? && Faithful(r.1.value, q, r.0.params, HasAny(key, ms))
  {
    MembersShape(key, ms, st, prefix);
    var qs := MembersFaithful(key, ms, st, prefix);
    var r := CompileMembers(key, ms, st, prefix);
    q := Disj(qs);
    JoinParses(r.1.value, qs, OR);
    forall meta ensures Eval(q, r.0.params, meta) <==> Accepts(HasAny(key, ms), meta) {
      DisjEval(qs, r.0.params, meta);
      assert AnyHolds(qs, r.0.params, meta) <==> AnyMember(key, ms, meta);
    }
    DisjEval(qs, r.0.params, JNull);
  }

  lemma {:induction false} MembersFaithful(key: string, ms: seq<JsonText>, st: Binds, prefix: string)
    returns (qs: seq<Sql>)
    requires forall m <- ms :: m.Parsed?
    ensures var r := CompileMembers(key, ms, st, prefix);
            && r.1.Some? && |qs| == |r.1.value| == |ms|
            && (forall i | 0 <= i < |qs| :: Parses(r.1.value[i], qs[i]))
            && ListBound(qs, r.0.params)
            && (forall meta :: AnyHolds(qs, r.0.params, meta) <==> AnyMember(key, ms, meta))
  {
    if ms == [] {
      qs := [];
    } else {
      var front, last := ms[..|ms| - 1], ms[|ms| - 1];
      FrontAndLast(ms);
      var qs' := MembersFaithful(key, front, st, prefix);
      var r', r := CompileMembers(key, front, st, prefix), CompileMembers(key, ms, st, prefix);
      var q := Atom(BoundName(r'.0, prefix));
      TestParses(q.name);
      qs := qs' + [q];
      assert Keeps(r'.0.params, r.0.params);
      forall meta
        ensures AnyHolds(qs, r.0.params, meta) <==> AnyMember(key, ms, meta)
      {
        MemberContainment(meta, key, last.v);
        ExtendEval(qs', q, r'.0.params, r.0.params, meta);
        assert AnyHolds(qs', r'.0.params, meta) <==> AnyMember(key, front, meta);
      }
      ExtendEval(qs', q, r'.0.params, r.0.params, JNull);
    }
  }

  lemma {:induction false} CompileAllFaithful(fs: seq<Filter>, st: Binds, prefix: string) returns (qs: seq<Sql>)
    requires forall g <- fs :: WellFormed(g)
    ensures FaithfulList(CompileAll(fs, st, prefix), qs, fs)
    decreases fs, 0
  {
    if fs == [] {
      qs := [];
    } else {
      var front, last := fs[..|fs| - 1], fs[|fs| - 1];
      assert fs == front + [last];
      var qs' := CompileAllFaithful(front, st, prefix);
      var r' := CompileAll(front, st, prefix);
      CompileShape(last, r'.0, prefix);
      if Vacuous(last) {
        qs := qs';
        assert CompileAll(fs, st, prefix) == r';
        forall meta { ExtendAccepts(front, last, meta); }
      } else {
        var q := CompileFaithful(last, r'.0, prefix);
        qs := qs' + [q];
        CompileKeeps(last, r'.0, prefix);
        ExtendFaithful(front, last, r', qs', q, Compile(last, r'.0, prefix).0, Compile(last, r'.0, prefix).1.value);
      }
    }
  }

  lemma ExtendFaithful(front: seq<Filter>, last: Filter, r: (Binds, Option<seq<seq<Tok>>>), qs: seq<Sql>,
                       q: Sql, st: Binds, p: seq<Tok>)
    requires WellFormed(last) && !Vacuous(last) && Keeps(r.0.params, st.params)
    requires forall g <- front :: WellFormed(g)
    requires FaithfulList(r, qs, front)
    requires Faithful(p, q, st.params, last)
    ensures forall g <- front + [last] :: WellFormed(g)
    ensures FaithfulList((st, Some(r.1.value + [p])), qs + [q], front + [last])
  {
    forall meta
      ensures AllHold(qs + [q], st.params, meta) <==> AllAccept(front + [last], meta)
      ensures AnyHolds(qs + [q], st.params, meta) <==> AnyAccepts(front + [last], meta)
    {
      ExtendEval(qs, q, r.0.params, st.params, meta);
      ExtendAccepts(front, last, meta);
      assert AllHold(qs, r.0.params, meta) <==> AllAccept(front, meta);
    }
    ExtendEval(qs, q, r.0.params, st.params, JNull);
  }

  // ------------------------------------------------------------ filters_clause

  /** The clause raises exactly when some match is not JSON, is empty exactly when no filter
      demands anything, and never loses or changes a binding of the query. */
  lemma ClauseShape(fs: seq<Filter>, params: map<string, Json>, prefix: string)
    ensures var (params', ts) := FiltersClause(fs, params, prefix);
            && Keeps(params, params')
            && (ts.Some? <==> forall f <- fs :: WellFormed(f))
            && (ts.Some? ==> (ts.value == [] <==> forall f <- fs :: Vacuous(f)))
            && (ts == Some([]) ==> params' == params)
  {
    CompileAllKeeps(fs, Binds(params, 0), prefix);
    CompileAllShape(fs, Binds(params, 0), prefix);
  }

  /** A clause that is not empty is read by SQL as a single operand whose placeholders are
      all bound and which holds of a metadata object exactly when every filter accepts it. */
  lemma ClauseFaithful(fs: seq<Filter>, params: map<string, Json>, prefix: string) returns (q: Sql)
    requires (forall f <- fs :: WellFormed(f)) && !(forall f <- fs :: Vacuous(f))
    ensures var (params', ts) := FiltersClause(fs, params, prefix);
            && ts.Some? && Parses(ts.value, q)
            && ParseOr(ts.value) == Got(q, [])
            && AllBound(q, params')
            && forall meta :: Eval(q, params', meta) <==> AllAccept(fs, meta)
  {
    var st := Binds(params, 0);
    CompileAllShape(fs, st, prefix);
    var qs := CompileAllFaithful(fs, st, prefix);
    var r := CompileAll(fs, st, prefix);
    q := Conj(qs);
    AndParenthesesParse(r.1.value, qs);
    forall meta ensures Eval(q, r.0.params, meta) <==> AllAccept(fs, meta) { ConjEval(qs, r.0.params, meta); }
    ConjEval(qs, r.0.params, JNull);
    var ts := [LP] + Separated(r.1.value, AND) + [RP];
    assert ParseAtom(ts + []) == Got(q, []) && ts + [] == ts;
  }

  lemma AndTail(before: seq<Tok>, ts: seq<Tok>, rest: seq<Tok>)
    ensures var more := [AND] + (ts + rest);
            before + [AND] + ts + rest == before + more && more[0] == AND && more[1..] == ts + rest
  {
  }

  /** Put behind another condition with AND, as `thread_owner_clause` and the servicers do,
      the clause keeps its meaning. */
  lemma ClauseAfterAnd(before: seq<Tok>, q0: Sql, ts: seq<Tok>, q: Sql, rest: seq<Tok>)
    requires Parses(before, q0) && Parses(ts, q) && EndsOperands(rest)
    ensures ParseOr(before + [AND] + ts + rest) == Got(Both(q0, q), rest)
  {
    AndTail(before, ts, rest);
    var more := [AND] + (ts + rest);
    assert ParseAtom(before + more) == Got(q0, more);
    assert ParseAtom(ts + rest) == Got(q, rest);
    LastOperand(ts + rest, q, rest);
    AndStep(before + more, q0, more, q, rest);
    LastConjunction(before + more, Both(q0, q), rest);
  }
}
