/**
  The translation of auth filters into SQL of `backend/server/core_server/_filters.py`.

  Predicate text is a sequence of tokens; `Test(name)` stands for `column @> %(name)s`.
  Raising on a match that is not JSON is a result of its own (`None`).
 */
module AuthFilters {
  import opened Wrappers
  import opened Jsonb
  import opened Decimal

  datatype JsonText = Parsed(v: Json) | Malformed

  datatype Filter =
    | Eq(key: string, wanted: JsonText)
    | HasAny(key: string, matches: seq<JsonText>)
    | AllOf(subs: seq<Filter>)
    | AnyOf(subs: seq<Filter>)
    | Unset

  datatype Tok = LP | RP | AND | OR | Test(name: string)

  // ------------------------------------------------------------ what a filter means

  predicate WellFormed(f: Filter) {
    match f
    case Eq(_, m) => m.Parsed?
    case HasAny(_, ms) => forall m <- ms :: m.Parsed?
    case AllOf(fs) => forall g <- fs :: WellFormed(g)
    case AnyOf(fs) => forall g <- fs :: WellFormed(g)
    case Unset => true
  }

  /** A filter that demands nothing and contributes no text. */
  predicate Vacuous(f: Filter) {
    match f
    case Eq(_, _) => false
    case HasAny(_, ms) => ms == []
    case AllOf(fs) => forall g <- fs :: Vacuous(g)
    case AnyOf(fs) => forall g <- fs :: Vacuous(g)
    case Unset => true
  }

  /** The value at `key` is `v`; for a structured `v`, it contains `v`. */
  predicate EqualsAt(meta: Json, key: string, v: Json) {
    meta.JObj? && key in meta.fields
    && if Scalar(v) then meta.fields[key] == v else Deep(meta.fields[key], v)
  }

  /** `v` is a member of the array at `key`; for a structured `v`, some member contains it. */
  predicate MemberAt(meta: Json, key: string, v: Json) {
    meta.JObj? && key in meta.fields && meta.fields[key].JArr?
    && if Scalar(v) then v in meta.fields[key].items else exists u <- meta.fields[key].items :: Deep(u, v)
  }

  /** Whether `meta` satisfies the filter, for filters that demand something. */
  predicate Accepts(f: Filter, meta: Json)
    requires WellFormed(f)
  {
    match f
    case Eq(key, m) => EqualsAt(meta, key, m.v)
    case HasAny(key, ms) => exists m <- ms :: MemberAt(meta, key, m.v)
    case AllOf(fs) => forall g <- fs | !Vacuous(g) :: Accepts(g, meta)
    case AnyOf(fs) => exists g <- fs | !Vacuous(g) :: Accepts(g, meta)
    case Unset => true
  }

  // ------------------------------------------------------------ binding parameters

  datatype Binds = Binds(params: map<string, Json>, n: nat)

  function Name(prefix: string, n: nat): string { prefix + Show(n) }

  ghost predicate Indexed(k: string, prefix: string, from: nat) {
    exists m: nat :: m >= from && k == Name(prefix, m)
  }

  /** The bound names that the search could still meet. */
  ghost function Ahead(params: map<string, Json>, prefix: string, from: nat): set<string> {
    set k | k in params.Keys && Indexed(k, prefix, from)
  }

  lemma AheadShrinks(params: map<string, Json>, prefix: string, n: nat)
    requires Name(prefix, n) in params
    ensures Ahead(params, prefix, n + 1) < Ahead(params, prefix, n)
  {
    var k := Name(prefix, n);
    assert Indexed(k, prefix, n);
    assert k in Ahead(params, prefix, n);
    if Indexed(k, prefix, n + 1) {
      var m: nat :| m >= n + 1 && k == Name(prefix, m);
      assert k[|prefix|..] == Show(m) && k[|prefix|..] == Show(n);
      ShowInjective(m, n);
    }
    forall x | x in Ahead(params, prefix, n + 1)
      ensures x in Ahead(params, prefix, n)
    {
      var m: nat :| m >= n + 1 && x == Name(prefix, m);
      assert Indexed(x, prefix, n);
    }
  }

  /** The first free index at or after `n`. */
  function FreeIndex(params: map<string, Json>, prefix: string, n: nat): (m: nat)
    ensures m >= n && Name(prefix, m) !in params
    decreases Ahead(params, prefix, n)
  {
    if Name(prefix, n) in params then
      (AheadShrinks(params, prefix, n); FreeIndex(params, prefix, n + 1))
    else n
  }

  function BoundName(st: Binds, prefix: string): string {
    Name(prefix, FreeIndex(st.params, prefix, st.n))
  }

  function Bind(st: Binds, prefix: string, v: Json): Binds {
    var m := FreeIndex(st.params, prefix, st.n);
    Binds(st.params[Name(prefix, m) := v], m + 1)
  }

  /** Nothing bound in `a` is lost or changed in `b`. */
  predicate Keeps(a: map<string, Json>, b: map<string, Json>) {
    forall k <- a :: k in b && b[k] == a[k]
  }

  // ------------------------------------------------------------ the compiler

  function Separated(preds: seq<seq<Tok>>, sep: Tok): seq<Tok> {
    if preds == [] then []
    else if |preds| == 1 then preds[0]
    else preds[0] + [sep] + Separated(preds[1..], sep)
  }

  /** `_join` */
  function Join(preds: seq<seq<Tok>>, sep: Tok): seq<Tok> {
    if preds == [] then []
    else if |preds| == 1 then preds[0]
    else [LP] + Separated(preds, sep) + [RP]
  }

  function JoinAll(preds: Option<seq<seq<Tok>>>, sep: Tok): Option<seq<Tok>> {
    if preds.None? then None else Some(Join(preds.value, sep))
  }

  /** `_predicate` */
  function Compile(f: Filter, st: Binds, prefix: string): (Binds, Option<seq<Tok>>)
    decreases f, 1
  {
    match f
    case Eq(key, m) =>
      if m.Malformed? then (st, None)
      else (Bind(st, prefix, JObj(map[key := m.v])), Some([Test(BoundName(st, prefix))]))
    case HasAny(key, ms) =>
      var (st', preds) := CompileMembers(key, ms, st, prefix);
      (st', JoinAll(preds, OR))
    case AllOf(fs) =>
      var (st', preds) := CompileAll(fs, st, prefix);
      (st', JoinAll(preds, AND))
    case AnyOf(fs) =>
      var (st', preds) := CompileAll(fs, st, prefix);
      (st', JoinAll(preds, OR))
    case Unset => (st, Some([]))
  }

  /** The loop of `_predicate` over the matches of a `contains` filter. */
  function CompileMembers(key: string, ms: seq<JsonText>, st: Binds, prefix: string): (Binds, Option<seq<seq<Tok>>>) {
    if ms == [] then (st, Some([]))
    else
      var (st', preds) := CompileMembers(key, ms[..|ms| - 1], st, prefix);
      var m := ms[|ms| - 1];
      if preds.None? || m.Malformed? then (st', None)
      else (Bind(st', prefix, JObj(map[key := JArr([m.v])])), Some(preds.value + [[Test(BoundName(st', prefix))]]))
  }

  /** The comprehensions of `_predicate` and `filters_clause`: empty texts are dropped. */
  function CompileAll(fs: seq<Filter>, st: Binds, prefix: string): (Binds, Option<seq<seq<Tok>>>)
    decreases fs, 0
  {
    if fs == [] then (st, Some([]))
    else
      var (st', preds) := CompileAll(fs[..|fs| - 1], st, prefix);
      if preds.None? then (st', None)
      else
        var (st'', p) := Compile(fs[|fs| - 1], st', prefix);
        if p.None? then (st'', None)
        else (st'', Some(if p.value == [] then preds.value else preds.value + [p.value]))
  }

  /** `filters_clause` */
  function FiltersClause(fs: seq<Filter>, params: map<string, Json>, prefix: string)
    : (map<string, Json>, Option<seq<Tok>>)
  {
    var (st, preds) := CompileAll(fs, Binds(params, 0), prefix);
    (st.params,
     if preds.None? then None
     else if preds.value == [] then Some([])
     else Some([LP] + Separated(preds.value, AND) + [RP]))
  }

  // ------------------------------------------------------------ reading the text as SQL

  datatype Sql = Atom(name: string) | Both(l: Sql, r: Sql) | Either(l: Sql, r: Sql)

  datatype Parse = Fail | Got(ast: Sql, rest: seq<Tok>)

  /** SQL conditions: AND binds tighter than OR. */
  function ParseOr(ts: seq<Tok>): (p: Parse)
    ensures p.Got? ==> |p.rest| < |ts|
    decreases |ts|, 2
  {
    var a := ParseAnd(ts);
    if a.Fail? then Fail
    else if a.rest != [] && a.rest[0].OR? then
      var b := ParseOr(a.rest[1..]);
      if b.Fail? then Fail else Got(Either(a.ast, b.ast), b.rest)
    else a
  }

  function ParseAnd(ts: seq<Tok>): (p: Parse)
    ensures p.Got? ==> |p.rest| < |ts|
    decreases |ts|, 1
  {
    var a := ParseAtom(ts);
    if a.Fail? then Fail
    else if a.rest != [] && a.rest[0].AND? then
      var b := ParseAnd(a.rest[1..]);
      if b.Fail? then Fail else Got(Both(a.ast, b.ast), b.rest)
    else a
  }

  function ParseAtom(ts: seq<Tok>): (p: Parse)
    ensures p.Got? ==> |p.rest| < |ts|
    decreases |ts|, 0
  {
    if ts == [] then Fail
    else if ts[0].Test? then Got(Atom(ts[0].name), ts[1..])
    else if ts[0].LP? then
      var a := ParseOr(ts[1..]);
      if a.Fail? || a.rest == [] || !a.rest[0].RP? then Fail else Got(a.ast, a.rest[1..])
    else Fail
  }

  predicate Eval(q: Sql, params: map<string, Json>, meta: Json) {
    match q
    case Atom(name) => name in params && Contains(meta, params[name])
    case Both(l, r) => Eval(l, params, meta) && Eval(r, params, meta)
    case Either(l, r) => Eval(l, params, meta) || Eval(r, params, meta)
  }

  /** Every placeholder of the condition has a value. */
  predicate AllBound(q: Sql, params: map<string, Json>) {
    match q
    case Atom(name) => name in params
    case Both(l, r) => AllBound(l, params) && AllBound(r, params)
    case Either(l, r) => AllBound(l, params) && AllBound(r, params)
  }
}
