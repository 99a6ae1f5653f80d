/** `_BindState` and the recursion that binds parameters while it builds the text. */
module AuthFilterBuilder {
  import opened Wrappers
  import opened Jsonb
  import opened AuthFilters

  class BindState {
    var params: map<string, Json>
    const prefix: string
    var n: nat

    constructor (params: map<string, Json>, prefix: string)
      ensures this.params == params && this.prefix == prefix && n == 0
    {
      this.params, this.prefix, n := params, prefix, 0;
    }

    ghost function Abs(): Binds
      reads this
    {
      Binds(params, n)
    }

    /** Allocates a name that no binding of the query uses. */
    method BindValue(value: Json) returns (name: string)
      modifies this
      ensures name !in old(params) && params == old(params)[name := value]
      ensures name == BoundName(old(Abs()), prefix) && Abs() == Bind(old(Abs()), prefix, value)
    {
      name := Name(prefix, n);
      while name in params
        invariant params == old(params) && name == Name(prefix, n)
        invariant FreeIndex(params, prefix, n) == FreeIndex(params, prefix, old(n))
        decreases Ahead(params, prefix, n)
      {
        AheadShrinks(params, prefix, n);
        n := n + 1;
        name := Name(prefix, n);
      }
      params := params[name := value];
      n := n + 1;
    }

    /** `_predicate`; `None` is an exception raised by a match that is not JSON. */
    method BuildPredicate(f: Filter) returns (text: Option<seq<Tok>>)
      modifies this
      ensures (Abs(), text) == Compile(f, old(Abs()), prefix)
      decreases f, 1
    {
      match f {
        case Eq(key, m) =>
          if m.Malformed? {
            return None;
          }
          var name := BindValue(JObj(map[key := m.v]));
          text := Some([Test(name)]);
        case HasAny(key, ms) =>
          var preds := BuildMembers(key, ms);
          text := JoinAll(preds, OR);
        case AllOf(fs) =>
          var preds := BuildAll(fs);
          text := JoinAll(preds, AND);
        case AnyOf(fs) =>
          var preds := BuildAll(fs);
          text := JoinAll(preds, OR);
        case Unset =>
          text := Some([]);
      }
    }

    method BuildMembers(key: string, ms: seq<JsonText>) returns (preds: Option<seq<seq<Tok>>>)
      modifies this
      ensures (Abs(), preds) == CompileMembers(key, ms, old(Abs()), prefix)
    {
      var texts: seq<seq<Tok>> := [];
      for i := 0 to |ms|
        invariant (Abs(), Some(texts)) == CompileMembers(key, ms[..i], old(Abs()), prefix)
      {
        assert ms[..i + 1][..i] == ms[..i];
        if ms[i].Malformed? {
          MembersFailFrom(key, ms, i, old(Abs()));
          return None;
        }
        var name := BindValue(JObj(map[key := JArr([ms[i].v])]));
        texts := texts + [[Test(name)]];
      }
      assert ms[..|ms|] == ms;
      preds := Some(texts);
    }

    method BuildAll(fs: seq<Filter>) returns (preds: Option<seq<seq<Tok>>>)
      modifies this
      ensures (Abs(), preds) == CompileAll(fs, old(Abs()), prefix)
      decreases fs, 0
    {
      var texts: seq<seq<Tok>> := [];
      for i := 0 to |fs|
        invariant (Abs(), Some(texts)) == CompileAll(fs[..i], old(Abs()), prefix)
      {
        assert fs[..i + 1][..i] == fs[..i];
        var p := BuildPredicate(fs[i]);
        if p.None? {
          assert CompileAll(fs[..i + 1], old(Abs()), prefix) == (Abs(), None);
          AllFailFrom(fs, i, old(Abs()));
          return None;
        }
        if p.value != [] {
          texts := texts + [p.value];
        }
      }
      assert fs[..|fs|] == fs;
      preds := Some(texts);
    }

    /** An exception stops the loop: the rest of the list changes nothing. */
    lemma {:induction false} MembersFailFrom(key: string, ms: seq<JsonText>, i: nat, st: Binds)
      requires i < |ms| && CompileMembers(key, ms[..i + 1], st, prefix).1.None?
      ensures CompileMembers(key, ms, st, prefix) == CompileMembers(key, ms[..i + 1], st, prefix)
    {
      if i + 1 < |ms| {
        var front := ms[..|ms| - 1];
        assert front[..i + 1] == ms[..i + 1];
        MembersFailFrom(key, front, i, st);
      } else {
        assert ms[..i + 1] == ms;
      }
    }

    lemma {:induction false} AllFailFrom(fs: seq<Filter>, i: nat, st: Binds)
      requires i < |fs| && CompileAll(fs[..i + 1], st, prefix).1.None?
      ensures CompileAll(fs, st, prefix) == CompileAll(fs[..i + 1], st, prefix)
    {
      if i + 1 < |fs| {
        var front := fs[..|fs| - 1];
        assert front[..i + 1] == fs[..i + 1];
        AllFailFrom(front, i, st);
      } else {
        assert fs[..i + 1] == fs;
      }
    }
  }

  /** `filters_clause`: the query's parameters come back with the new bindings. */
  method BuildFiltersClause(fs: seq<Filter>, params: map<string, Json>, prefix: string)
    returns (params': map<string, Json>, text: Option<seq<Tok>>)
    ensures (params', text) == FiltersClause(fs, params, prefix)
  {
    var state := new BindState(params, prefix);
    var preds := state.BuildAll(fs);
    params' := state.params;
    if preds.None? {
      text := None;
    } else if preds.value == [] {
      text := Some([]);
    } else {
      text := Some([LP] + Separated(preds.value, AND) + [RP]);
    }
  }
}
