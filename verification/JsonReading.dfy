/** What a reader of `json_dumpb`'s output gets: the grammar of sections 2 to 6 of RFC 8259 over
    decoded strings, and the value that was dumped. */
module JsonReading {
  import opened JsonDump
  import opened JsonValues
  import opened Wrappers

  // ------------------------------------------------------------ the reader

  /** The characters of a number, `true`, `false` or `null` at the head. */
  function LiteralText(t: seq<Tok>): (text: seq<cp>)
    ensures |text| <= |t|
  {
    if t == [] || t[0].Str? || Punctuation(t[0].c) then [] else [t[0].c] + LiteralText(t[1..])
  }

  /** The value at the head, and the rest. */
  function ReadValue(t: seq<Tok>): (r: Option<(Value, seq<Tok>)>)
    ensures r.Some? ==> |r.value.1| < |t|
    decreases |t|, 0
  {
    if t == [] then None
    else if t[0].Str? then Some((Text(t[0].s), t[1..]))
    else if t[0].c == 0x5b then
      if |t| > 1 && t[1] == Raw(0x5d) then Some((List([]), t[2..]))
      else
        var items := ReadItems(t[1..]);
        if items.None? then None else Some((List(items.value.0), items.value.1))
    else if t[0].c == 0x7b then
      if |t| > 1 && t[1] == Raw(0x7d) then Some((Mapping([]), t[2..]))
      else
        var fields := ReadFields(t[1..]);
        if fields.None? then None else Some((Mapping(fields.value.0), fields.value.1))
    else
      var text := LiteralText(t);
      if text == [] then None else Some((Literal(text), t[|text|..]))
  }

  /** Values with commas between them, and the closing bracket. */
  function ReadItems(t: seq<Tok>): (r: Option<(seq<Value>, seq<Tok>)>)
    ensures r.Some? ==> |r.value.1| < |t|
    decreases |t|, 1
  {
    var first := ReadValue(t);
    if first.None? || first.value.1 == [] then None
    else
      var rest := first.value.1;
      if rest[0] == Raw(0x5d) then Some(([first.value.0], rest[1..]))
      else if rest[0] != COMMA then None
      else
        var more := ReadItems(rest[1..]);
        if more.None? then None else Some(([first.value.0] + more.value.0, more.value.1))
  }

  /** Names and values with commas between them, and the closing brace. */
  function ReadFields(t: seq<Tok>): (r: Option<(seq<Field>, seq<Tok>)>)
    ensures r.Some? ==> |r.value.1| < |t|
    decreases |t|, 1
  {
    if |t| < 2 || t[0].Raw? || t[1] != COLON then None
    else
      var first := ReadValue(t[2..]);
      if first.None? || first.value.1 == [] then None
      else
        var field, rest := Field(t[0].s, first.value.0), first.value.1;
        if rest[0] == Raw(0x7d) then Some(([field], rest[1..]))
        else if rest[0] != COMMA then None
        else
          var more := ReadFields(rest[1..]);
          if more.None? then None else Some(([field] + more.value.0, more.value.1))
  }

  /** A whole document. */
  function Read(t: seq<Tok>): Option<Value> {
    var r := ReadValue(t);
    if r.Some? && r.value.1 == [] then Some(r.value.0) else None
  }

  /** The text of a document, its strings decoded and its structure read. */
  function Load(text: seq<cp>): Option<Value> {
    var t := Decode(text);
    if t.None? then None else Read(t.value)
  }

  // ------------------------------------------------------------ reading the layout

  predicate PlainItems(items: seq<Value>) { forall i | 0 <= i < |items| :: PlainLiterals(items[i]) }

  predicate PlainFields(fields: seq<Field>) { forall i | 0 <= i < |fields| :: PlainLiterals(fields[i].value) }

  /** A literal ends here. */
  predicate Ends(rest: seq<Tok>) { rest == [] || rest[0].Str? || Punctuation(rest[0].c) }

  predicate NoPunctuation(text: seq<cp>) { forall i | 0 <= i < |text| :: !Punctuation(text[i]) }

  lemma {:induction false} RawsLength(text: seq<cp>)
    ensures |Raws(text)| == |text|
  {
    if text != [] { RawsLength(text[1..]); }
  }

  lemma {:induction false} RawsRead(text: seq<cp>, rest: seq<Tok>)
    requires NoPunctuation(text) && Ends(rest)
    ensures LiteralText(Raws(text) + rest) == text
  {
    if text == [] {
      assert Raws(text) + rest == rest;
    } else {
      var tail := text[1..];
      RawsRead(tail, rest);
      OneMoreLiteral(text[0], Raws(tail) + rest);
      assert Raws(text) + rest == [Raw(text[0])] + (Raws(tail) + rest);
      assert [text[0]] + tail == text;
    }
  }

  lemma OneMoreLiteral(c: cp, t: seq<Tok>)
    requires !Punctuation(c)
    ensures LiteralText([Raw(c)] + t) == [c] + LiteralText(t)
  {
    assert ([Raw(c)] + t)[1..] == t;
  }

  lemma LiteralRead(text: seq<cp>, rest: seq<Tok>)
    requires PlainText(text) && Ends(rest)
    ensures ReadValue(Raws(text) + rest) == Some((Literal(text), rest))
  {
    RawsRead(text, rest);
    RawsLength(text);
    var t := Raws(text) + rest;
    assert t[0] == Raw(text[0]) && text[0] in text;
    assert t[|text|..] == rest;
  }

  /** The first token of a value is neither a closing bracket nor a closing brace. */
  lemma FirstToken(v: Value)
    requires PlainLiterals(v)
    ensures Tokens(v) != [] && Tokens(v)[0] != Raw(0x5d) && Tokens(v)[0] != Raw(0x7d)
  {
    if v.Literal? { assert v.text[0] in v.text; }
  }

  /** The layout of a value is read back as the value. */
  lemma {:induction false} TokensRead(v: Value, rest: seq<Tok>)
    requires PlainLiterals(v) && Ends(rest)
    ensures ReadValue(Tokens(v) + rest) == Some((v, rest))
    decreases v, 1
  {
    match v
    case Literal(text) => LiteralRead(text, rest);
    case Text(_) =>
    case List(items) => ListRead(items, rest);
    case Mapping(fields) => MappingRead(fields, rest);
  }

  lemma ListRead(items: seq<Value>, rest: seq<Tok>)
    requires PlainItems(items)
    ensures ReadValue(Tokens(List(items)) + rest) == Some((List(items), rest))
    decreases items, 1
  {
    var t := Tokens(List(items)) + rest;
    if items == [] {
      assert t[2..] == rest;
    } else {
      ItemsRead(items, rest);
      FirstToken(items[0]);
      assert t[1..] == ItemTokens(items) + ([Raw(0x5d)] + rest);
      assert t[1] == ItemTokens(items)[0];
    }
  }

  lemma MappingRead(fields: seq<Field>, rest: seq<Tok>)
    requires PlainFields(fields)
    ensures ReadValue(Tokens(Mapping(fields)) + rest) == Some((Mapping(fields), rest))
    decreases fields, 1
  {
    var t := Tokens(Mapping(fields)) + rest;
    if fields == [] {
      assert t[2..] == rest;
    } else {
      FieldsRead(fields, rest);
      assert t[1..] == FieldTokens(fields) + ([Raw(0x7d)] + rest);
      assert t[1] == FieldTokens(fields)[0];
    }
  }

  lemma LastItemRead(t: seq<Tok>, last: Value, rest: seq<Tok>)
    requires ReadValue(t) == Some((last, [Raw(0x5d)] + rest))
    ensures ReadItems(t) == Some(([last], rest))
  {
    assert ([Raw(0x5d)] + rest)[1..] == rest;
  }

  lemma NextItemRead(t: seq<Tok>, item: Value, more: seq<Tok>, items: seq<Value>, rest: seq<Tok>)
    requires ReadValue(t) == Some((item, [COMMA] + more)) && ReadItems(more) == Some((items, rest))
    ensures ReadItems(t) == Some(([item] + items, rest))
  {
    assert ([COMMA] + more)[1..] == more;
  }

  lemma FirstItemLayout(item: Value, rest: seq<Value>)
    ensures ItemTokens([item] + rest)
         == if rest == [] then Tokens(item) else Tokens(item) + [COMMA] + ItemTokens(rest)
  {
    assert ([item] + rest)[1..] == rest;
  }

  lemma Regroup(a: seq<Tok>, b: seq<Tok>, c: seq<Tok>, d: seq<Tok>)
    ensures a + b + c + d == a + (b + (c + d))
  {
  }

  lemma {:induction false} ItemsRead(items: seq<Value>, rest: seq<Tok>)
    requires items != [] && PlainItems(items)
    ensures ReadItems(ItemTokens(items) + ([Raw(0x5d)] + rest)) == Some((items, rest))
    decreases items, 0
  {
    var end := [Raw(0x5d)] + rest;
    var item, others := items[0], items[1..];
    assert items == [item] + others;
    FirstItemLayout(item, others);
    if others == [] {
      TokensRead(item, end);
      LastItemRead(Tokens(item) + end, item, rest);
      assert items == [item];
    } else {
      var more := ItemTokens(others) + end;
      TokensRead(item, [COMMA] + more);
      ItemsRead(others, rest);
      NextItemRead(Tokens(item) + ([COMMA] + more), item, more, others, rest);
      Regroup(Tokens(item), [COMMA], ItemTokens(others), end);
    }
  }

  lemma HeadRead(key: seq<cp>, t: seq<Tok>)
    ensures var u := [Str(key), COLON] + t;
            |u| >= 2 && u[0] == Str(key) && u[1] == COLON && u[2..] == t
  {
  }

  lemma LastFieldRead(key: seq<cp>, t: seq<Tok>, last: Value, rest: seq<Tok>)
    requires ReadValue(t) == Some((last, [Raw(0x7d)] + rest))
    ensures ReadFields([Str(key), COLON] + t) == Some(([Field(key, last)], rest))
  {
    HeadRead(key, t);
    assert ([Raw(0x7d)] + rest)[1..] == rest;
  }

  lemma NextFieldRead(f: Field, t: seq<Tok>, more: seq<Tok>, fields: seq<Field>, rest: seq<Tok>)
    requires ReadValue(t) == Some((f.value, [COMMA] + more)) && ReadFields(more) == Some((fields, rest))
    ensures ReadFields([Str(f.key), COLON] + t) == Some(([f] + fields, rest))
  {
    HeadRead(f.key, t);
    assert ([COMMA] + more)[1..] == more;
  }

  function FieldHead(f: Field): seq<Tok> { [Str(f.key), COLON] + Tokens(f.value) }

  lemma FirstFieldLayout(f: Field, rest: seq<Field>)
    ensures FieldTokens([f] + rest)
         == if rest == [] then FieldHead(f) else FieldHead(f) + [COMMA] + FieldTokens(rest)
  {
    assert ([f] + rest)[1..] == rest;
  }

  lemma {:induction false} FieldsRead(fields: seq<Field>, rest: seq<Tok>)
    requires fields != [] && PlainFields(fields)
    ensures ReadFields(FieldTokens(fields) + ([Raw(0x7d)] + rest)) == Some((fields, rest))
    decreases fields, 0
  {
    var end := [Raw(0x7d)] + rest;
    var f, others := fields[0], fields[1..];
    assert fields == [f] + others;
    FirstFieldLayout(f, others);
    if others == [] {
      TokensRead(f.value, end);
      LastFieldRead(f.key, Tokens(f.value) + end, f.value, rest);
      HeadFirst(f, end);
      assert fields == [f];
    } else {
      var more := FieldTokens(others) + end;
      TokensRead(f.value, [COMMA] + more);
      FieldsRead(others, rest);
      NextFieldRead(f, Tokens(f.value) + ([COMMA] + more), more, others, rest);
      HeadFirst(f, [COMMA] + more);
      Regroup(FieldHead(f), [COMMA], FieldTokens(others), end);
    }
  }

  lemma HeadFirst(f: Field, t: seq<Tok>)
    ensures FieldHead(f) + t == [Str(f.key), COLON] + (Tokens(f.value) + t)
  {
  }

  // ------------------------------------------------------------ reading what was dumped

  /** The value with every string in normal form. */
  function NormalValue(v: Value): Value
    decreases v, 1
  {
    match v
    case Literal(_) => v
    case Text(s) => Text(Normal(s))
    case List(items) => List(NormalItems(items))
    case Mapping(fields) => Mapping(NormalFields(fields))
  }

  function NormalItems(items: seq<Value>): seq<Value>
    decreases items, 0
  {
    if items == [] then [] else [NormalValue(items[0])] + NormalItems(items[1..])
  }

  function NormalFields(fields: seq<Field>): seq<Field>
    decreases fields, 0
  {
    if fields == [] then []
    else [Field(Normal(fields[0].key), NormalValue(fields[0].value))] + NormalFields(fields[1..])
  }

  lemma {:induction false} NormalAppend(a: seq<Tok>, b: seq<Tok>)
    ensures NormalToks(a + b) == NormalToks(a) + NormalToks(b)
  {
    if a == [] {
      assert a + b == b;
    } else {
      assert (a + b)[1..] == a[1..] + b;
      NormalAppend(a[1..], b);
    }
  }

  lemma {:induction false} NormalRaws(text: seq<cp>)
    ensures NormalToks(Raws(text)) == Raws(text)
  {
    if text != [] { NormalRaws(text[1..]); }
  }

  lemma NormalOne(t: Tok)
    ensures NormalToks([t]) == [if t.Raw? then t else Str(Normal(t.s))]
  {
    assert [t][1..] == [];
  }

  /** A value between two brackets or braces. */
  lemma NormalBetween(open: cp, a: seq<Tok>, close: cp)
    ensures NormalToks([Raw(open)] + a + [Raw(close)]) == [Raw(open)] + NormalToks(a) + [Raw(close)]
  {
    NormalAppend([Raw(open)] + a, [Raw(close)]);
    NormalAppend([Raw(open)], a);
    NormalOne(Raw(open));
    NormalOne(Raw(close));
  }

  lemma NormalWithComma(a: seq<Tok>, b: seq<Tok>)
    ensures NormalToks(a + [COMMA] + b) == NormalToks(a) + [COMMA] + NormalToks(b)
  {
    NormalAppend(a + [COMMA], b);
    NormalAppend(a, [COMMA]);
    NormalOne(COMMA);
  }

  lemma NormalHead(key: seq<cp>, a: seq<Tok>)
    ensures NormalToks([Str(key), COLON] + a) == [Str(Normal(key)), COLON] + NormalToks(a)
  {
    NormalAppend([Str(key), COLON], a);
    NormalAppend([Str(key)], [COLON]);
    NormalOne(Str(key));
    NormalOne(COLON);
    assert [Str(key)] + [COLON] == [Str(key), COLON];
  }

  lemma {:induction false} NormalIsPlain(v: Value)
    ensures PlainLiterals(v) ==> PlainLiterals(NormalValue(v))
    decreases v, 1
  {
    match v
    case Literal(_) =>
    case Text(_) =>
    case List(items) => NormalItemsPlain(items);
    case Mapping(fields) => NormalFieldsPlain(fields);
  }

  lemma {:induction false} NormalItemsPlain(items: seq<Value>)
    ensures PlainItems(items) ==> PlainItems(NormalItems(items))
    decreases items, 0
  {
    if items != [] {
      NormalIsPlain(items[0]);
      NormalItemsPlain(items[1..]);
    }
  }

  lemma {:induction false} NormalFieldsPlain(fields: seq<Field>)
    ensures PlainFields(fields) ==> PlainFields(NormalFields(fields))
    decreases fields, 0
  {
    if fields != [] {
      NormalIsPlain(fields[0].value);
      NormalFieldsPlain(fields[1..]);
    }
  }

  /** Strings in normal form are the strings of the value in normal form. */
  lemma {:induction false} NormalLayout(v: Value)
    ensures NormalToks(Tokens(v)) == Tokens(NormalValue(v))
    decreases v, 1
  {
    match v
    case Literal(text) => NormalRaws(text);
    case Text(s) => NormalOne(Str(s));
    case List(items) =>
      NormalItemLayout(items);
      NormalBetween(0x5b, ItemTokens(items), 0x5d);
    case Mapping(fields) =>
      NormalFieldLayout(fields);
      NormalBetween(0x7b, FieldTokens(fields), 0x7d);
  }

  lemma {:induction false} NormalItemLayout(items: seq<Value>)
    ensures NormalToks(ItemTokens(items)) == ItemTokens(NormalItems(items))
    decreases items, 0
  {
    if items != [] {
      var item, rest := items[0], items[1..];
      NormalLayout(item);
      NormalItemLayout(rest);
      assert items == [item] + rest;
      FirstItemLayout(item, rest);
      FirstItemLayout(NormalValue(item), NormalItems(rest));
      if rest != [] { NormalWithComma(Tokens(item), ItemTokens(rest)); }
    }
  }

  lemma {:induction false} NormalFieldLayout(fields: seq<Field>)
    ensures NormalToks(FieldTokens(fields)) == FieldTokens(NormalFields(fields))
    decreases fields, 0
  {
    if fields != [] {
      var f, rest := fields[0], fields[1..];
      NormalFieldHead(f);
      NormalFieldLayout(rest);
      assert fields == [f] + rest;
      FirstFieldLayout(f, rest);
      FirstFieldLayout(Field(Normal(f.key), NormalValue(f.value)), NormalFields(rest));
      if rest != [] { NormalWithComma(FieldHead(f), FieldTokens(rest)); }
    }
  }

  lemma {:induction false} NormalFieldHead(f: Field)
    ensures NormalToks(FieldHead(f)) == FieldHead(Field(Normal(f.key), NormalValue(f.value)))
    decreases f, 2
  {
    NormalLayout(f.value);
    NormalHead(f.key, Tokens(f.value));
  }

  /** Loading the output gives the value itself, sanitised if it has surrogates, with every string
      in normal form. */
  lemma DumpLoads(v: Value)
    requires PlainLiterals(v)
    ensures Load(DumpValue(v)) == Some(NormalValue(Dumped(v)))
  {
    var w := Dumped(v);
    ValueDecodes(v);
    SanitisedIsGood(v);
    NormalLayout(w);
    NormalIsPlain(w);
    TokensRead(NormalValue(w), []);
    assert Tokens(NormalValue(w)) + [] == Tokens(NormalValue(w));
  }

  // ------------------------------------------------------------ when nothing changes

  /** Nothing in the text is replaced: no surrogate, no NUL, no spelled-out escape of one. */
  predicate Ordinary(s: seq<cp>) { NoSurrogates(s) && NUL !in s && !Occurs(s, NUL_ESCAPE) }

  predicate OrdinaryStrings(v: Value) {
    match v
    case Literal(_) => true
    case Text(s) => Ordinary(s)
    case List(items) => OrdinaryItems(items)
    case Mapping(fields) => OrdinaryFields(fields)
  }

  predicate OrdinaryItems(items: seq<Value>) { forall i | 0 <= i < |items| :: OrdinaryStrings(items[i]) }

  predicate OrdinaryFields(fields: seq<Field>) {
    forall i | 0 <= i < |fields| :: Ordinary(fields[i].key) && OrdinaryStrings(fields[i].value)
  }

  lemma {:induction false} NormalIsSameIff(s: seq<cp>)
    ensures Normal(s) == s <==> NUL !in s && !Occurs(s, NUL_ESCAPE)
  {
    if s != [] && s[0] != NUL {
      assert s == [s[0]] + s[1..];
      if NUL_ESCAPE <= s {
        assert Normal(s)[2] == 0x66 && s[2] == 0x30;
      } else {
        NormalIsSameIff(s[1..]);
      }
    }
  }

  lemma {:induction false} NormalAddsNoSurrogate(s: seq<cp>)
    ensures NoSurrogates(s) ==> NoSurrogates(Normal(s))
    decreases |s|
  {
    if s == [] {
    } else if s[0] != NUL && NUL_ESCAPE <= s {
      assert forall c <- s[6..] :: c in s;
      NormalAddsNoSurrogate(s[6..]);
    } else {
      assert s[0] in s && forall c <- s[1..] :: c in s;
      NormalAddsNoSurrogate(s[1..]);
    }
  }

  lemma {:induction false} NormalValueIff(v: Value)
    ensures Clean(v) ==> Clean(NormalValue(v)) && (NormalValue(v) == v <==> OrdinaryStrings(v))
    decreases v, 1
  {
    match v
    case Literal(_) =>
    case Text(s) =>
      NormalIsSameIff(s);
      NormalAddsNoSurrogate(s);
    case List(items) => NormalItemsIff(items);
    case Mapping(fields) => NormalFieldsIff(fields);
  }

  predicate CleanItems(items: seq<Value>) { forall i | 0 <= i < |items| :: Clean(items[i]) }

  predicate CleanFields(fields: seq<Field>) { forall i | 0 <= i < |fields| :: CleanField(fields[i]) }

  lemma {:induction false} NormalItemsIff(items: seq<Value>)
    ensures CleanItems(items)
        ==> CleanItems(NormalItems(items)) && (NormalItems(items) == items <==> OrdinaryItems(items))
    decreases items, 0
  {
    if items != [] && CleanItems(items) {
      var first, rest := items[0], items[1..];
      NormalValueIff(first);
      NormalItemsIff(rest);
      assert items == [first] + rest;
      assert OrdinaryItems(items) <==> OrdinaryStrings(first) && OrdinaryItems(rest);
    }
  }

  lemma {:induction false} NormalFieldsIff(fields: seq<Field>)
    ensures CleanFields(fields)
        ==> CleanFields(NormalFields(fields)) && (NormalFields(fields) == fields <==> OrdinaryFields(fields))
    decreases fields, 0
  {
    if fields != [] && CleanFields(fields) {
      var first, rest := fields[0], fields[1..];
      NormalIsSameIff(first.key);
      NormalAddsNoSurrogate(first.key);
      NormalValueIff(first.value);
      NormalFieldsIff(rest);
      assert fields == [first] + rest;
      assert OrdinaryFields(fields)
        <==> Ordinary(first.key) && OrdinaryStrings(first.value) && OrdinaryFields(rest);
    }
  }

  lemma {:induction false} OrdinaryIsClean(v: Value)
    requires OrdinaryStrings(v)
    ensures Clean(v)
    decreases v, 1
  {
    match v
    case Literal(_) =>
    case Text(_) =>
    case List(items) => OrdinaryItemsClean(items);
    case Mapping(fields) => OrdinaryFieldsClean(fields);
  }

  lemma {:induction false} OrdinaryItemsClean(items: seq<Value>)
    requires OrdinaryItems(items)
    ensures CleanItems(items)
    decreases items, 0
  {
    if items != [] {
      OrdinaryIsClean(items[0]);
      OrdinaryItemsClean(items[1..]);
      assert items == [items[0]] + items[1..];
    }
  }

  lemma {:induction false} OrdinaryFieldsClean(fields: seq<Field>)
    requires OrdinaryFields(fields)
    ensures CleanFields(fields)
    decreases fields, 0
  {
    if fields != [] {
      OrdinaryIsClean(fields[0].value);
      OrdinaryFieldsClean(fields[1..]);
      assert fields == [fields[0]] + fields[1..];
    }
  }

  /** Exactly when loading gives back what was dumped: no string has a surrogate, a NUL or the
      spelled-out escape of one. */
  lemma DumpIsExactIff(v: Value)
    requires PlainLiterals(v)
    ensures Load(DumpValue(v)) == Some(v) <==> OrdinaryStrings(v)
  {
    DumpLoads(v);
    AcceptedIsClean(v);
    SanitisedIsGood(v);
    NormalValueIff(Dumped(v));
    if OrdinaryStrings(v) { OrdinaryIsClean(v); }
  }

  /** With every key once, loading gives the sanitised value with its strings in normal form,
      whether or not there were surrogates. */
  lemma DumpLoadsSanitised(v: Value)
    requires PlainLiterals(v) && KeysOnce(v)
    ensures Load(DumpValue(v)) == Some(NormalValue(SanitiseValue(v)))
  {
    DumpLoads(v);
    DumpedIsSanitised(v);
  }
}
