/** `json_dumpb` of `backend/server/api/serde.py` on values: what `_sanitise` does to lists and
    mappings, where keys that become equal are one key. */
module JsonValues {
  import opened JsonDump
  import opened Wrappers

  /** A mapping keeps the order in which its keys were first inserted. */
  datatype Value = Literal(text: seq<cp>) | Text(s: seq<cp>) | List(items: seq<Value>) | Mapping(fields: seq<Field>)
  datatype Field = Field(key: seq<cp>, value: Value)

  const COMMA: Tok := Raw(0x2c)
  const COLON: Tok := Raw(0x3a)

  function Raws(text: seq<cp>): seq<Tok> {
    if text == [] then [] else [Raw(text[0])] + Raws(text[1..])
  }

  /** How orjson lays out a value, without spaces. */
  function Tokens(v: Value): seq<Tok>
    decreases v, 1
  {
    match v
    case Literal(text) => Raws(text)
    case Text(s) => [Str(s)]
    case List(items) => [Raw(0x5b)] + ItemTokens(items) + [Raw(0x5d)]
    case Mapping(fields) => [Raw(0x7b)] + FieldTokens(fields) + [Raw(0x7d)]
  }

  function ItemTokens(items: seq<Value>): seq<Tok>
    decreases items, 0
  {
    if items == [] then []
    else if |items| == 1 then Tokens(items[0])
    else Tokens(items[0]) + [COMMA] + ItemTokens(items[1..])
  }

  function FieldTokens(fields: seq<Field>): seq<Tok>
    decreases fields, 0
  {
    if fields == [] then []
    else
      var first := [Str(fields[0].key), COLON] + Tokens(fields[0].value);
      if |fields| == 1 then first else first + [COMMA] + FieldTokens(fields[1..])
  }

  /** Assignment to a key of a dict. */
  function PutField(fields: seq<Field>, f: Field): seq<Field> {
    if fields == [] then [f]
    else if fields[0].key == f.key then [f] + fields[1..]
    else [fields[0]] + PutField(fields[1..], f)
  }

  /** `_sanitise` */
  function SanitiseValue(v: Value): Value
    decreases v, 1
  {
    match v
    case Literal(_) => v
    case Text(s) => Text(ReplaceSurrogates(s))
    case List(items) => List(SanitiseItems(items))
    case Mapping(fields) => Mapping(SanitiseFields(fields))
  }

  function SanitiseItems(items: seq<Value>): (r: seq<Value>)
    ensures |r| == |items|
    decreases items, 0
  {
    if items == [] then [] else [SanitiseValue(items[0])] + SanitiseItems(items[1..])
  }

  /** The dict comprehension: of fields whose keys become equal the last value stays, in the
      place of the first. */
  function SanitiseFields(fields: seq<Field>): seq<Field>
    decreases fields, 0
  {
    if fields == [] then []
    else
      var n := |fields| - 1;
      PutField(SanitiseFields(fields[..n]), Field(ReplaceSurrogates(fields[n].key), SanitiseValue(fields[n].value)))
  }

  /** What is dumped when orjson rejects a surrogate in the value. */
  function Dumped(v: Value): Value {
    if Accepted(Tokens(v)) then v else SanitiseValue(v)
  }

  /** `json_dumpb` */
  function DumpValue(v: Value): seq<cp> { JsonDumpb(Tokens(Dumped(v))) }

  // ------------------------------------------------------------ the layout

  /** The brackets, braces, comma and colon. */
  predicate Punctuation(c: cp) { c in [0x5b, 0x5d, 0x7b, 0x7d, 0x2c, 0x3a] }

  predicate PlainText(text: seq<cp>) {
    text != [] && forall c <- text :: c != QUOTE && c != BACKSLASH && !Punctuation(c)
  }

  /** Numbers, `true`, `false` and `null` are texts without quotes, backslashes and punctuation. */
  predicate PlainLiterals(v: Value) {
    match v
    case Literal(text) => PlainText(text)
    case Text(_) => true
    case List(items) => forall i | 0 <= i < |items| :: PlainLiterals(items[i])
    case Mapping(fields) => forall i | 0 <= i < |fields| :: PlainLiterals(fields[i].value)
  }

  predicate NoSurrogates(s: seq<cp>) { forall c <- s :: !Surrogate(c) }

  predicate Clean(v: Value) {
    match v
    case Literal(_) => true
    case Text(s) => NoSurrogates(s)
    case List(items) => forall i | 0 <= i < |items| :: Clean(items[i])
    case Mapping(fields) => forall i | 0 <= i < |fields| :: NoSurrogates(fields[i].key) && Clean(fields[i].value)
  }

  lemma StructuralAppend(a: seq<Tok>, b: seq<Tok>)
    requires Structural(a) && Structural(b)
    ensures Structural(a + b)
  {
  }

  lemma AcceptedAppend(a: seq<Tok>, b: seq<Tok>)
    requires Accepted(a) && Accepted(b)
    ensures Accepted(a + b)
  {
  }

  lemma {:induction false} RawsStructural(text: seq<cp>)
    requires QUOTE !in text && BACKSLASH !in text
    ensures Structural(Raws(text))
  {
    if text != [] {
      assert text[0] in text && forall c <- text[1..] :: c in text;
      RawsStructural(text[1..]);
      StructuralAppend([Raw(text[0])], Raws(text[1..]));
    }
  }

  lemma {:induction false} RawsAccepted(text: seq<cp>)
    ensures Accepted(Raws(text))
  {
    if text != [] { RawsAccepted(text[1..]); }
  }

  lemma {:induction false} TokensStructural(v: Value)
    requires PlainLiterals(v)
    ensures Structural(Tokens(v))
    decreases v, 1
  {
    match v
    case Literal(text) => RawsStructural(text);
    case Text(_) =>
    case List(items) =>
      ItemsStructural(items);
      StructuralAppend([Raw(0x5b)], ItemTokens(items));
      StructuralAppend([Raw(0x5b)] + ItemTokens(items), [Raw(0x5d)]);
    case Mapping(fields) =>
      FieldsStructural(fields);
      StructuralAppend([Raw(0x7b)], FieldTokens(fields));
      StructuralAppend([Raw(0x7b)] + FieldTokens(fields), [Raw(0x7d)]);
  }

  lemma {:induction false} ItemsStructural(items: seq<Value>)
    requires forall i | 0 <= i < |items| :: PlainLiterals(items[i])
    ensures Structural(ItemTokens(items))
    decreases items, 0
  {
    if items != [] {
      TokensStructural(items[0]);
      if |items| > 1 {
        ItemsStructural(items[1..]);
        StructuralAppend(Tokens(items[0]), [COMMA]);
        StructuralAppend(Tokens(items[0]) + [COMMA], ItemTokens(items[1..]));
      }
    }
  }

  lemma {:induction false} FieldsStructural(fields: seq<Field>)
    requires forall i | 0 <= i < |fields| :: PlainLiterals(fields[i].value)
    ensures Structural(FieldTokens(fields))
    decreases fields, 0
  {
    if fields != [] {
      var head := [Str(fields[0].key), COLON];
      TokensStructural(fields[0].value);
      StructuralAppend(head, Tokens(fields[0].value));
      if |fields| > 1 {
        var first := head + Tokens(fields[0].value);
        FieldsStructural(fields[1..]);
        StructuralAppend(first, [COMMA]);
        StructuralAppend(first + [COMMA], FieldTokens(fields[1..]));
      }
    }
  }

  lemma {:induction false} TokensAccepted(v: Value)
    requires Clean(v)
    ensures Accepted(Tokens(v))
    decreases v, 1
  {
    match v
    case Literal(text) => RawsAccepted(text);
    case Text(_) =>
    case List(items) =>
      ItemsAccepted(items);
      AcceptedAppend([Raw(0x5b)], ItemTokens(items));
      AcceptedAppend([Raw(0x5b)] + ItemTokens(items), [Raw(0x5d)]);
    case Mapping(fields) =>
      FieldsAccepted(fields);
      AcceptedAppend([Raw(0x7b)], FieldTokens(fields));
      AcceptedAppend([Raw(0x7b)] + FieldTokens(fields), [Raw(0x7d)]);
  }

  lemma {:induction false} ItemsAccepted(items: seq<Value>)
    requires forall i | 0 <= i < |items| :: Clean(items[i])
    ensures Accepted(ItemTokens(items))
    decreases items, 0
  {
    if items != [] {
      TokensAccepted(items[0]);
      if |items| > 1 {
        ItemsAccepted(items[1..]);
        AcceptedAppend(Tokens(items[0]), [COMMA]);
        AcceptedAppend(Tokens(items[0]) + [COMMA], ItemTokens(items[1..]));
      }
    }
  }

  lemma {:induction false} FieldsAccepted(fields: seq<Field>)
    requires forall i | 0 <= i < |fields| :: NoSurrogates(fields[i].key) && Clean(fields[i].value)
    ensures Accepted(FieldTokens(fields))
    decreases fields, 0
  {
    if fields != [] {
      var head := [Str(fields[0].key), COLON];
      TokensAccepted(fields[0].value);
      AcceptedAppend(head, Tokens(fields[0].value));
      if |fields| > 1 {
        var first := head + Tokens(fields[0].value);
        FieldsAccepted(fields[1..]);
        AcceptedAppend(first, [COMMA]);
        AcceptedAppend(first + [COMMA], FieldTokens(fields[1..]));
      }
    }
  }

  // ------------------------------------------------------------ sanitising

  lemma ReplacedIsClean(s: seq<cp>)
    ensures NoSurrogates(ReplaceSurrogates(s))
  {
  }

  ghost predicate Good(v: Value, plain: bool) { Clean(v) && (plain ==> PlainLiterals(v)) }

  ghost predicate GoodField(f: Field, plain: bool) { NoSurrogates(f.key) && Good(f.value, plain) }

  ghost predicate GoodFields(fields: seq<Field>, plain: bool) {
    forall i | 0 <= i < |fields| :: GoodField(fields[i], plain)
  }

  lemma MappingIsGood(fields: seq<Field>, plain: bool)
    requires GoodFields(fields, plain)
    ensures Good(Mapping(fields), plain)
  {
    assert forall i | 0 <= i < |fields| :: GoodField(fields[i], plain);
  }

  lemma {:induction false} PutFieldKeeps(fields: seq<Field>, f: Field, plain: bool)
    requires GoodFields(fields, plain) && GoodField(f, plain)
    ensures GoodFields(PutField(fields, f), plain)
  {
    if fields != [] && fields[0].key != f.key { PutFieldKeeps(fields[1..], f, plain); }
  }

  /** `_sanitise` leaves no surrogate, and no literal that was not there. */
  lemma {:induction false} SanitisedIsGood(v: Value)
    ensures Good(SanitiseValue(v), PlainLiterals(v))
    decreases v, 1
  {
    match v
    case Literal(_) =>
    case Text(s) => ReplacedIsClean(s);
    case List(items) => SanitisedItemsGood(items, PlainLiterals(v));
    case Mapping(fields) =>
      SanitisedFieldsGood(fields, PlainLiterals(v));
      MappingIsGood(SanitiseFields(fields), PlainLiterals(v));
  }

  lemma {:induction false} SanitisedItemsGood(items: seq<Value>, plain: bool)
    requires plain ==> forall i | 0 <= i < |items| :: PlainLiterals(items[i])
    ensures forall i | 0 <= i < |items| :: Good(SanitiseItems(items)[i], plain)
    decreases items, 0
  {
    if items != [] {
      SanitisedIsGood(items[0]);
      SanitisedItemsGood(items[1..], plain);
    }
  }

  lemma {:induction false} SanitisedFieldsGood(fields: seq<Field>, plain: bool)
    requires plain ==> forall i | 0 <= i < |fields| :: PlainLiterals(fields[i].value)
    ensures GoodFields(SanitiseFields(fields), plain)
    decreases fields, 0
  {
    if fields != [] {
      var n := |fields| - 1;
      SanitisedFieldsGood(fields[..n], plain);
      SanitisedIsGood(fields[n].value);
      ReplacedIsClean(fields[n].key);
      PutFieldKeeps(SanitiseFields(fields[..n]),
                    Field(ReplaceSurrogates(fields[n].key), SanitiseValue(fields[n].value)), plain);
    }
  }

  /** Decoding the output gives the layout of the value, sanitised if it has surrogates, with
      every string in normal form and nothing else changed. */
  lemma ValueDecodes(v: Value)
    requires PlainLiterals(v)
    ensures Decode(DumpValue(v)) == Some(NormalToks(Tokens(Dumped(v))))
  {
    var w := Dumped(v);
    SanitisedIsGood(v);
    TokensStructural(w);
    if !Accepted(Tokens(v)) { TokensAccepted(w); }
    DumpIsOnePass(Tokens(w));
    PrintDecodes(Tokens(w));
  }

  // ------------------------------------------------------------ when keys become equal

  /** The keys stay different. */
  predicate KeysStayApart(fields: seq<Field>) {
    forall i, j | 0 <= i < j < |fields| :: ReplaceSurrogates(fields[i].key) != ReplaceSurrogates(fields[j].key)
  }

  predicate HasKey(fields: seq<Field>, key: seq<cp>) {
    exists i :: 0 <= i < |fields| && fields[i].key == key
  }

  lemma {:induction false} PutFieldGrows(fields: seq<Field>, f: Field)
    ensures |PutField(fields, f)| == if HasKey(fields, f.key) then |fields| else |fields| + 1
    ensures forall key :: HasKey(PutField(fields, f), key) <==> HasKey(fields, key) || key == f.key
  {
    if fields == [] {
      assert [f][0].key == f.key;
    } else {
      var put := PutField(fields, f);
      PutFieldGrows(fields[1..], f);
      forall key
        ensures HasKey(fields, key) <==> fields[0].key == key || HasKey(fields[1..], key)
        ensures HasKey(put, key) <==> put[0].key == key || HasKey(put[1..], key)
      {
        HeadOrTail(fields, key);
        HeadOrTail(put, key);
      }
      if fields[0].key == f.key {
        assert put[1..] == fields[1..];
      } else {
        assert put[1..] == PutField(fields[1..], f);
      }
    }
  }

  lemma HeadOrTail(fields: seq<Field>, key: seq<cp>)
    requires fields != []
    ensures HasKey(fields, key) <==> fields[0].key == key || HasKey(fields[1..], key)
  {
    if HasKey(fields, key) && fields[0].key != key {
      var i :| 0 <= i < |fields| && fields[i].key == key;
      assert fields[1..][i - 1].key == key;
    }
    if HasKey(fields[1..], key) {
      var i :| 0 <= i < |fields[1..]| && fields[1..][i].key == key;
      assert fields[i + 1].key == key;
    }
  }

  /** The keys after sanitising are the replaced keys. */
  lemma {:induction false} SanitisedKeys(fields: seq<Field>)
    ensures forall key :: HasKey(SanitiseFields(fields), key)
                     <==> Taken(fields, key)
    ensures |SanitiseFields(fields)| <= |fields|
  {
    if fields != [] {
      var n := |fields| - 1;
      SanitisedKeys(fields[..n]);
      PutFieldGrows(SanitiseFields(fields[..n]),
                    Field(ReplaceSurrogates(fields[n].key), SanitiseValue(fields[n].value)));
      assert forall i | 0 <= i < n :: fields[..n][i] == fields[i];
    }
  }

  predicate Taken(fields: seq<Field>, key: seq<cp>) {
    exists i :: 0 <= i < |fields| && ReplaceSurrogates(fields[i].key) == key
  }

  lemma ApartStep(fields: seq<Field>, n: nat)
    requires |fields| == n + 1
    ensures KeysStayApart(fields)
       <==> KeysStayApart(fields[..n]) && !Taken(fields[..n], ReplaceSurrogates(fields[n].key))
  {
    var front := fields[..n];
    assert forall i | 0 <= i < n :: front[i] == fields[i];
  }

  /** A mapping loses a field exactly when two of its keys differ in surrogates and question
      marks only. */
  lemma {:induction false} FieldsKeptIff(fields: seq<Field>)
    ensures |SanitiseFields(fields)| == |fields| <==> KeysStayApart(fields)
  {
    if fields != [] {
      var n := |fields| - 1;
      FieldsKeptIff(fields[..n]);
      SanitisedKeys(fields[..n]);
      ApartStep(fields, n);
      PutFieldGrows(SanitiseFields(fields[..n]),
                    Field(ReplaceSurrogates(fields[n].key), SanitiseValue(fields[n].value)));
    }
  }

  // ------------------------------------------------------------ what each key holds

  /** The value at a key. */
  function Find(fields: seq<Field>, key: seq<cp>): Option<Value> {
    if fields == [] then None else if fields[0].key == key then Some(fields[0].value) else Find(fields[1..], key)
  }

  /** The value of the last field whose key becomes this one. */
  function LastValue(fields: seq<Field>, key: seq<cp>): Option<Value> {
    if fields == [] then None
    else
      var n := |fields| - 1;
      if ReplaceSurrogates(fields[n].key) == key then Some(fields[n].value) else LastValue(fields[..n], key)
  }

  function Keys(fields: seq<Field>): seq<seq<cp>> {
    seq(|fields|, i requires 0 <= i < |fields| => fields[i].key)
  }

  lemma {:induction false} PutFieldFinds(fields: seq<Field>, f: Field, key: seq<cp>)
    ensures Find(PutField(fields, f), key) == if key == f.key then Some(f.value) else Find(fields, key)
  {
    if fields != [] {
      assert fields == [fields[0]] + fields[1..];
      if fields[0].key != f.key { PutFieldFinds(fields[1..], f, key); }
    }
  }

  lemma {:induction false} PutFieldKeys(fields: seq<Field>, f: Field)
    ensures Keys(PutField(fields, f)) == Keys(fields) + if HasKey(fields, f.key) then [] else [f.key]
  {
    if fields != [] {
      HeadOrTail(fields, f.key);
      if fields[0].key != f.key {
        PutFieldKeys(fields[1..], f);
        assert Keys(fields) == [fields[0].key] + Keys(fields[1..]);
        assert Keys(PutField(fields, f)) == [fields[0].key] + Keys(PutField(fields[1..], f));
      }
    }
  }

  /** After sanitising, a key holds the last value that was at a key that becomes it. */
  lemma {:induction false} LastValueWins(fields: seq<Field>, key: seq<cp>)
    ensures var last := LastValue(fields, key);
            Find(SanitiseFields(fields), key) == if last.Some? then Some(SanitiseValue(last.value)) else None
  {
    if fields != [] {
      var n := |fields| - 1;
      LastValueWins(fields[..n], key);
      PutFieldFinds(SanitiseFields(fields[..n]),
                    Field(ReplaceSurrogates(fields[n].key), SanitiseValue(fields[n].value)), key);
    }
  }

  /** One more field keeps the places of the others, and comes last if its key is new. */
  lemma PlacesStay(fields: seq<Field>, f: Field)
    ensures var key := ReplaceSurrogates(f.key);
            Keys(SanitiseFields(fields + [f]))
            == Keys(SanitiseFields(fields)) + if Taken(fields, key) then [] else [key]
  {
    assert (fields + [f])[..|fields|] == fields;
    SanitisedKeys(fields);
    PutFieldKeys(SanitiseFields(fields), Field(ReplaceSurrogates(f.key), SanitiseValue(f.value)));
  }

  // ------------------------------------------------------------ both branches agree

  /** Every mapping has each key once. */
  predicate KeysOnce(v: Value) {
    match v
    case Literal(_) => true
    case Text(_) => true
    case List(items) => forall i | 0 <= i < |items| :: KeysOnce(items[i])
    case Mapping(fields) => DifferentKeys(fields) && forall i | 0 <= i < |fields| :: KeysOnce(fields[i].value)
  }

  predicate DifferentKeys(fields: seq<Field>) {
    forall i, j | 0 <= i < j < |fields| :: fields[i].key != fields[j].key
  }

  /** Surrogates, and only they, become question marks. */
  lemma SurrogatesReplaced(s: seq<cp>)
    ensures |ReplaceSurrogates(s)| == |s|
    ensures forall i | 0 <= i < |s| :: if Surrogate(s[i]) then ReplaceSurrogates(s)[i] == 0x3f
                                                          else ReplaceSurrogates(s)[i] == s[i]
    ensures ReplaceSurrogates(s) == s <==> NoSurrogates(s)
  {
    if NoSurrogates(s) {
      assert forall i | 0 <= i < |s| :: s[i] in s;
    }
  }

  lemma {:induction false} PutNewField(fields: seq<Field>, f: Field)
    requires forall i | 0 <= i < |fields| :: fields[i].key != f.key
    ensures PutField(fields, f) == fields + [f]
  {
    if fields != [] { PutNewField(fields[1..], f); }
  }

  /** Sanitising keeps a value without surrogates. */
  lemma {:induction false} SanitiseKeepsClean(v: Value)
    requires Clean(v) && KeysOnce(v)
    ensures SanitiseValue(v) == v
    decreases v, 1
  {
    match v
    case Literal(_) =>
    case Text(s) => SurrogatesReplaced(s);
    case List(items) => SanitiseKeepsItems(items);
    case Mapping(fields) => SanitiseKeepsFields(fields);
  }

  lemma {:induction false} SanitiseKeepsItems(items: seq<Value>)
    requires forall i | 0 <= i < |items| :: Clean(items[i]) && KeysOnce(items[i])
    ensures SanitiseItems(items) == items
    decreases items, 0
  {
    if items != [] {
      SanitiseKeepsClean(items[0]);
      SanitiseKeepsItems(items[1..]);
    }
  }

  lemma {:induction false} SanitiseKeepsFields(fields: seq<Field>)
    requires DifferentKeys(fields)
    requires forall i | 0 <= i < |fields| ::
               NoSurrogates(fields[i].key) && Clean(fields[i].value) && KeysOnce(fields[i].value)
    ensures SanitiseFields(fields) == fields
    decreases fields, 0
  {
    if fields != [] {
      var n := |fields| - 1;
      SanitiseKeepsFields(fields[..n]);
      SanitiseKeepsClean(fields[n].value);
      SurrogatesReplaced(fields[n].key);
      PutNewField(fields[..n], fields[n]);
    }
  }

  lemma AcceptedParts(a: seq<Tok>, b: seq<Tok>)
    requires Accepted(a + b)
    ensures Accepted(a) && Accepted(b)
  {
    assert forall i | 0 <= i < |a| :: (a + b)[i] == a[i];
    assert forall i | 0 <= i < |b| :: (a + b)[|a| + i] == b[i];
  }

  /** orjson accepts exactly the values without surrogates. */
  lemma {:induction false} AcceptedIsClean(v: Value)
    ensures Accepted(Tokens(v)) <==> Clean(v)
    decreases v, 1
  {
    if Clean(v) {
      TokensAccepted(v);
    } else {
      RejectedHasSurrogate(v);
    }
  }

  lemma {:induction false} RejectedHasSurrogate(v: Value)
    requires !Clean(v)
    ensures !Accepted(Tokens(v))
    decreases v, 1
  {
    match v
    case Literal(_) =>
    case Text(s) => assert Tokens(v)[0] == Str(s);
    case List(items) =>
      RejectedItems(items);
      if Accepted(Tokens(v)) {
        AcceptedParts([Raw(0x5b)] + ItemTokens(items), [Raw(0x5d)]);
        AcceptedParts([Raw(0x5b)], ItemTokens(items));
      }
    case Mapping(fields) =>
      RejectedFields(fields);
      if Accepted(Tokens(v)) {
        AcceptedParts([Raw(0x7b)] + FieldTokens(fields), [Raw(0x7d)]);
        AcceptedParts([Raw(0x7b)], FieldTokens(fields));
      }
  }

  lemma {:induction false} RejectedItems(items: seq<Value>)
    requires exists i :: 0 <= i < |items| && !Clean(items[i])
    ensures !Accepted(ItemTokens(items))
    decreases items, 0
  {
    if Accepted(ItemTokens(items)) && |items| > 1 {
      AcceptedParts(Tokens(items[0]) + [COMMA], ItemTokens(items[1..]));
      AcceptedParts(Tokens(items[0]), [COMMA]);
    }
    if !Clean(items[0]) {
      RejectedHasSurrogate(items[0]);
    } else {
      var i :| 0 <= i < |items| && !Clean(items[i]);
      assert items[1..][i - 1] == items[i];
      RejectedItems(items[1..]);
    }
  }

  predicate CleanField(f: Field) { NoSurrogates(f.key) && Clean(f.value) }

  lemma {:induction false} RejectedFields(fields: seq<Field>)
    requires exists i :: 0 <= i < |fields| && !CleanField(fields[i])
    ensures !Accepted(FieldTokens(fields))
    decreases fields, 0
  {
    var head := [Str(fields[0].key), COLON];
    var first := head + Tokens(fields[0].value);
    if Accepted(FieldTokens(fields)) {
      if |fields| > 1 {
        AcceptedParts(first + [COMMA], FieldTokens(fields[1..]));
        AcceptedParts(first, [COMMA]);
      }
      AcceptedParts(head, Tokens(fields[0].value));
      assert head[0] == Str(fields[0].key);
    }
    if !CleanField(fields[0]) {
      if !Clean(fields[0].value) { RejectedHasSurrogate(fields[0].value); }
    } else {
      var i :| 0 <= i < |fields| && !CleanField(fields[i]);
      assert fields[1..][i - 1] == fields[i];
      RejectedFields(fields[1..]);
    }
  }

  /** Whichever way it goes, what is dumped is the sanitised value. */
  lemma DumpedIsSanitised(v: Value)
    requires KeysOnce(v)
    ensures Dumped(v) == SanitiseValue(v)
  {
    AcceptedIsClean(v);
    if Clean(v) { SanitiseKeepsClean(v); }
  }
}
