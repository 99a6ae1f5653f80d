/**
  `json_dumpb` of `backend/server/api/serde.py`, against the string decoding of section 7
  of RFC 8259.

  Text is a sequence of code points. UTF-8 copies no ASCII byte into the encoding of
  another code point, so the byte replacements act in the same places.
 */
module JsonDump {
  import opened Wrappers

  type cp = c: int | 0 <= c < 0x110000

  const NUL: cp := 0
  const QUOTE: cp := 0x22
  const BACKSLASH: cp := 0x5c
  const REPLACEMENT: cp := 0xfffd

  /** `u0000` and `ufffd`. */
  const U0000: seq<cp> := [0x75, 0x30, 0x30, 0x30, 0x30]
  const UFFFD: seq<cp> := [0x75, 0x66, 0x66, 0x66, 0x64]

  const NUL_ESCAPE: seq<cp> := [BACKSLASH] + U0000
  const NEW_ESCAPE: seq<cp> := [BACKSLASH] + UFFFD

  // ------------------------------------------------------------ serialising

  function HexDigit(d: nat): cp
    requires d < 16
  {
    if d < 10 then 0x30 + d else 0x61 + (d - 10)
  }

  /** How orjson writes one code point inside a string. */
  function Escape(c: cp): seq<cp> {
    if c == QUOTE || c == BACKSLASH then [BACKSLASH, c]
    else if c == 8 then [BACKSLASH, 0x62]
    else if c == 9 then [BACKSLASH, 0x74]
    else if c == 10 then [BACKSLASH, 0x6e]
    else if c == 12 then [BACKSLASH, 0x66]
    else if c == 13 then [BACKSLASH, 0x72]
    else if c < 32 then [BACKSLASH, 0x75, 0x30, 0x30, HexDigit(c / 16), HexDigit(c % 16)]
    else [c]
  }

  function Body(s: seq<cp>): seq<cp> {
    if s == [] then [] else Escape(s[0]) + Body(s[1..])
  }

  /** A document as its strings and the structural characters between them. */
  datatype Tok = Raw(c: cp) | Str(s: seq<cp>)

  function Print(doc: seq<Tok>): seq<cp> {
    if doc == [] then []
    else match doc[0]
      case Raw(c) => [c] + Print(doc[1..])
      case Str(s) => [QUOTE] + Body(s) + [QUOTE] + Print(doc[1..])
  }

  predicate Structural(doc: seq<Tok>) {
    forall i | 0 <= i < |doc| && doc[i].Raw? :: doc[i].c != QUOTE && doc[i].c != BACKSLASH
  }

  predicate Surrogate(c: cp) { 0xd800 <= c <= 0xdfff }

  /** `_replace_surr` */
  function ReplaceSurrogates(s: seq<cp>): seq<cp> {
    seq(|s|, i requires 0 <= i < |s| => if Surrogate(s[i]) then 0x3f else s[i])
  }

  /** `_sanitise`, which `json_dumpb` applies when orjson rejects a surrogate. */
  function Sanitise(doc: seq<Tok>): seq<Tok> {
    seq(|doc|, i requires 0 <= i < |doc| => if doc[i].Raw? then doc[i] else Str(ReplaceSurrogates(doc[i].s)))
  }

  predicate Accepted(doc: seq<Tok>) {
    forall i | 0 <= i < |doc| && doc[i].Str? :: forall c <- doc[i].s :: !Surrogate(c)
  }

  /** `bytes.replace`: leftmost occurrences that do not overlap. */
  function Replace(s: seq<cp>, was: seq<cp>, now: seq<cp>): seq<cp>
    requires was != []
  {
    if s == [] then []
    else if was <= s then now + Replace(s[|was|..], was, now)
    else [s[0]] + Replace(s[1..], was, now)
  }

  predicate Occurs(s: seq<cp>, t: seq<cp>) {
    s != [] && (t <= s || Occurs(s[1..], t))
  }

  /** `json_dumpb` */
  function JsonDumpb(doc: seq<Tok>): seq<cp> {
    var dumped := Print(if Accepted(doc) then doc else Sanitise(doc));
    if !Occurs(dumped, NUL_ESCAPE) then dumped
    else Replace(Replace(dumped, [BACKSLASH] + NUL_ESCAPE, [BACKSLASH] + NEW_ESCAPE), NUL_ESCAPE, NEW_ESCAPE)
  }

  // ------------------------------------------------------------ decoding

  function HexValue(c: cp): Option<nat> {
    if 0x30 <= c <= 0x39 then Some(c - 0x30)
    else if 0x61 <= c <= 0x66 then Some(c - 0x61 + 10)
    else if 0x41 <= c <= 0x46 then Some(c - 0x41 + 10)
    else None
  }

  function Hex4(t: seq<cp>): (v: Option<cp>) {
    if |t| < 4 || HexValue(t[0]).None? || HexValue(t[1]).None? || HexValue(t[2]).None? || HexValue(t[3]).None? then None
    else
      HexRange(t[0]); HexRange(t[1]); HexRange(t[2]); HexRange(t[3]);
      Some(((HexValue(t[0]).value * 16 + HexValue(t[1]).value) * 16 + HexValue(t[2]).value) * 16 + HexValue(t[3]).value)
  }

  lemma HexRange(c: cp)
    ensures HexValue(c).Some? ==> HexValue(c).value < 16
  {
  }

  /** One character of a string and the text after it; surrogate escapes are not decoded. */
  function DecodeChar(t: seq<cp>): (r: Option<(cp, nat)>)
    ensures r.Some? ==> 0 < r.value.1 <= |t|
  {
    if t == [] || t[0] < 32 then None
    else if t[0] != BACKSLASH then Some((t[0], 1))
    else if |t| < 2 then None
    else if t[1] == QUOTE || t[1] == BACKSLASH || t[1] == 0x2f then Some((t[1], 2))
    else if t[1] == 0x62 then Some((8, 2))
    else if t[1] == 0x66 then Some((12, 2))
    else if t[1] == 0x6e then Some((10, 2))
    else if t[1] == 0x72 then Some((13, 2))
    else if t[1] == 0x74 then Some((9, 2))
    else if t[1] == 0x75 then
      var v := Hex4(t[2..]);
      if v.None? || Surrogate(v.value) then None else Some((v.value, 6))
    else None
  }

  /** The rest of a string, up to and including its closing quote. */
  function DecodeString(t: seq<cp>): (r: Option<(seq<cp>, seq<cp>)>)
    ensures r.Some? ==> |r.value.1| < |t|
    decreases |t|
  {
    if t != [] && t[0] == QUOTE then Some(([], t[1..]))
    else
      var c := DecodeChar(t);
      if c.None? then None
      else
        var more := DecodeString(t[c.value.1..]);
        if more.None? then None else Some(([c.value.0] + more.value.0, more.value.1))
  }

  function Decode(t: seq<cp>): Option<seq<Tok>>
    decreases |t|
  {
    if t == [] then Some([])
    else if t[0] == QUOTE then
      var s := DecodeString(t[1..]);
      if s.None? then None
      else
        var more := Decode(s.value.1);
        if more.None? then None else Some([Str(s.value.0)] + more.value)
    else if t[0] == BACKSLASH then None
    else
      var more := Decode(t[1..]);
      if more.None? then None else Some([Raw(t[0])] + more.value)
  }

  // ------------------------------------------------------------ what the pass is for

  /** NUL becomes U+FFFD, and a backslash before `u0000` stands before `ufffd` instead. */
  function Normal(s: seq<cp>): seq<cp> {
    if s == [] then []
    else if s[0] == NUL then [REPLACEMENT] + Normal(s[1..])
    else if NUL_ESCAPE <= s then NEW_ESCAPE + Normal(s[6..])
    else [s[0]] + Normal(s[1..])
  }

  function NormalDoc(doc: seq<Tok>): seq<Tok> {
    if doc == [] then []
    else [if doc[0].Raw? then doc[0] else Str(Normal(ReplaceSurrogates(doc[0].s)))] + NormalDoc(doc[1..])
  }

  // ------------------------------------------------------------ two passes are one

  /** Text without a backslash is copied by a replacement of escapes. */
  lemma {:induction false} PlainIsCopied(a: seq<cp>, y: seq<cp>, q: seq<cp>, n: seq<cp>)
    requires BACKSLASH !in a
    ensures Replace(a + y, [BACKSLASH] + q, [BACKSLASH] + n) == a + Replace(y, [BACKSLASH] + q, [BACKSLASH] + n)
  {
    if a == [] {
      assert a + y == y;
    } else {
      assert a[0] in a && forall c <- a[1..] :: c in a;
      HeadAndTail(a, y);
      OneIsCopied(a + y, q, n);
      PlainIsCopied(a[1..], y, q, n);
      HeadAndTail(a, Replace(y, [BACKSLASH] + q, [BACKSLASH] + n));
    }
  }

  lemma HeadAndTail(a: seq<cp>, y: seq<cp>)
    requires a != []
    ensures (a + y)[0] == a[0] && (a + y)[1..] == a[1..] + y && a + y == [a[0]] + (a[1..] + y)
  {
  }

  lemma OneIsCopied(s: seq<cp>, q: seq<cp>, n: seq<cp>)
    requires s != [] && s[0] != BACKSLASH
    ensures Replace(s, [BACKSLASH] + q, [BACKSLASH] + n) == [s[0]] + Replace(s[1..], [BACKSLASH] + q, [BACKSLASH] + n)
  {
    assert ([BACKSLASH] + q)[0] == BACKSLASH;
  }

  /** And text without a backslash in the result was there before. */
  lemma {:induction false} PlainWasThere(a: seq<cp>, x: seq<cp>, q: seq<cp>, n: seq<cp>)
    requires BACKSLASH !in a && a <= Replace(x, [BACKSLASH] + q, [BACKSLASH] + n)
    ensures a <= x
  {
    if a != [] {
      var r := Replace(x, [BACKSLASH] + q, [BACKSLASH] + n);
      assert a[0] == r[0] && a[0] in a;
      assert !([BACKSLASH] + q <= x);
      assert r[1..] == Replace(x[1..], [BACKSLASH] + q, [BACKSLASH] + n);
      assert a[1..] <= r[1..];
      PlainWasThere(a[1..], x[1..], q, n);
      assert a == [a[0]] + a[1..] && x == [x[0]] + x[1..];
    }
  }

  function FirstPass(s: seq<cp>): seq<cp> { Replace(s, [BACKSLASH] + NUL_ESCAPE, [BACKSLASH] + NEW_ESCAPE) }

  function SecondPass(s: seq<cp>): seq<cp> { Replace(s, NUL_ESCAPE, NEW_ESCAPE) }

  lemma SecondPassOnNew(t: seq<cp>)
    ensures SecondPass([BACKSLASH] + NEW_ESCAPE + t) == [BACKSLASH] + NEW_ESCAPE + SecondPass(t)
  {
    var x := [BACKSLASH] + NEW_ESCAPE + t;
    assert x[1] == BACKSLASH && x[1..] == NEW_ESCAPE + t;
    assert NUL_ESCAPE[1] == 0x75;
    assert !(NUL_ESCAPE <= x);
    var y := NEW_ESCAPE + t;
    assert y[2] == 0x66 && NUL_ESCAPE[2] == 0x30 && y[1..] == UFFFD + t;
    assert !(NUL_ESCAPE <= y);
    PlainIsCopied(UFFFD, t, U0000, UFFFD);
    assert SecondPass(y) == [BACKSLASH] + (UFFFD + SecondPass(t)) == NEW_ESCAPE + SecondPass(t);
    assert SecondPass(x) == [BACKSLASH] + SecondPass(y);
  }

  lemma SecondPassOnDoubled(s: seq<cp>)
    requires [BACKSLASH] + NUL_ESCAPE <= s
    ensures SecondPass(s) == [BACKSLASH] + NEW_ESCAPE + SecondPass(s[7..])
  {
    var p1 := [BACKSLASH] + NUL_ESCAPE;
    assert s[..7] == p1;
    assert s[1] == p1[1] == BACKSLASH && NUL_ESCAPE[1] == 0x75;
    assert !(NUL_ESCAPE <= s);
    assert s[1..][..6] == p1[1..] == NUL_ESCAPE;
    assert s[1..][6..] == s[7..];
    assert NUL_ESCAPE <= s[1..];
    assert SecondPass(s[1..]) == NEW_ESCAPE + SecondPass(s[1..][6..]);
    assert SecondPass(s) == [s[0]] + (NEW_ESCAPE + SecondPass(s[7..]));
  }

  lemma FirstPassOnEscape(s: seq<cp>)
    requires NUL_ESCAPE <= s
    ensures FirstPass(s) == NUL_ESCAPE + FirstPass(s[6..])
  {
    assert s[..6] == NUL_ESCAPE && s[1] == NUL_ESCAPE[1] == 0x75;
    assert ([BACKSLASH] + NUL_ESCAPE)[1] == BACKSLASH;
    assert !([BACKSLASH] + NUL_ESCAPE <= s);
    assert s[1..] == U0000 + s[6..];
    PlainIsCopied(U0000, s[6..], NUL_ESCAPE, NEW_ESCAPE);
  }

  /** The first pass is the second pass restricted to escapes behind a backslash, so that
      together they replace every `\u0000`. */
  lemma {:induction false} TwoPassesAreOne(s: seq<cp>)
    ensures SecondPass(FirstPass(s)) == SecondPass(s)
    decreases |s|
  {
    if s == [] {
    } else if [BACKSLASH] + NUL_ESCAPE <= s {
      TwoPassesAreOne(s[7..]);
      SecondPassOnNew(FirstPass(s[7..]));
      SecondPassOnDoubled(s);
    } else if NUL_ESCAPE <= s {
      FirstPassOnEscape(s);
      TwoPassesAreOne(s[6..]);
      assert (NUL_ESCAPE + FirstPass(s[6..]))[6..] == FirstPass(s[6..]);
    } else {
      TwoPassesAreOne(s[1..]);
      var t := [s[0]] + FirstPass(s[1..]);
      assert FirstPass(s) == t && t[1..] == FirstPass(s[1..]);
      if NUL_ESCAPE <= t {
        assert t[..6] == NUL_ESCAPE && t[1..][..5] == U0000;
        PlainWasThere(U0000, s[1..], NUL_ESCAPE, NEW_ESCAPE);
      }
    }
  }

  lemma {:induction false} NoOccurrenceNoChange(s: seq<cp>)
    requires !Occurs(s, NUL_ESCAPE)
    ensures SecondPass(s) == s
  {
    if s != [] { NoOccurrenceNoChange(s[1..]); }
  }

  /** `json_dumpb` replaces every `\u0000` in the dumped text, on either path. */
  lemma DumpIsOnePass(doc: seq<Tok>)
    ensures JsonDumpb(doc) == SecondPass(Print(if Accepted(doc) then doc else Sanitise(doc)))
  {
    var dumped := Print(if Accepted(doc) then doc else Sanitise(doc));
    TwoPassesAreOne(dumped);
    if !Occurs(dumped, NUL_ESCAPE) { NoOccurrenceNoChange(dumped); }
  }

  // ------------------------------------------------------------ length, and nothing left

  lemma {:induction false} PassKeepsLength(s: seq<cp>)
    ensures |SecondPass(s)| == |s|
    decreases |s|
  {
    if s != [] {
      if NUL_ESCAPE <= s { PassKeepsLength(s[6..]); } else { PassKeepsLength(s[1..]); }
    }
  }

  lemma {:induction false} PassLeavesNone(s: seq<cp>)
    ensures !Occurs(SecondPass(s), NUL_ESCAPE)
    decreases |s|
  {
    if s == [] {
    } else if NUL_ESCAPE <= s {
      PassLeavesNone(s[6..]);
      NewEscapeHidesNone(SecondPass(s[6..]));
    } else {
      PassLeavesNone(s[1..]);
      var t := SecondPass(s);
      assert t[1..] == SecondPass(s[1..]);
      if NUL_ESCAPE <= t {
        assert t[..6] == NUL_ESCAPE && t[1..][..5] == U0000;
        PlainWasThere(U0000, s[1..], U0000, UFFFD);
      }
    }
  }

  lemma NewEscapeHidesNone(t: seq<cp>)
    requires !Occurs(t, NUL_ESCAPE)
    ensures !Occurs(NEW_ESCAPE + t, NUL_ESCAPE)
  {
    var x := NEW_ESCAPE + t;
    assert x[2] == 0x66 && NUL_ESCAPE[2] == 0x30;
    assert !(NUL_ESCAPE <= x);
    assert x[1..] == UFFFD + t;
    PlainHidesNone(UFFFD, t);
  }

  lemma {:induction false} PlainHidesNone(a: seq<cp>, t: seq<cp>)
    requires BACKSLASH !in a && !Occurs(t, NUL_ESCAPE)
    ensures !Occurs(a + t, NUL_ESCAPE)
  {
    if a == [] {
      assert a + t == t;
    } else {
      assert (a + t)[1..] == a[1..] + t && (a + t)[0] == a[0];
      PlainHidesNone(a[1..], t);
    }
  }

  /** The output has the length of the dumped text and contains no escaped NUL. */
  lemma DumpHasNoNul(doc: seq<Tok>)
    ensures |JsonDumpb(doc)| == |Print(if Accepted(doc) then doc else Sanitise(doc))|
    ensures !Occurs(JsonDumpb(doc), NUL_ESCAPE)
  {
    DumpIsOnePass(doc);
    PassKeepsLength(Print(if Accepted(doc) then doc else Sanitise(doc)));
    PassLeavesNone(Print(if Accepted(doc) then doc else Sanitise(doc)));
  }

  // ------------------------------------------------------------ one string

  predicate Plain(c: cp) { c >= 32 && c != QUOTE && c != BACKSLASH }

  predicate AllPlain(a: seq<cp>) { forall c <- a :: Plain(c) }

  lemma {:induction false} PlainDecodes(a: seq<cp>, t: seq<cp>)
    requires AllPlain(a) && DecodeString(t).Some?
    ensures DecodeString(a + t) == Some((a + DecodeString(t).value.0, DecodeString(t).value.1))
  {
    if a == [] {
      assert a + t == t && a + DecodeString(t).value.0 == DecodeString(t).value.0;
    } else {
      var c, rest := a[0], a[1..];
      assert c in a && (a + t)[0] == c && (a + t)[1..] == rest + t;
      PlainDecodes(rest, t);
      assert DecodeChar(a + t) == Some((c, 1));
      assert [c] + (rest + DecodeString(t).value.0) == a + DecodeString(t).value.0;
    }
  }

  lemma EscapeHead(c: cp)
    ensures Escape(c) != [] && if Plain(c) then Escape(c) == [c] else Escape(c)[0] == BACKSLASH
  {
  }

  lemma BodySplits(s: seq<cp>, tail: seq<cp>)
    requires s != []
    ensures Body(s) + tail == Escape(s[0]) + (Body(s[1..]) + tail)
  {
  }

  lemma SameHead(c: cp, a: seq<cp>, e: seq<cp>, rest: seq<cp>)
    requires [c] + a <= e + rest && e != []
    ensures e[0] == c && (e == [c] ==> a <= rest)
  {
    assert (e + rest)[0] == ([c] + a)[0];
    if e == [c] {
      assert (e + rest)[1..] == rest && ([c] + a)[1..] == a;
    }
  }

  lemma BodyHead(c: cp, a: seq<cp>, s: seq<cp>, tail: seq<cp>)
    requires Plain(c) && [c] + a <= Body(s) + tail && tail != [] && tail[0] == QUOTE
    ensures s != [] && s[0] == c && Body(s) == [c] + Body(s[1..]) && a <= Body(s[1..]) + tail
  {
    if s == [] {
      SameHead(c, a, tail, []);
    } else {
      BodySplits(s, tail);
      EscapeHead(s[0]);
      SameHead(c, a, Escape(s[0]), Body(s[1..]) + tail);
    }
  }

  lemma Consed(c: cp, a: seq<cp>, s: seq<cp>)
    requires s != [] && s[0] == c && a <= s[1..]
    ensures [c] + a <= s
  {
    assert s == [c] + s[1..];
  }

  /** Plain characters at the head of an escaped body are the head of the string. */
  lemma {:induction false} PlainBodyHead(a: seq<cp>, s: seq<cp>, tail: seq<cp>)
    requires AllPlain(a) && a <= Body(s) + tail && tail != [] && tail[0] == QUOTE
    ensures a <= s
  {
    if a != [] {
      var c, rest := a[0], a[1..];
      assert c in a && a == [c] + rest;
      BodyHead(c, rest, s, tail);
      PlainBodyHead(rest, s[1..], tail);
      Consed(c, rest, s);
    }
  }

  lemma SecondPassKeepsFirst(t: seq<cp>)
    requires t != [] && !(NUL_ESCAPE <= t)
    ensures SecondPass(t) == [t[0]] + SecondPass(t[1..])
  {
  }

  lemma NoEscapeHere(t: seq<cp>)
    requires t != [] && t[0] != BACKSLASH
    ensures !(NUL_ESCAPE <= t)
  {
    assert NUL_ESCAPE[0] == BACKSLASH;
  }

  /** A two-character escape other than a doubled backslash is copied and decodes to its character. */
  lemma ShortEscape(c: cp, e: cp, x: seq<cp>)
    requires Escape(c) == [BACKSLASH, e] && c != BACKSLASH
    ensures SecondPass(Escape(c) + x) == Escape(c) + SecondPass(x)
    ensures DecodeChar(Escape(c) + SecondPass(x)) == Some((c, 2))
  {
    var t := Escape(c) + x;
    assert t[1] == e && e != 0x75 && NUL_ESCAPE[1] == 0x75;
    SecondPassKeepsFirst(t);
    assert t[1..] == [e] + x && e != BACKSLASH && BACKSLASH !in [e];
    PlainIsCopied([e], x, U0000, UFFFD);
    assert [BACKSLASH] + ([e] + SecondPass(x)) == Escape(c) + SecondPass(x);
  }

  lemma EscapeIsCopied(u: seq<cp>, x: seq<cp>)
    requires BACKSLASH !in u && !(U0000 <= u + x)
    ensures SecondPass([BACKSLASH] + u + x) == [BACKSLASH] + u + SecondPass(x)
  {
    var t := [BACKSLASH] + u + x;
    assert t == [BACKSLASH] + (u + x) && t[1..] == u + x;
    BehindBackslash(u + x);
    SecondPassKeepsFirst(t);
    PlainIsCopied(u, x, U0000, UFFFD);
    Regroup([BACKSLASH], u, SecondPass(x));
  }

  lemma LongEscapeDecodes(c: cp, y: seq<cp>)
    requires c < 32 && |Escape(c)| == 6
    ensures DecodeChar(Escape(c) + y) == Some((c, 6))
  {
    var h, l := HexDigit(c / 16), HexDigit(c % 16);
    var d := Escape(c) + y;
    assert d[2..][0] == 0x30 && d[2..][1] == 0x30 && d[2..][2] == h && d[2..][3] == l;
    assert HexValue(h) == Some(c / 16) && HexValue(l) == Some(c % 16);
  }

  lemma LongEscapeText(c: cp) returns (u: seq<cp>)
    requires c < 32 && |Escape(c)| == 6 && c != NUL
    ensures Escape(c) == [BACKSLASH] + u && |u| == 5 && BACKSLASH !in u && u != U0000
  {
    u := [0x75, 0x30, 0x30, HexDigit(c / 16), HexDigit(c % 16)];
    assert u[3] != 0x30 || u[4] != 0x30;
  }

  lemma NoPrefix(u: seq<cp>, x: seq<cp>)
    requires |u| == |U0000| && u != U0000
    ensures !(U0000 <= u + x)
  {
    assert (u + x)[..|u|] == u;
  }

  /** So is the six-character escape of a control character other than NUL. */
  lemma LongEscape(c: cp, x: seq<cp>)
    requires c < 32 && |Escape(c)| == 6 && c != NUL
    ensures SecondPass(Escape(c) + x) == Escape(c) + SecondPass(x)
    ensures DecodeChar(Escape(c) + SecondPass(x)) == Some((c, 6))
  {
    var u := LongEscapeText(c);
    NoPrefix(u, x);
    EscapeIsCopied(u, x);
    LongEscapeDecodes(c, SecondPass(x));
  }

  lemma NulEscape(x: seq<cp>)
    ensures SecondPass(Escape(NUL) + x) == NEW_ESCAPE + SecondPass(x)
    ensures DecodeChar(NEW_ESCAPE + SecondPass(x)) == Some((REPLACEMENT, 6))
  {
    assert Escape(NUL) == NUL_ESCAPE;
    assert (NUL_ESCAPE + x)[6..] == x;
    var d := NEW_ESCAPE + SecondPass(x);
    assert d[2..][0] == 0x66 && d[2..][1] == 0x66 && d[2..][2] == 0x66 && d[2..][3] == 0x64;
  }

  lemma BehindBackslash(x: seq<cp>)
    ensures NUL_ESCAPE <= [BACKSLASH] + x <==> U0000 <= x
  {
    var y := [BACKSLASH] + x;
    assert y[1..] == x;
    if U0000 <= x { assert x == U0000 + x[5..]; }
  }

  lemma DoubledBackslash(x: seq<cp>)
    ensures SecondPass([BACKSLASH, BACKSLASH] + x) ==
              if U0000 <= x then [BACKSLASH, BACKSLASH] + UFFFD + SecondPass(x[5..])
              else [BACKSLASH, BACKSLASH] + SecondPass(x)
  {
    var t := [BACKSLASH, BACKSLASH] + x;
    assert t[1] == BACKSLASH && NUL_ESCAPE[1] == 0x75;
    SecondPassKeepsFirst(t);
    var y := [BACKSLASH] + x;
    assert t[1..] == y && y[1..] == x;
    if U0000 <= x {
      assert x == U0000 + x[5..];
      assert y == NUL_ESCAPE + x[5..];
      assert y[6..] == x[5..];
      assert [BACKSLASH] + (NEW_ESCAPE + SecondPass(x[5..])) == [BACKSLASH, BACKSLASH] + UFFFD + SecondPass(x[5..]);
    } else {
      BehindBackslash(x);
      SecondPassKeepsFirst(y);
      assert [BACKSLASH] + ([BACKSLASH] + SecondPass(x)) == [BACKSLASH, BACKSLASH] + SecondPass(x);
    }
  }

  ghost predicate Reads(t: seq<cp>, s: seq<cp>, rest: seq<cp>) {
    DecodeString(t) == Some((s, rest))
  }

  lemma PrependChar(e: seq<cp>, c: cp, t: seq<cp>, s: seq<cp>, rest: seq<cp>)
    requires e != [] && e[0] != QUOTE && DecodeChar(e + t) == Some((c, |e|)) && Reads(t, s, rest)
    ensures Reads(e + t, [c] + s, rest)
  {
    assert (e + t)[|e|..] == t;
  }

  /** The escaped body of any string, after the replacement, decodes to the string's normal form. */
  lemma {:induction false} BodyDecodes(s: seq<cp>, tail: seq<cp>)
    requires (forall c <- s :: !Surrogate(c)) && tail != [] && tail[0] == QUOTE
    ensures Reads(SecondPass(Body(s) + tail), Normal(s), SecondPass(tail[1..]))
    decreases |s|
  {
    if s == [] {
      assert Body(s) + tail == tail;
      SecondPassKeepsFirst(tail);
    } else {
      var c, x := s[0], Body(s[1..]) + tail;
      assert Body(s) + tail == Escape(c) + x;
      if c == BACKSLASH {
        BackslashDecodes(s, tail);
      } else {
        assert !(NUL_ESCAPE <= s) by { assert NUL_ESCAPE[0] == BACKSLASH; }
        BodyDecodes(s[1..], tail);
        var y, n, rest := SecondPass(x), Normal(s[1..]), SecondPass(tail[1..]);
        if c == NUL {
          NulEscape(x);
          PrependChar(NEW_ESCAPE, REPLACEMENT, y, n, rest);
        } else if |Escape(c)| == 2 {
          ShortEscape(c, Escape(c)[1], x);
          PrependChar(Escape(c), c, y, n, rest);
        } else if |Escape(c)| == 6 {
          LongEscape(c, x);
          PrependChar(Escape(c), c, y, n, rest);
        } else {
          assert Escape(c) == [c] && ([c] + x)[1..] == x;
          SecondPassKeepsFirst([c] + x);
          assert c in s;
          assert DecodeChar([c] + y) == Some((c, 1));
          PrependChar([c], c, y, n, rest);
        }
      }
    }
  }

  lemma {:induction false} BackslashDecodes(s: seq<cp>, tail: seq<cp>)
    requires (forall c <- s :: !Surrogate(c)) && tail != [] && tail[0] == QUOTE
    requires s != [] && s[0] == BACKSLASH
    ensures Reads(SecondPass([BACKSLASH, BACKSLASH] + (Body(s[1..]) + tail)), Normal(s), SecondPass(tail[1..]))
    decreases |s|, 0
  {
    var x, rest := Body(s[1..]) + tail, SecondPass(tail[1..]);
    DoubledBackslash(x);
    EscapedNulInBody(s, tail);
    if U0000 <= x {
      BodyDecodes(s[6..], tail);
      SpelledOutDecodes(SecondPass(x[5..]), Normal(s[6..]), rest);
    } else {
      BodyDecodes(s[1..], tail);
      assert DecodeChar([BACKSLASH, BACKSLASH] + SecondPass(x)) == Some((BACKSLASH, 2));
      PrependChar([BACKSLASH, BACKSLASH], BACKSLASH, SecondPass(x), Normal(s[1..]), rest);
    }
  }

  /** The body spells out `u0000` behind a backslash exactly where the string does. */
  lemma EscapedNulInBody(s: seq<cp>, tail: seq<cp>)
    requires s != [] && s[0] == BACKSLASH && tail != [] && tail[0] == QUOTE
    ensures U0000 <= Body(s[1..]) + tail <==> NUL_ESCAPE <= s
    ensures U0000 <= Body(s[1..]) + tail ==> (Body(s[1..]) + tail)[5..] == Body(s[6..]) + tail
  {
    var x, t := Body(s[1..]) + tail, s[1..];
    assert s == [BACKSLASH] + t;
    BehindBackslash(t);
    if U0000 <= x { PlainBodyHead(U0000, t, tail); }
    if U0000 <= t {
      PrefixSplits(U0000, t);
      PlainBodyIsPlain(U0000, t[5..]);
      Regroup(U0000, Body(t[5..]), tail);
      assert t[5..] == s[6..];
    }
  }

  lemma PrefixSplits(p: seq<cp>, t: seq<cp>)
    requires p <= t
    ensures t == p + t[|p|..]
  {
  }

  lemma DoubledReads(t: seq<cp>, s: seq<cp>, rest: seq<cp>)
    requires Reads(t, s, rest)
    ensures Reads([BACKSLASH, BACKSLASH] + t, [BACKSLASH] + s, rest)
  {
    assert DecodeChar([BACKSLASH, BACKSLASH] + t) == Some((BACKSLASH, 2));
    PrependChar([BACKSLASH, BACKSLASH], BACKSLASH, t, s, rest);
  }

  lemma Regroup(a: seq<cp>, b: seq<cp>, c: seq<cp>)
    ensures a + b + c == a + (b + c)
  {
  }

  lemma SpelledOutDecodes(y: seq<cp>, s: seq<cp>, rest: seq<cp>)
    requires Reads(y, s, rest)
    ensures Reads([BACKSLASH, BACKSLASH] + UFFFD + y, NEW_ESCAPE + s, rest)
  {
    PlainDecodes(UFFFD, y);
    DoubledReads(UFFFD + y, UFFFD + s, rest);
    Regroup([BACKSLASH, BACKSLASH], UFFFD, y);
    Regroup([BACKSLASH], UFFFD, s);
  }

  lemma {:induction false} PlainBodyIsPlain(a: seq<cp>, s: seq<cp>)
    requires AllPlain(a)
    ensures Body(a + s) == a + Body(s)
  {
    if a == [] {
      assert a + s == s && a + Body(s) == Body(s);
    } else {
      var c, rest := a[0], a[1..];
      assert c in a && forall x <- rest :: x in a;
      EscapeHead(c);
      PlainBodyIsPlain(rest, s);
      HeadAndTail(a, s);
      HeadAndTail(a, Body(s));
      assert Body(a + s) == [c] + Body(rest + s);
    }
  }

  // ------------------------------------------------------------ documents

  function NormalToks(doc: seq<Tok>): seq<Tok> {
    if doc == [] then []
    else [if doc[0].Raw? then doc[0] else Str(Normal(doc[0].s))] + NormalToks(doc[1..])
  }

  lemma StringDecodes(s: seq<cp>, rest: seq<cp>)
    requires forall c <- s :: !Surrogate(c)
    ensures var t := SecondPass([QUOTE] + Body(s) + [QUOTE] + rest);
            t != [] && t[0] == QUOTE && Reads(t[1..], Normal(s), SecondPass(rest))
  {
    var tail := [QUOTE] + rest;
    var p := [QUOTE] + Body(s) + [QUOTE] + rest;
    assert p == [QUOTE] + (Body(s) + tail) && p[1..] == Body(s) + tail;
    assert tail[1..] == rest;
    NoEscapeHere(p);
    SecondPassKeepsFirst(p);
    BodyDecodes(s, tail);
    assert SecondPass(p)[1..] == SecondPass(Body(s) + tail);
  }

  lemma {:induction false} PrintDecodes(doc: seq<Tok>)
    requires Structural(doc) && Accepted(doc)
    ensures Decode(SecondPass(Print(doc))) == Some(NormalToks(doc))
    decreases |doc|
  {
    if doc != [] {
      var rest := Print(doc[1..]);
      PrintDecodes(doc[1..]);
      match doc[0]
      case Raw(c) =>
        assert Print(doc)[1..] == rest;
        NoEscapeHere(Print(doc));
        SecondPassKeepsFirst(Print(doc));
      case Str(s) =>
        StringDecodes(s, rest);
    }
  }

  lemma {:induction false} SanitisedNormal(doc: seq<Tok>)
    ensures Structural(doc) ==> Structural(Sanitise(doc))
    ensures Accepted(Sanitise(doc)) && NormalToks(Sanitise(doc)) == NormalDoc(doc)
    ensures Accepted(doc) ==> Sanitise(doc) == doc
  {
    if doc != [] {
      SanitisedNormal(doc[1..]);
      assert Sanitise(doc)[1..] == Sanitise(doc[1..]);
      if Accepted(doc) {
        forall i | 0 <= i < |doc| && doc[i].Str?
          ensures ReplaceSurrogates(doc[i].s) == doc[i].s
        {
          assert forall j | 0 <= j < |doc[i].s| :: doc[i].s[j] in doc[i].s;
        }
      }
    }
  }

  /** Decoding the output gives back the document with every string in normal form: NUL has
      become U+FFFD, `\u0000` spelled out has become `\ufffd` spelled out, surrogates have
      become question marks, and nothing else has changed. */
  lemma DumpDecodes(doc: seq<Tok>)
    requires Structural(doc)
    ensures Decode(JsonDumpb(doc)) == Some(NormalDoc(doc))
  {
    DumpIsOnePass(doc);
    SanitisedNormal(doc);
    PrintDecodes(Sanitise(doc));
  }

  // ------------------------------------------------------------ no line breaks

  predicate NoControls(t: seq<cp>) { forall c <- t :: c >= 32 }

  lemma {:induction false} BodyNoControls(s: seq<cp>)
    ensures NoControls(Body(s))
  {
    if s != [] {
      BodyNoControls(s[1..]);
      EscapeNoControls(s[0]);
    }
  }

  lemma EscapeNoControls(c: cp)
    ensures NoControls(Escape(c))
  {
  }

  lemma {:induction false} PassNoControls(s: seq<cp>)
    requires NoControls(s)
    ensures NoControls(SecondPass(s))
    decreases |s|
  {
    if s == [] {
    } else if NUL_ESCAPE <= s {
      assert forall c <- s[6..] :: c in s;
      PassNoControls(s[6..]);
    } else {
      assert s[0] in s && forall c <- s[1..] :: c in s;
      PassNoControls(s[1..]);
    }
  }

  lemma {:induction false} PrintNoControls(doc: seq<Tok>)
    requires forall i | 0 <= i < |doc| && doc[i].Raw? :: doc[i].c >= 32
    ensures NoControls(Print(doc))
  {
    if doc != [] {
      PrintNoControls(doc[1..]);
      if doc[0].Str? { BodyNoControls(doc[0].s); }
    }
  }

  /** Compact JSON has no control character in its structure, hence none at all: the output
      fits on the data line of a server-sent event. */
  lemma DumpHasNoLineBreaks(doc: seq<Tok>)
    requires forall i | 0 <= i < |doc| && doc[i].Raw? :: doc[i].c >= 32
    ensures NoControls(JsonDumpb(doc))
  {
    DumpIsOnePass(doc);
    var d := if Accepted(doc) then doc else Sanitise(doc);
    PrintNoControls(d);
    PassNoControls(Print(d));
  }
}
