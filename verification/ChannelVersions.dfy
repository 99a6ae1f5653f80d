/** The channel versions of `backend/server/grpc_common/checkpointer.py`: a zero-padded
    counter, a dot and a random tail. */
module ChannelVersions {
  import opened Wrappers
  import opened Decimal
  import opened LexOrder

  /** What `get_next_version` is handed. */
  datatype Current = Missing | Number(n: int) | Text(text: string)

  const WIDTH: nat := 32

  function Zeros(n: nat): (s: string)
    ensures |s| == n && forall i | 0 <= i < n :: s[i] == '0'
  {
    if n == 0 then "" else Zeros(n - 1) + "0"
  }

  function PadTo(n: nat, width: nat): string {
    Zeros(if |Show(n)| < width then width - |Show(n)| else 0) + Show(n)
  }

  /** `f"{n:032}"`: zeroes go between the sign and the digits. */
  function Pad(n: int): string {
    if n < 0 then "-" + PadTo(-n, WIDTH - 1) else PadTo(n, WIDTH)
  }

  /** `text.split(".")[0]` */
  function Head(text: string): string {
    if text == "" || text[0] == '.' then "" else [text[0]] + Head(text[1..])
  }

  /** `int` on a string: digits after an optional sign. */
  function ParseInt(s: string): Option<int> {
    if s != "" && AllDigits(s) then Some(Read(s))
    else if |s| > 1 && s[0] == '-' && AllDigits(s[1..]) then Some(0 - Read(s[1..]))
    else if |s| > 1 && s[0] == '+' && AllDigits(s[1..]) then Some(Read(s[1..]))
    else None
  }

  function ValueOf(current: Current): Option<int> {
    match current
    case Missing => Some(0)
    case Number(n) => Some(n)
    case Text(text) => ParseInt(Head(text))
  }

  /** `get_next_version` where the random tail prints as `tail`; `None` is `int`'s error. */
  function NextVersion(current: Current, tail: string): Option<string> {
    match ValueOf(current)
    case None => None
    case Some(n) => Some(Version(n + 1, tail))
  }

  function Version(n: int, tail: string): string { Pad(n) + ("." + tail) }

  function Latest(versions: seq<string>): Current {
    if versions == [] then Missing else Text(versions[|versions| - 1])
  }

  /** The versions one channel goes through, one random tail each. */
  function Chain(tails: seq<string>): Option<seq<string>> {
    if tails == [] then Some([])
    else
      var k := |tails| - 1;
      match Chain(tails[..k])
      case None => None
      case Some(before) =>
        match NextVersion(Latest(before), tails[k])
        case None => None
        case Some(next) => Some(before + [next])
  }

  // ------------------------------------------------------------ reading a version back

  lemma {:induction false} ReadPadded(n: nat, s: string)
    requires AllDigits(s)
    ensures Read(Zeros(n) + s) == Read(s)
  {
    if s != "" {
      ReadPadded(n, s[..|s| - 1]);
      assert (Zeros(n) + s)[..n + |s| - 1] == Zeros(n) + s[..|s| - 1];
    } else {
      assert Zeros(n) + s == Zeros(n);
      ReadZeros(n);
    }
  }

  lemma {:induction false} ReadZeros(n: nat)
    ensures Read(Zeros(n)) == 0
  {
    if n > 0 {
      ReadZeros(n - 1);
      assert Zeros(n)[..n - 1] == Zeros(n - 1);
    }
  }

  lemma {:induction false} HeadStopsAtDot(text: string, rest: string)
    requires '.' !in text
    ensures Head(text + ("." + rest)) == text
  {
    if text != "" {
      assert (text + ("." + rest))[1..] == text[1..] + ("." + rest);
      HeadStopsAtDot(text[1..], rest);
    }
  }

  lemma {:induction false} NoDotInDigits(s: string)
    requires AllDigits(s)
    ensures '.' !in s
  {
  }

  lemma PadReads(n: nat)
    ensures '.' !in Pad(n) && ParseInt(Pad(n)) == Some(n)
  {
    PadDigits(n, WIDTH);
    NoDotInDigits(Pad(n));
  }

  lemma PadOfNegative(n: int)
    requires n < 0
    ensures Pad(n) == "-" + PadTo(-n, WIDTH - 1)
  {
  }

  lemma PadReadsNegative(n: int)
    requires n < 0
    ensures '.' !in Pad(n) && ParseInt(Pad(n)) == Some(n)
  {
    PadDigits(-n, WIDTH - 1);
    PadOfNegative(n);
    ParseNegative(Pad(n), PadTo(-n, WIDTH - 1), n);
  }

  lemma ParseNegative(text: string, digits: string, n: int)
    requires text == "-" + digits && digits != "" && AllDigits(digits) && Read(digits) == 0 - n
    ensures '.' !in text && ParseInt(text) == Some(n)
  {
    NoDotInDigits(digits);
    assert text[0] == '-' && text[1..] == digits;
  }

  /** A version reads back as its counter, whatever its random tail. */
  lemma VersionReads(n: int, tail: string)
    ensures ValueOf(Text(Version(n, tail))) == Some(n)
  {
    if n < 0 { PadReadsNegative(n); } else { PadReads(n); }
    HeadStopsAtDot(Pad(n), tail);
  }

  /** Whatever the current version is, the next one reads as its counter plus one and has the tail
      behind the dot: after nothing it is one, after a number the number plus one, and after a text
      the number before its first dot plus one; a text without a number there is an error. */
  lemma NextCountsOn(current: Current, tail: string)
    ensures NextVersion(current, tail).None? <==> current.Text? && ParseInt(Head(current.text)).None?
    ensures NextVersion(current, tail).Some? ==>
              var next := NextVersion(current, tail).value;
              && next == Head(next) + ("." + tail)
              && ParseInt(Head(next)) == Some(1 + match current
                                              case Missing => 0
                                              case Number(n) => n
                                              case Text(text) => ParseInt(Head(text)).value)
  {
    if ValueOf(current).Some? {
      var n := ValueOf(current).value + 1;
      VersionReads(n, tail);
      if n < 0 { PadReadsNegative(n); } else { PadReads(n); }
      HeadStopsAtDot(Pad(n), tail);
    }
  }

  /** The versions for 1, 2, 3, ... with these tails. */
  function Numbered(tails: seq<string>): seq<string> {
    if tails == [] then [] else Numbered(tails[..|tails| - 1]) + [Version(|tails|, tails[|tails| - 1])]
  }

  lemma {:induction false} NumberedAt(tails: seq<string>, k: nat)
    requires k < |tails|
    ensures |Numbered(tails)| == |tails| && Numbered(tails)[k] == Version(k + 1, tails[k])
  {
    var front := tails[..|tails| - 1];
    NumberedLength(front);
    if k < |front| { NumberedAt(front, k); }
  }

  lemma {:induction false} NumberedLength(tails: seq<string>)
    ensures |Numbered(tails)| == |tails|
  {
    if tails != [] { NumberedLength(tails[..|tails| - 1]); }
  }

  /** Reading the latest of the chain and printing the next number never fails. */
  lemma {:induction false} ChainIsNumbered(tails: seq<string>)
    ensures Chain(tails) == Some(Numbered(tails))
  {
    if tails != [] {
      var front := tails[..|tails| - 1];
      ChainIsNumbered(front);
      LatestReads(front);
    }
  }

  lemma LatestReads(tails: seq<string>)
    ensures ValueOf(Latest(Numbered(tails))) == Some(|tails|)
  {
    NumberedLength(tails);
    if tails != [] { VersionReads(|tails|, tails[|tails| - 1]); }
  }

  /** A chain never fails, and its k-th version reads back as the integer k. */
  lemma ChainCounts(tails: seq<string>, k: nat)
    requires k < |tails|
    ensures Chain(tails).Some? && |Chain(tails).value| == |tails|
    ensures ValueOf(Text(Chain(tails).value[k])) == Some(k + 1)
  {
    ChainIsNumbered(tails);
    NumberedAt(tails, k);
    VersionReads(k + 1, tails[k]);
  }

  // ------------------------------------------------------------ order

  /** Digit strings of one length are ordered as their values, whatever follows them. */
  lemma {:induction false} DigitsOrder(a: string, b: string, x: string, y: string)
    requires AllDigits(a) && AllDigits(b) && |a| == |b|
    ensures Read(a) < Read(b) ==> LexLess(a + x, b + y)
    ensures Read(a) == Read(b) ==> a == b
  {
    if a != "" {
      var n := |a| - 1;
      var a', ca, b', cb := a[..n], a[n], b[..n], b[n];
      assert a == a' + [ca] && b == b' + [cb];
      DigitsOrder(a', b', [ca] + x, [cb] + y);
      assert a + x == a' + ([ca] + x) && b + y == b' + ([cb] + y);
      if Read(a') == Read(b') { LexSharedHead(a', [ca] + x, [cb] + y); }
      assert ca != cb ==> ([ca] + x)[0] != ([cb] + y)[0] && (a + x)[n] != (b + y)[n];
    }
  }

  function Pow10(k: nat): (p: nat)
    ensures p >= 1
  {
    if k == 0 then 1 else 10 * Pow10(k - 1)
  }

  lemma {:induction false} ShowLength(n: nat, k: nat)
    requires k >= 1
    ensures |Show(n)| <= k <==> n < Pow10(k)
  {
    if k == 1 {
      assert Pow10(1) == 10 * Pow10(0);
    } else if n >= 10 {
      ShowLength(n / 10, k - 1);
    }
  }

  /** Counters padded to one length are ordered, whatever their random tails. */
  lemma SameLengthOrder(m: nat, n: nat, x: string, y: string)
    requires m < n && |Pad(m)| == |Pad(n)|
    ensures LexLess(Version(m, x), Version(n, y))
  {
    PadDigits(m, WIDTH);
    PadDigits(n, WIDTH);
    DigitsOrder(Pad(m), Pad(n), "." + x, "." + y);
  }

  lemma PadDigits(n: nat, width: nat)
    ensures AllDigits(PadTo(n, width)) && Read(PadTo(n, width)) == n
    ensures |PadTo(n, width)| == if |Show(n)| < width then width else |Show(n)|
  {
    ReadPadded(if |Show(n)| < width then width - |Show(n)| else 0, Show(n));
    ReadShow(n);
  }

  /** Where the next number is longer, this one starts with a nine and the next with a one. */
  lemma {:induction false} CarryToTheTop(n: nat)
    ensures |Show(n)| <= |Show(n + 1)| <= |Show(n)| + 1
    ensures |Show(n)| < |Show(n + 1)| ==> Show(n)[0] == '9' && Show(n + 1)[0] == '1'
  {
    if n >= 10 {
      CarryToTheTop(n / 10);
      if n % 10 < 9 {
        assert (n + 1) / 10 == n / 10;
      } else {
        assert (n + 1) / 10 == n / 10 + 1;
      }
    } else if n == 9 {
      assert Show(10) == Show(1) + [Digit(0)];
    }
  }

  /** The next version sorts after this one exactly while the counter fits its 32 digits,
      or does not gain a digit. */
  lemma NextSortsAfterIff(n: nat, x: string, y: string)
    ensures LexLess(Version(n, x), Version(n + 1, y))
       <==> n + 1 < Pow10(WIDTH) || |Show(n + 1)| == |Show(n)|
  {
    ShowLength(n + 1, WIDTH);
    SortsAfterByLength(n, x, y);
  }

  lemma SortsAfterByLength(n: nat, x: string, y: string)
    ensures LexLess(Version(n, x), Version(n + 1, y))
       <==> |Show(n + 1)| <= WIDTH || |Show(n + 1)| == |Show(n)|
  {
    CarryToTheTop(n);
    PadDigits(n, WIDTH);
    PadDigits(n + 1, WIDTH);
    if |Pad(n)| == |Pad(n + 1)| {
      SameLengthOrder(n, n + 1, x, y);
    } else {
      FirstDigit(n, x);
      FirstDigit(n + 1, y);
    }
  }

  lemma FirstDigit(n: nat, tail: string)
    requires |Show(n)| >= WIDTH
    ensures Version(n, tail) != "" && Version(n, tail)[0] == Show(n)[0]
  {
    assert Pad(n) == Show(n);
  }

  lemma FittingOrder(m: nat, n: nat, x: string, y: string)
    requires m < n < Pow10(WIDTH)
    ensures LexLess(Version(m, x), Version(n, y))
  {
    ShowLength(m, WIDTH);
    ShowLength(n, WIDTH);
    PadDigits(m, WIDTH);
    PadDigits(n, WIDTH);
    SameLengthOrder(m, n, x, y);
  }

  lemma OrderOfEqual(a: string, b: string, m: nat, n: nat, x: string, y: string)
    requires m < n < Pow10(WIDTH) && a == Version(m, x) && b == Version(n, y)
    ensures LexLess(a, b)
  {
    FittingOrder(m, n, x, y);
  }

  /** Below ten to the 32 versions a chain is strictly increasing as text. */
  lemma ChainIncreases(tails: seq<string>, i: nat, j: nat)
    requires i < j < |tails| < Pow10(WIDTH)
    ensures Chain(tails).Some? && |Chain(tails).value| == |tails|
    ensures LexLess(Chain(tails).value[i], Chain(tails).value[j])
  {
    ChainIsNumbered(tails);
    NumberedAt(tails, i);
    NumberedAt(tails, j);
    var versions := Numbered(tails);
    OrderOfEqual(versions[i], versions[j], i + 1, j + 1, tails[i], tails[j]);
  }
}
