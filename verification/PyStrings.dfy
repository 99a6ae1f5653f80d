/** The string methods of Python that the models share. */
module PyStrings {
  /** What `str.strip()` strips. */
  predicate IsSpace(c: char) {
    var n := c as int;
    9 <= n <= 13 || 28 <= n <= 32 || n == 0x85 || n == 0xa0 || n == 0x1680 || 0x2000 <= n <= 0x200a
    || n == 0x2028 || n == 0x2029 || n == 0x202f || n == 0x205f || n == 0x3000
  }

  function RStrip(s: string): string {
    if s != [] && IsSpace(s[|s| - 1]) then RStrip(s[..|s| - 1]) else s
  }

  function LStrip(s: string): string {
    if s != [] && IsSpace(s[0]) then LStrip(s[1..]) else s
  }

  function Strip(s: string): string { LStrip(RStrip(s)) }

  predicate AllSpaces(s: string) { forall c <- s :: IsSpace(c) }

  lemma {:induction false} RStripRest(s: string) returns (trail: string)
    ensures AllSpaces(trail) && s == RStrip(s) + trail
  {
    trail := "";
    if s != "" && IsSpace(s[|s| - 1]) {
      var more := RStripRest(s[..|s| - 1]);
      trail := more + [s[|s| - 1]];
    }
  }

  lemma {:induction false} LStripRest(s: string) returns (lead: string)
    ensures AllSpaces(lead) && s == lead + LStrip(s)
  {
    lead := "";
    if s != "" && IsSpace(s[0]) {
      var more := LStripRest(s[1..]);
      lead := [s[0]] + more;
    }
  }

  lemma {:induction false} LStripKeepsEnd(s: string)
    requires s != "" && !IsSpace(s[|s| - 1])
    ensures LStrip(s) != "" && LStrip(s)[|LStrip(s)| - 1] == s[|s| - 1] && !IsSpace(LStrip(s)[0])
  {
    if IsSpace(s[0]) { LStripKeepsEnd(s[1..]); }
  }

  lemma {:induction false} RStripEnds(s: string)
    ensures RStrip(s) != "" ==> !IsSpace(RStrip(s)[|RStrip(s)| - 1])
  {
    if s != "" && IsSpace(s[|s| - 1]) { RStripEnds(s[..|s| - 1]); }
  }

  lemma {:induction false} RStripKeepsHead(s: string)
    requires s != "" && !IsSpace(s[0])
    ensures RStrip(s) != "" && RStrip(s)[0] == s[0]
  {
    if IsSpace(s[|s| - 1]) { RStripKeepsHead(s[..|s| - 1]); }
  }

  lemma RStripAppend(a: string, q: string)
    requires q != "" && !IsSpace(q[0])
    ensures RStrip(a + q) == a + RStrip(q)
  {
    var s := a + q;
    assert s[|s| - 1] == q[|q| - 1];
    if IsSpace(q[|q| - 1]) {
      assert s[..|s| - 1] == a + q[..|q| - 1];
      RStripAppend(a, q[..|q| - 1]);
    }
  }

  /** Stripping takes whitespace off both ends and leaves none there. */
  lemma StripIsExact(s: string) returns (lead: string, trail: string)
    ensures AllSpaces(lead) && AllSpaces(trail) && s == lead + Strip(s) + trail
    ensures Strip(s) != "" ==> !IsSpace(Strip(s)[0]) && !IsSpace(Strip(s)[|Strip(s)| - 1])
  {
    trail := RStripRest(s);
    lead := LStripRest(RStrip(s));
    RStripEnds(s);
    if RStrip(s) != "" { LStripKeepsEnd(RStrip(s)); }
  }

  lemma {:induction false} RStripped(s: string)
    requires s == "" || !IsSpace(s[|s| - 1])
    ensures RStrip(s) == s
  {
  }

  lemma {:induction false} LStripTwice(s: string)
    ensures LStrip(LStrip(s)) == LStrip(s)
  {
    if s != "" && IsSpace(s[0]) { LStripTwice(s[1..]); }
  }

  lemma StripTwice(s: string)
    ensures Strip(Strip(s)) == Strip(s)
  {
    RStripEnds(s);
    if RStrip(s) != "" { LStripKeepsEnd(RStrip(s)); }
    LStripTwice(RStrip(s));
  }

  /** What is stripped before and after it is put behind other text. */
  lemma StripBehind(front: string, s: string)
    requires front == "" || s == "" || !IsSpace(s[0])
    ensures Strip(front + Strip(s)) == Strip(front + s)
  {
    if front == "" {
      StripTwice(s);
      assert front + s == s && front + Strip(s) == Strip(s);
    } else if s != "" {
      RStripKeepsHead(s);
      assert Strip(s) == RStrip(s);
      RStripAppend(front, s);
      RStripAppend(front, RStrip(s));
      RStripEnds(s);
      RStripped(RStrip(s));
    }
  }

  /** The text without its whitespace. */
  function Squash(s: string): string {
    if s == "" then "" else if IsSpace(s[0]) then Squash(s[1..]) else [s[0]] + Squash(s[1..])
  }

  lemma {:induction false} SquashAppend(a: string, b: string)
    ensures Squash(a + b) == Squash(a) + Squash(b)
  {
    if a == "" {
      assert a + b == b;
    } else {
      assert (a + b)[1..] == a[1..] + b;
      SquashAppend(a[1..], b);
    }
  }

  lemma {:induction false} SquashRStrip(s: string)
    ensures Squash(RStrip(s)) == Squash(s)
  {
    if s != "" && IsSpace(s[|s| - 1]) {
      SquashRStrip(s[..|s| - 1]);
      assert s == s[..|s| - 1] + [s[|s| - 1]];
      SquashAppend(s[..|s| - 1], [s[|s| - 1]]);
    }
  }

  lemma {:induction false} SquashLStrip(s: string)
    ensures Squash(LStrip(s)) == Squash(s)
  {
    if s != "" && IsSpace(s[0]) { SquashLStrip(s[1..]); }
  }

  lemma SquashStrip(s: string)
    ensures Squash(Strip(s)) == Squash(s)
  {
    SquashRStrip(s);
    SquashLStrip(RStrip(s));
  }
}
