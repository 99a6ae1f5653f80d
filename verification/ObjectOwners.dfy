/** Which owners of the object store can come to share a key. */
module ObjectOwners {
  import opened Wrappers
  import opened PyStrings
  import opened ObjectKeys

  /** Some path of the one owner and some path of the other have the same key. */
  ghost predicate ShareKey(x: string, y: string) {
    exists p: string, q: string ::
      KeyForVirtualPath(p, Some(x), None).Some?
      && KeyForVirtualPath(p, Some(x), None) == KeyForVirtualPath(q, Some(y), None)
  }

  predicate Names(area: string, m: string) { m == area || area + "/" <= m }

  /** `y` spells the key of the area, or of a directory in it, that `x` would have. */
  ghost predicate Nested(x: string, y: string) {
    exists area: string, m: string ::
      area in AREA_ROOTS && y == x + "/" + AREA_ROOTS[area] + "/" + m && NormalForm(m) && Names(area, m)
  }

  // ------------------------------------------------------------ joining normal forms

  lemma {:induction false} JoinAppend(a: seq<string>, b: seq<string>)
    requires a != [] && b != []
    ensures JoinSlash(a + b) == JoinSlash(a) + "/" + JoinSlash(b)
  {
    if |a| == 1 {
      assert (a + b)[1..] == b;
    } else {
      assert (a + b)[1..] == a[1..] + b;
      JoinAppend(a[1..], b);
      Regroup(a[0], JoinSlash(a[1..]), JoinSlash(b));
    }
  }

  lemma Regroup(a: string, b: string, c: string)
    ensures a + "/" + b + "/" + c == a + "/" + (b + "/" + c)
  {
  }

  lemma NormalJoin(a: string, b: string)
    requires NormalForm(a) && NormalForm(b)
    ensures NormalForm(a + "/" + b)
  {
    PartsAt(a, b);
    JoinAppend(Parts(a), Parts(b));
  }

  /** The front of a normal form, cut at a slash, is normal. */
  lemma NormalFront(m: string, t: string)
    requires NormalForm(m + "/" + t)
    ensures NormalForm(m)
  {
    var pm, pt := Parts(m), Parts(t);
    PartsAt(m, t);
    JoinPartsShort(m);
    JoinPartsShort(t);
    EmptySides(pm, pt);
    if pm != [] && pt != [] {
      JoinAppend(pm, pt);
      SameCut(m, t, JoinSlash(pm), JoinSlash(pt));
    }
  }

  lemma EmptySides(a: seq<string>, b: seq<string>)
    ensures a == [] ==> a + b == b
    ensures b == [] ==> a + b == a
  {
  }

  lemma SameCut(a: string, b: string, c: string, d: string)
    requires a + "/" + b == c + "/" + d && |c| <= |a| && |d| <= |b|
    ensures a == c && b == d
  {
    var s := a + "/" + b;
    assert |a| == |c|;
    assert a == s[..|a|] && c == s[..|c|];
    assert b == s[|a| + 1..] && d == s[|c| + 1..];
  }

  // ------------------------------------------------------------ sharing implies nesting

  lemma OwnerIsPrefix(x: string, y: string, u: string, v: string)
    requires x + "/" + u == y + "/" + v && |x| < |y|
    ensures |x| + 1 <= |y| && y == x + "/" + y[|x| + 1..] && u == y[|x| + 1..] + "/" + v
  {
    var s := x + "/" + u;
    assert s[..|y|] == y;
    assert s[..|x|] == x && y[..|x|] == s[..|x|];
    assert y[|x|] == s[|x|] == '/';
    assert s[|x| + 1..] == u;
    assert (y + "/" + v)[|x| + 1..] == y[|x| + 1..] + "/" + v;
  }

  lemma {:induction false} FirstSlashWithin(a: string, b: string)
    ensures FirstSlash(a + "/" + b) <= |a|
  {
    if a != "" && a[0] != '/' {
      assert (a + "/" + b)[1..] == a[1..] + "/" + b;
      FirstSlashWithin(a[1..], b);
    }
  }

  /** A segment in front of `rest` ends at the first slash, so a text that is cut further back
      starts with that segment. */
  lemma CutAfterSegment(segment: string, rest: string, t: string, v: string)
    requires '/' !in segment && segment + "/" + rest == t + "/" + v
    ensures if t == segment then v == rest
            else |t| > |segment| && t == segment + "/" + t[|segment| + 1..] && rest == t[|segment| + 1..] + "/" + v
  {
    FirstSlashAt(segment, rest);
    FirstSlashWithin(t, v);
    if |t| == |segment| {
      SameCut(segment, rest, t, v);
    } else {
      OwnerIsPrefix(segment, t, rest, v);
    }
  }

  lemma RootIsNoArea(area: string)
    requires area in AREA_ROOTS
    ensures AREA_ROOTS[area] !in AREA_ROOTS
  {
  }

  lemma AreaOfFront(m: string, t: string)
    requires Partition(m + "/" + t).0 in AREA_ROOTS
    ensures Names(Partition(m + "/" + t).0, m)
  {
    var s := m + "/" + t;
    var area := Partition(s).0;
    var n := FirstSlash(s);
    FirstSlashWithin(m, t);
    assert area == s[..n] == m[..n];
    if n < |m| {
      assert m[n] == s[n] == '/';
      assert m[..n + 1] == area + "/";
    }
  }

  lemma KeyWithoutUsers(owner: string, rel: string)
    requires InArea(rel)
    ensures KeyOf(owner, rel) == "users/" + (owner + "/" + (AREA_ROOTS[Partition(rel).0] + "/" + rel))
  {
  }

  lemma UsersCancels(a: string, b: string)
    requires "users/" + a == "users/" + b
    ensures a == b
  {
    assert a == ("users/" + a)[6..] && b == ("users/" + b)[6..];
  }

  lemma LongerOwnerIsNested(x: string, y: string, a: string, b: string)
    requires InArea(a) && InArea(b) && NormalForm(a) && KeyOf(x, a) == KeyOf(y, b) && |x| < |y|
    ensures Nested(x, y)
  {
    var area := Partition(a).0;
    var ra, rb := AREA_ROOTS[area], AREA_ROOTS[Partition(b).0];
    KeyWithoutUsers(x, a);
    KeyWithoutUsers(y, b);
    UsersCancels(x + "/" + (ra + "/" + a), y + "/" + (rb + "/" + b));
    OwnerIsPrefix(x, y, ra + "/" + a, rb + "/" + b);
    var t := y[|x| + 1..];
    RootsHaveNoSlash(area);
    RootsHaveNoSlash(Partition(b).0);
    CutAfterSegment(ra, a, t, rb + "/" + b);
    if t == ra && rb + "/" + b == a {
      PartitionAt(rb, b);
      RootIsNoArea(Partition(b).0);
      assert false;
    }
    var m := t[|ra| + 1..];
    NormalFront(m, rb + "/" + b);
    AreaOfFront(m, rb + "/" + b);
    NestedBy(x, y, area, m, t);
  }

  lemma NestedBy(x: string, y: string, area: string, m: string, t: string)
    requires area in AREA_ROOTS && NormalForm(m) && Names(area, m)
    requires t == AREA_ROOTS[area] + "/" + m && y == x + "/" + t
    ensures Nested(x, y)
  {
    Regroup(x, AREA_ROOTS[area], m);
  }

  /** Paths with the same key have the same owner and the same normal form, or owners of which
      one is nested in the other. */
  lemma EqualKeys(p: string, s: Option<string>, sa: Option<string>, q: string, t: Option<string>, ta: Option<string>)
    requires KeyForVirtualPath(p, s, sa).Some? && KeyForVirtualPath(p, s, sa) == KeyForVirtualPath(q, t, ta)
    ensures var x, y := Owner(s, sa), Owner(t, ta);
            if x == y then SafeRelative(p) == SafeRelative(q) else Nested(x, y) || Nested(y, x)
  {
    var x, y := Owner(s, sa), Owner(t, ta);
    VirtualKey(p, s, sa);
    VirtualKey(q, t, ta);
    SafeIsNormal(p);
    SafeIsNormal(q);
    var a, b := SafeRelative(p).value, SafeRelative(q).value;
    if |x| < |y| {
      LongerOwnerIsNested(x, y, a, b);
    } else if |y| < |x| {
      LongerOwnerIsNested(y, x, b, a);
    } else {
      SameLengthOwners(x, y, a, b);
      SameOwnerSameRel(x, a, b);
    }
  }

  lemma SameLengthOwners(x: string, y: string, a: string, b: string)
    requires InArea(a) && InArea(b) && KeyOf(x, a) == KeyOf(y, b) && |x| == |y|
    ensures x == y
  {
    assert KeyOf(x, a)[6..6 + |x|] == x && KeyOf(y, b)[6..6 + |y|] == y;
  }

  // ------------------------------------------------------------ nesting implies sharing

  /** A normal path in an area that does not end in whitespace keeps its form. */
  lemma NormalPathKey(owner: string, rel: string)
    requires owner != "" && NormalForm(rel) && InArea(rel) && rel != "" && !IsSpace(rel[|rel| - 1])
    ensures KeyForVirtualPath("/" + rel, Some(owner), None) == Some(KeyOf(owner, rel))
  {
    NormalIsFixed(rel);
    VirtualKey("/" + rel, Some(owner), None);
  }

  lemma SegmentIsNormal(s: string)
    requires Segment(s) && s != "." && s != ".." && '\\' !in s
    ensures NormalForm(s)
  {
    SegmentParts(s);
  }

  lemma FrontNames(area: string, m: string, t: string)
    requires area in AREA_ROOTS && Names(area, m) && t != ""
    ensures InArea(m + "/" + t) && Partition(m + "/" + t).0 == area
  {
    RootsHaveNoSlash(area);
    if m == area {
      PartitionAt(area, t);
    } else {
      var rest := m[|area| + 1..];
      assert m == area + "/" + rest;
      Regroup(area, rest, t);
      PartitionAt(area, rest + "/" + t);
    }
  }

  /** A file in a root, and in a normal directory in front of it. */
  lemma FileIsNormal(m: string, other: string, name: string)
    requires NormalForm(m) && other in AREA_ROOTS && NormalForm(name)
    ensures NormalForm(other + "/" + name)
    ensures NormalForm(m + "/" + (AREA_ROOTS[other] + "/" + (other + "/" + name)))
  {
    var root := AREA_ROOTS[other];
    RootsHaveNoSlash(other);
    SegmentIsNormal(other);
    SegmentIsNormal(root);
    NormalJoin(other, name);
    NormalJoin(root, other + "/" + name);
    NormalJoin(m, root + "/" + (other + "/" + name));
  }

  lemma SameLast(front: string, s: string)
    requires s != ""
    ensures (front + "/" + s)[|front + "/" + s| - 1] == s[|s| - 1]
  {
  }

  lemma NestedFileKey(x: string, area: string, m: string, tail: string)
    requires x != "" && area in AREA_ROOTS && Names(area, m) && NormalForm(m + "/" + tail)
    requires tail != "" && !IsSpace(tail[|tail| - 1])
    ensures KeyForVirtualPath("/" + (m + "/" + tail), Some(x), None)
         == Some("users/" + (x + "/" + (AREA_ROOTS[area] + "/" + (m + "/" + tail))))
  {
    FrontNames(area, m, tail);
    SameLast(m, tail);
    NormalPathKey(x, m + "/" + tail);
    KeyWithoutUsers(x, m + "/" + tail);
  }

  /** A file beneath the directory that the longer owner spells: `m/root/file` for the shorter
      owner is `file` for the longer one. */
  lemma SlashOwnersCollide(x: string, y: string, area: string, m: string, other: string, name: string)
    requires x != "" && area in AREA_ROOTS && other in AREA_ROOTS
    requires y == x + "/" + AREA_ROOTS[area] + "/" + m && NormalForm(m) && Names(area, m)
    requires NormalForm(name) && name != "" && !IsSpace(name[|name| - 1])
    ensures var file := other + "/" + name;
            KeyForVirtualPath("/" + file, Some(y), None).Some?
            && KeyForVirtualPath("/" + (m + "/" + (AREA_ROOTS[other] + "/" + file)), Some(x), None)
            == KeyForVirtualPath("/" + file, Some(y), None)
  {
    var root, file := AREA_ROOTS[other], other + "/" + name;
    FileIsNormal(m, other, name);
    SameLast(other, name);
    SameLast(root, file);
    NestedFileKey(y, other, other, name);
    NestedFileKey(x, area, m, root + "/" + file);
    SameText(x, AREA_ROOTS[area], m, root + "/" + file);
  }

  lemma SameText(x: string, root: string, m: string, tail: string)
    ensures x + "/" + (root + "/" + (m + "/" + tail)) == (x + "/" + root + "/" + m) + "/" + tail
  {
  }

  lemma NestedShare(x: string, y: string)
    requires x != "" && Nested(x, y)
    ensures ShareKey(x, y) && ShareKey(y, x)
  {
    var area, m :| area in AREA_ROOTS && y == x + "/" + AREA_ROOTS[area] + "/" + m && NormalForm(m) && Names(area, m);
    var name := "f";
    SegmentIsNormal(name);
    SlashOwnersCollide(x, y, area, m, area, name);
    var file := area + "/" + name;
    ShareBy(x, y, "/" + (m + "/" + (AREA_ROOTS[area] + "/" + file)), "/" + file);
  }

  lemma ShareBy(x: string, y: string, p: string, q: string)
    requires KeyForVirtualPath(q, Some(y), None).Some?
    requires KeyForVirtualPath(p, Some(x), None) == KeyForVirtualPath(q, Some(y), None)
    ensures ShareKey(x, y) && ShareKey(y, x)
  {
  }

  /** Different owners can share a key exactly when one of them is the other followed by the
      root and the name of an area, or of a directory in it. */
  lemma OwnersShareKeyIff(x: string, y: string)
    requires x != "" && y != "" && x != y
    ensures ShareKey(x, y) <==> Nested(x, y) || Nested(y, x)
  {
    if ShareKey(x, y) {
      var p, q :| KeyForVirtualPath(p, Some(x), None).Some?
                  && KeyForVirtualPath(p, Some(x), None) == KeyForVirtualPath(q, Some(y), None);
      EqualKeys(p, Some(x), None, q, Some(y), None);
    }
    if Nested(x, y) { NestedShare(x, y); }
    if Nested(y, x) { NestedShare(y, x); }
  }

  /** Owners without a slash never share a key. */
  lemma SlashFreeOwnersDoNotShare(x: string, y: string)
    requires x != "" && y != "" && x != y && '/' !in x && '/' !in y
    ensures !ShareKey(x, y)
  {
    OwnersShareKeyIff(x, y);
    if Nested(x, y) { NestedHasSlash(x, y); }
    if Nested(y, x) { NestedHasSlash(y, x); }
  }

  lemma NestedHasSlash(x: string, y: string)
    requires Nested(x, y)
    ensures '/' in y
  {
    var area, m :| area in AREA_ROOTS && y == x + "/" + AREA_ROOTS[area] + "/" + m && NormalForm(m) && Names(area, m);
    assert y[|x|] == '/';
  }
}
