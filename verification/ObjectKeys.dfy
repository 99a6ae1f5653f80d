/**
  The mapping between virtual paths and object keys: `object_storage.py` and `object_scope`
  of `scope.py` in `backend/agents/career_agent`. The identity found in the run's
  configuration is the parameter `ambient`.
 */
module ObjectKeys {
  import opened PyStrings
  import opened Wrappers

  const DEFAULT_SCOPE := "default"
  const CAREER := "career_agent"
  const ANALYTICS := "analytics_agent"

  const AREA_ROOTS: map<string, string> :=
    map["upload" := CAREER, "tailored_resume" := CAREER, "interview_battlecard" := CAREER,
        "charts" := ANALYTICS, "reports" := ANALYTICS]

  // ------------------------------------------------------------ string operations

  function DropSlashes(s: string): string {
    if s != [] && s[0] == '/' then DropSlashes(s[1..]) else s
  }

  function FirstSlash(s: string): (n: nat)
    ensures n <= |s| && '/' !in s[..n] && (n < |s| ==> s[n] == '/')
  {
    if s == [] || s[0] == '/' then 0
    else
      var n := 1 + FirstSlash(s[1..]);
      assert s[..n] == [s[0]] + s[1..][..n - 1];
      n
  }

  function Split(s: string): seq<string>
    decreases |s|
  {
    var n := FirstSlash(s);
    if n == |s| then [s] else [s[..n]] + Split(s[n + 1..])
  }

  function JoinSlash(parts: seq<string>): string {
    if parts == [] then "" else if |parts| == 1 then parts[0] else parts[0] + "/" + JoinSlash(parts[1..])
  }

  /** `str.partition("/")` without the separator itself. */
  function Partition(s: string): (string, string) {
    var n := FirstSlash(s);
    if n == |s| then (s, "") else (s[..n], s[n + 1..])
  }

  predicate Kept(part: string) { part != "" && part != "." }

  function KeepParts(parts: seq<string>): seq<string> {
    if parts == [] then [] else (if Kept(parts[0]) then [parts[0]] else []) + KeepParts(parts[1..])
  }

  /** `PurePosixPath(s).parts` for a relative path: empty and `.` components disappear. */
  function Parts(s: string): seq<string> { KeepParts(Split(s)) }

  // ------------------------------------------------------------ the key builders

  /** `_safe_relative` */
  function SafeRelative(path: string): Option<string> {
    var rel := DropSlashes(Strip(path));
    if rel == "" || '\\' in rel || rel[0] == '~' then None
    else
      var parts := Parts(rel);
      if parts == [] || ".." in parts || "." in parts then None else Some(JoinSlash(parts))
  }

  function OrDefault(identity: Option<string>): string {
    if identity.None? || identity.value == "" then DEFAULT_SCOPE else identity.value
  }

  /** Whose keys the builders build. */
  function Owner(scope: Option<string>, ambient: Option<string>): string {
    OrDefault(if scope.None? then ambient else scope)
  }

  function ObjectScope(scope: Option<string>, ambient: Option<string>, root: string): string {
    "users/" + Owner(scope, ambient) + "/" + root
  }

  function KeyForArea(area: string, path: string, scope: Option<string>, ambient: Option<string>): Option<string> {
    var rel := SafeRelative(path);
    if rel.None? || area !in AREA_ROOTS then None
    else Some(ObjectScope(scope, ambient, AREA_ROOTS[area]) + "/" + area + "/" + rel.value)
  }

  function KeyForVirtualPath(path: string, scope: Option<string>, ambient: Option<string>): Option<string> {
    var rel := SafeRelative(path);
    if rel.None? then None
    else
      var (area, remainder) := Partition(rel.value);
      if area !in AREA_ROOTS || remainder == "" then None
      else Some(ObjectScope(scope, ambient, AREA_ROOTS[area]) + "/" + rel.value)
  }

  /** `virtual_path_for_key` does not look at the run's configuration. */
  function VirtualPathForKey(key: string, scope: Option<string>): Option<string> {
    var prefix := "users/" + OrDefault(scope) + "/";
    if !(prefix <= key) then None
    else
      var (root, rel) := Partition(key[|prefix|..]);
      var (area, remainder) := Partition(rel);
      if remainder == "" || area !in AREA_ROOTS || AREA_ROOTS[area] != root then None
      else Some("/" + rel)
  }

  // ------------------------------------------------------------ splitting and joining

  predicate Segment(s: string) { s != "" && '/' !in s }

  lemma {:induction false} FirstSlashAt(a: string, b: string)
    requires '/' !in a
    ensures FirstSlash(a + "/" + b) == |a|
  {
    var s := a + "/" + b;
    if a != "" {
      assert s[0] == a[0] && a[0] in a && s[1..] == a[1..] + "/" + b;
      FirstSlashAt(a[1..], b);
    }
  }

  lemma {:induction false} NoSlash(s: string)
    requires '/' !in s
    ensures FirstSlash(s) == |s|
  {
    if s != "" {
      assert s[0] in s;
      NoSlash(s[1..]);
    }
  }

  lemma PartitionAt(a: string, b: string)
    requires '/' !in a
    ensures Partition(a + "/" + b) == (a, b)
  {
    FirstSlashAt(a, b);
    var s := a + "/" + b;
    assert s[..|a|] == a && s[|a| + 1..] == b;
  }

  lemma SplitOne(a: string, b: string)
    requires '/' !in a
    ensures Split(a + "/" + b) == [a] + Split(b)
  {
    FirstSlashAt(a, b);
    var s := a + "/" + b;
    assert s[..|a|] == a && s[|a| + 1..] == b;
  }

  lemma Recombine(a: string, n: nat, b: string)
    requires n < |a| && a[n] == '/'
    ensures a == a[..n] + "/" + a[n + 1..]
    ensures a + "/" + b == a[..n] + "/" + (a[n + 1..] + "/" + b)
  {
  }

  lemma {:induction false} SplitAt(a: string, b: string)
    ensures Split(a + "/" + b) == Split(a) + Split(b)
    decreases |a|
  {
    var n := FirstSlash(a);
    if n == |a| {
      assert a[..n] == a;
      SplitOne(a, b);
    } else {
      var tail := a[n + 1..];
      Recombine(a, n, b);
      SplitOne(a[..n], tail + "/" + b);
      SplitAt(tail, b);
      assert [a[..n]] + (Split(tail) + Split(b)) == ([a[..n]] + Split(tail)) + Split(b);
    }
  }

  lemma {:induction false} KeepAppend(a: seq<string>, b: seq<string>)
    ensures KeepParts(a + b) == KeepParts(a) + KeepParts(b)
  {
    if a == [] {
      assert a + b == b;
    } else {
      assert (a + b)[1..] == a[1..] + b;
      KeepAppend(a[1..], b);
    }
  }

  lemma PartsAt(a: string, b: string)
    ensures Parts(a + "/" + b) == Parts(a) + Parts(b)
  {
    SplitAt(a, b);
    KeepAppend(Split(a), Split(b));
  }

  lemma SegmentParts(s: string)
    requires '/' !in s
    ensures Parts(s) == if Kept(s) then [s] else []
  {
    NoSlash(s);
    assert Split(s) == [s] && [s][1..] == [];
    assert KeepParts([s]) == (if Kept(s) then [s] else []) + KeepParts([]);
  }

  lemma {:induction false} PartsAreSegments(s: string)
    ensures forall p <- Parts(s) :: Segment(p) && p != "."
    decreases |s|
  {
    var n := FirstSlash(s);
    if n == |s| {
      assert s[..n] == s;
      SegmentParts(s);
    } else {
      PartsAreSegments(s[n + 1..]);
      assert s == s[..n] + "/" + s[n + 1..];
      PartsAt(s[..n], s[n + 1..]);
      SegmentParts(s[..n]);
    }
  }

  predicate Segments(parts: seq<string>) {
    forall i | 0 <= i < |parts| :: Segment(parts[i]) && parts[i] != "."
  }

  lemma {:induction false} PartsOfJoin(parts: seq<string>)
    requires Segments(parts)
    ensures Parts(JoinSlash(parts)) == parts
  {
    if parts == [] {
      SegmentParts("");
    } else if |parts| == 1 {
      SegmentParts(parts[0]);
    } else {
      PartsOfJoin(parts[1..]);
      PartsAt(parts[0], JoinSlash(parts[1..]));
      SegmentParts(parts[0]);
    }
  }

  lemma {:induction false} PartsIgnoreLeadingSlashes(s: string)
    ensures Parts(DropSlashes(s)) == Parts(s)
  {
    if s != [] && s[0] == '/' {
      PartsIgnoreLeadingSlashes(s[1..]);
      assert s == "" + "/" + s[1..];
      PartsAt("", s[1..]);
      SegmentParts("");
    }
  }

  // ------------------------------------------------------------ normal forms

  /** What the builders make of a path: segments joined by single slashes. */
  predicate NormalForm(rel: string) {
    var parts := Parts(rel);
    parts != [] && rel == JoinSlash(parts) && ".." !in parts && '\\' !in rel
  }

  lemma {:induction false} JoinChars(parts: seq<string>, s: string)
    requires forall p <- parts :: forall c <- p :: c in s
    ensures forall c <- JoinSlash(parts) :: c in s || c == '/'
  {
    if |parts| > 1 {
      assert parts[0] in parts && forall p <- parts[1..] :: p in parts;
      JoinChars(parts[1..], s);
    } else if |parts| == 1 {
      assert parts[0] in parts;
    }
  }

  lemma {:induction false} PartsChars(s: string)
    ensures forall p <- Parts(s) :: forall c <- p :: c in s
    decreases |s|
  {
    var n := FirstSlash(s);
    if n == |s| {
      assert s[..n] == s;
      SegmentParts(s);
    } else {
      PartsChars(s[n + 1..]);
      assert s == s[..n] + "/" + s[n + 1..];
      PartsAt(s[..n], s[n + 1..]);
      SegmentParts(s[..n]);
    }
  }

  lemma SafeIsNormal(path: string)
    requires SafeRelative(path).Some?
    ensures NormalForm(SafeRelative(path).value)
  {
    var rel := DropSlashes(Strip(path));
    PartsAreSegments(rel);
    var parts := Parts(rel);
    assert Segments(parts) by { assert forall i | 0 <= i < |parts| :: parts[i] in parts; }
    PartsOfJoin(parts);
    PartsChars(rel);
    JoinChars(parts, rel);
  }

  predicate Tilde(s: string) { exists k | 0 <= k < |s| :: s[k] == '~' && forall i | 0 <= i < k :: s[i] == '/' }

  lemma {:induction false} DropSlashesKeeps(s: string)
    ensures '\\' in DropSlashes(s) <==> '\\' in s
    ensures DropSlashes(s) != "" && DropSlashes(s)[0] == '~' <==> Tilde(s)
  {
    if s != "" && s[0] == '/' {
      assert s == [s[0]] + s[1..];
      DropSlashesKeeps(s[1..]);
      if k :| 0 <= k < |s| && s[k] == '~' && forall i | 0 <= i < k :: s[i] == '/' {
        assert s[1..][k - 1] == '~' && forall i | 0 <= i < k - 1 :: s[1..][i] == s[i + 1];
      }
      if k :| 0 <= k < |s[1..]| && s[1..][k] == '~' && forall i | 0 <= i < k :: s[1..][i] == '/' {
        assert s[k + 1] == '~' && forall i | 0 < i < k + 1 :: s[i] == s[1..][i - 1];
      }
    } else if s != "" && s[0] == '~' {
      assert Tilde(s);
    }
  }

  /** Exactly which paths are accepted, and as what: the normal form with the same components,
      unless there is a backslash or the path begins with a tilde behind its slashes. */
  lemma SafeIff(path: string, rel: string)
    ensures SafeRelative(path) == Some(rel)
       <==> NormalForm(rel) && Parts(rel) == Parts(Strip(path)) && '\\' !in Strip(path) && !Tilde(Strip(path))
  {
    var s := Strip(path);
    DropSlashesKeeps(s);
    PartsIgnoreLeadingSlashes(s);
    PartsAreSegments(s);
    if SafeRelative(path) == Some(rel) {
      SafeIsNormal(path);
      assert Segments(Parts(s)) by { assert forall i | 0 <= i < |Parts(s)| :: Parts(s)[i] in Parts(s); }
      PartsOfJoin(Parts(s));
    } else if NormalForm(rel) && Parts(rel) == Parts(s) {
      SegmentParts("");
    }
  }

  lemma NormalHead(rel: string)
    requires NormalForm(rel)
    ensures rel != "" && rel[0] != '/'
  {
    var parts := Parts(rel);
    PartsAreSegments(rel);
    assert parts[0] in parts && Segment(parts[0]);
    assert rel[0] == parts[0][0];
    assert parts[0][0] in parts[0];
  }

  // ------------------------------------------------------------ reading a key back

  lemma RootsHaveNoSlash(area: string)
    requires area in AREA_ROOTS
    ensures var root := AREA_ROOTS[area];
            Segment(root) && root != "." && root != ".." && '\\' !in root
    ensures Segment(area) && area != "." && area != ".." && area[0] != '~' && '\\' !in area
  {
  }

  lemma PartitionJoins(s: string)
    requires Partition(s).1 != ""
    ensures s == Partition(s).0 + "/" + Partition(s).1 && '/' !in Partition(s).0
  {
  }

  function KeyOf(owner: string, rel: string): string
    requires Partition(rel).0 in AREA_ROOTS
  {
    "users/" + owner + "/" + (AREA_ROOTS[Partition(rel).0] + "/" + rel)
  }

  predicate InArea(rel: string) { Partition(rel).0 in AREA_ROOTS && Partition(rel).1 != "" }

  lemma VirtualKey(path: string, scope: Option<string>, ambient: Option<string>)
    ensures KeyForVirtualPath(path, scope, ambient) ==
              if SafeRelative(path).Some? && InArea(SafeRelative(path).value)
              then Some(KeyOf(Owner(scope, ambient), SafeRelative(path).value)) else None
  {
    if SafeRelative(path).Some? && InArea(SafeRelative(path).value) {
      var rel := SafeRelative(path).value;
      var root := AREA_ROOTS[Partition(rel).0];
      assert "users/" + Owner(scope, ambient) + "/" + root + "/" + rel == KeyOf(Owner(scope, ambient), rel);
    }
  }

  /** Whose keys they are: those of the scope, without one of the run's identity, and of nobody in
      particular when that is missing or empty. Each key ends in the path's normal form. */
  lemma KeyIsOwners(path: string, scope: Option<string>, ambient: Option<string>)
    requires KeyForVirtualPath(path, scope, ambient).Some?
    ensures var key := KeyForVirtualPath(path, scope, ambient).value;
            && SafeRelative(path).Some?
            && (scope.Some? && scope.value != "" ==> "users/" + scope.value + "/" <= key)
            && (scope == Some("") ==> "users/default/" <= key)
            && (scope.None? && ambient.Some? && ambient.value != "" ==> "users/" + ambient.value + "/" <= key)
            && (scope.None? && (ambient.None? || ambient.value == "") ==> "users/default/" <= key)
            && EndsIn(key, "/" + SafeRelative(path).value)
  {
    VirtualKey(path, scope, ambient);
    var rel := SafeRelative(path).value;
    KeyEnds(Owner(scope, ambient), AREA_ROOTS[Partition(rel).0], rel);
  }

  lemma KeyEnds(owner: string, root: string, rel: string)
    ensures var key := "users/" + owner + "/" + (root + "/" + rel);
            "users/" + owner + "/" <= key && EndsIn(key, "/" + rel)
  {
    var front := "users/" + owner + "/" + root;
    assert "users/" + owner + "/" + (root + "/" + rel) == front + ("/" + rel);
  }

  predicate EndsIn(s: string, end: string) { |end| <= |s| && s[|s| - |end|..] == end }

  /** Two scopes without slashes never share a key. */
  lemma ScopesAreSeparate(p: string, s: string, q: string, t: string, ambient: Option<string>)
    requires s != "" && t != "" && '/' !in s && '/' !in t && s != t
    requires KeyForVirtualPath(p, Some(s), ambient).Some?
    ensures KeyForVirtualPath(p, Some(s), ambient) != KeyForVirtualPath(q, Some(t), ambient)
  {
    VirtualKey(p, Some(s), ambient);
    VirtualKey(q, Some(t), ambient);
    if KeyForVirtualPath(p, Some(s), ambient) == KeyForVirtualPath(q, Some(t), ambient) {
      SameKeySameOwner(s, t, SafeRelative(p).value, SafeRelative(q).value);
    }
  }

  /** What has been read back, taken apart. */
  lemma ReadBackParts(key: string, prefix: string, scope: Option<string>, rel: string)
    requires VirtualPathForKey(key, scope) == Some("/" + rel) && prefix == "users/" + OrDefault(scope) + "/"
    ensures prefix <= key && InArea(rel)
    ensures Partition(key[|prefix|..]) == (AREA_ROOTS[Partition(rel).0], rel)
  {
    SlashCancels(Partition(key[|prefix|..]).1, rel);
  }

  lemma JoinedParts(rest: string, root: string, rel: string)
    requires Partition(rest) == (root, rel) && rel != ""
    ensures rest == root + "/" + rel
  {
    PartitionJoins(rest);
  }

  lemma Prefixed(key: string, prefix: string)
    requires prefix <= key
    ensures key == prefix + key[|prefix|..]
  {
  }

  lemma AreaNotEmpty(rel: string)
    requires InArea(rel)
    ensures rel != ""
  {
  }

  lemma ReadBackIsKey(key: string, scope: Option<string>, rel: string)
    requires VirtualPathForKey(key, scope) == Some("/" + rel)
    ensures InArea(rel) && key == KeyOf(OrDefault(scope), rel)
  {
    var prefix := "users/" + OrDefault(scope) + "/";
    ReadBackParts(key, prefix, scope, rel);
    AreaNotEmpty(rel);
    JoinedParts(key[|prefix|..], AREA_ROOTS[Partition(rel).0], rel);
    Prefixed(key, prefix);
  }

  lemma SlashCancels(a: string, b: string)
    requires "/" + a == "/" + b
    ensures a == b
  {
    assert ("/" + a)[1..] == a && ("/" + b)[1..] == b;
  }

  lemma KeyIsReadBack(scope: Option<string>, rel: string)
    requires InArea(rel)
    ensures VirtualPathForKey(KeyOf(OrDefault(scope), rel), scope) == Some("/" + rel)
  {
    var prefix := "users/" + OrDefault(scope) + "/";
    var root := AREA_ROOTS[Partition(rel).0];
    RootsHaveNoSlash(Partition(rel).0);
    assert KeyOf(OrDefault(scope), rel) == prefix + (root + "/" + rel);
    assert KeyOf(OrDefault(scope), rel)[|prefix|..] == root + "/" + rel;
    PartitionAt(root, rel);
  }

  /** A key is read back as `/rel` exactly when it is the key of `rel` under the scope looked for. */
  lemma ReadBackIff(key: string, scope: Option<string>, rel: string)
    ensures VirtualPathForKey(key, scope) == Some("/" + rel) <==> InArea(rel) && key == KeyOf(OrDefault(scope), rel)
  {
    if VirtualPathForKey(key, scope) == Some("/" + rel) {
      ReadBackIsKey(key, scope, rel);
    } else if InArea(rel) {
      KeyIsReadBack(scope, rel);
    }
  }

  lemma OwnersCancel(a: string, b: string, t: string)
    requires "users/" + a + "/" + t == "users/" + b + "/" + t
    ensures a == b
  {
    var x, y := "users/" + a + "/" + t, "users/" + b + "/" + t;
    assert x[6..6 + |a|] == a && y[6..6 + |b|] == b;
  }

  /** Reading back the key of a path gives the path's normal form exactly when the scope
      looked for is the owner the key was built for. They differ only for an absent scope in
      a run that has an identity of its own. */
  lemma PathRoundTripsIff(path: string, scope: Option<string>, ambient: Option<string>)
    requires KeyForVirtualPath(path, scope, ambient).Some?
    ensures SafeRelative(path).Some?
    ensures VirtualPathForKey(KeyForVirtualPath(path, scope, ambient).value, scope)
            == Some("/" + SafeRelative(path).value)
            <==> (scope.Some? || OrDefault(ambient) == DEFAULT_SCOPE)
  {
    VirtualKey(path, scope, ambient);
    var rel := SafeRelative(path).value;
    ReadBackIff(KeyForVirtualPath(path, scope, ambient).value, scope, rel);
    if KeyOf(OrDefault(scope), rel) == KeyOf(Owner(scope, ambient), rel) {
      OwnersCancel(OrDefault(scope), Owner(scope, ambient), AREA_ROOTS[Partition(rel).0] + "/" + rel);
    }
  }

  /** Whatever key is read back is the key of the path it is read back as. */
  lemma KeyRoundTrips(key: string, scope: Option<string>, rel: string, ambient: Option<string>)
    requires VirtualPathForKey(key, scope) == Some("/" + rel) && scope.Some?
    requires NormalForm(rel) && rel != "" && !IsSpace(rel[|rel| - 1])
    ensures KeyForVirtualPath("/" + rel, scope, ambient) == Some(key)
  {
    ReadBackIff(key, scope, rel);
    NormalIsFixed(rel);
    VirtualKey("/" + rel, scope, ambient);
  }

  // ------------------------------------------------------------ normal forms are stable

  lemma StripRooted(s: string)
    requires s != "" && s[0] == '/'
    ensures Strip(s) == RStrip(s) && RStrip(s) != "" && RStrip(s)[0] == '/'
  {
    RStripKeepsHead(s);
  }

  lemma NormalIsFixed(rel: string)
    requires NormalForm(rel) && InArea(rel) && rel != "" && !IsSpace(rel[|rel| - 1])
    ensures SafeRelative("/" + rel) == Some(rel)
  {
    var s := "/" + rel;
    NormalHead(rel);
    assert s[|s| - 1] == rel[|rel| - 1];
    assert Strip(s) == s;
    assert s[1..] == rel;
    assert DropSlashes(s) == rel;
    PartsAreSegments(rel);
    PartitionJoins(rel);
    RootsHaveNoSlash(Partition(rel).0);
    assert rel[0] == Partition(rel).0[0];
  }

  lemma {:induction false} JoinPartsShort(s: string)
    ensures |JoinSlash(Parts(s))| <= |s|
    decreases |s|
  {
    var n := FirstSlash(s);
    if n == |s| {
      assert s[..n] == s;
      SegmentParts(s);
    } else {
      var a, b := s[..n], s[n + 1..];
      JoinPartsShort(b);
      assert s == a + "/" + b;
      PartsAt(a, b);
      SegmentParts(a);
      if Kept(a) {
        assert ([a] + Parts(b))[1..] == Parts(b);
      } else {
        assert [] + Parts(b) == Parts(b);
      }
    }
  }

  lemma {:induction false} DropSlashesShort(s: string)
    ensures |DropSlashes(s)| <= |s| && (s != "" && s[0] == '/' ==> |DropSlashes(s)| < |s|)
  {
    if s != "" && s[0] == '/' { DropSlashesShort(s[1..]); }
  }

  lemma {:induction false} RStripShort(s: string)
    ensures |RStrip(s)| <= |s| && (s != "" && IsSpace(s[|s| - 1]) ==> |RStrip(s)| < |s|)
  {
    if s != "" && IsSpace(s[|s| - 1]) { RStripShort(s[..|s| - 1]); }
  }

  /** A key comes back from its path's normal form exactly when the form does not end in
      whitespace, which the builder would strip. */
  lemma KeyComesBackIff(path: string, scope: Option<string>, ambient: Option<string>)
    requires KeyForVirtualPath(path, scope, ambient).Some?
    ensures SafeRelative(path).Some? && SafeRelative(path).value != ""
    ensures var rel := SafeRelative(path).value;
            KeyForVirtualPath("/" + rel, scope, ambient) == KeyForVirtualPath(path, scope, ambient)
            <==> !IsSpace(rel[|rel| - 1])
  {
    VirtualKey(path, scope, ambient);
    var rel := SafeRelative(path).value;
    VirtualKey("/" + rel, scope, ambient);
    SafeIsNormal(path);
    NormalHead(rel);
    if !IsSpace(rel[|rel| - 1]) {
      NormalIsFixed(rel);
    } else if SafeRelative("/" + rel).Some? && InArea(SafeRelative("/" + rel).value) {
      var s := "/" + rel;
      assert s[|s| - 1] == rel[|rel| - 1];
      RStripShort(s);
      StripRooted(s);
      DropSlashesShort(Strip(s));
      JoinPartsShort(DropSlashes(Strip(s)));
      var rel' := SafeRelative(s).value;
      assert |rel'| < |rel|;
      if KeyOf(Owner(scope, ambient), rel') == KeyOf(Owner(scope, ambient), rel) {
        SameOwnerSameRel(Owner(scope, ambient), rel', rel);
      }
    }
  }

  lemma SameOwnerSameRel(owner: string, a: string, b: string)
    requires InArea(a) && InArea(b) && KeyOf(owner, a) == KeyOf(owner, b)
    ensures a == b
  {
    var prefix := "users/" + owner + "/";
    var ra, rb := AREA_ROOTS[Partition(a).0], AREA_ROOTS[Partition(b).0];
    assert KeyOf(owner, a)[|prefix|..] == ra + "/" + a;
    assert KeyOf(owner, b)[|prefix|..] == rb + "/" + b;
    RootsHaveNoSlash(Partition(a).0);
    RootsHaveNoSlash(Partition(b).0);
    PartitionAt(ra, a);
    PartitionAt(rb, b);
  }

  // ------------------------------------------------------------ keys do not collide

  lemma SameKeySameOwner(x: string, y: string, a: string, b: string)
    requires InArea(a) && InArea(b) && '/' !in x && '/' !in y && KeyOf(x, a) == KeyOf(y, b)
    ensures x == y
  {
    var ka, kb := AREA_ROOTS[Partition(a).0] + "/" + a, AREA_ROOTS[Partition(b).0] + "/" + b;
    assert KeyOf(x, a)[6..] == x + "/" + ka && KeyOf(y, b)[6..] == y + "/" + kb;
    PartitionAt(x, ka);
    PartitionAt(y, kb);
  }

  /** Keys of different slash-free owners, or of different normal forms, are different. */
  lemma KeysDoNotCollide(p: string, s: Option<string>, sa: Option<string>,
                         q: string, t: Option<string>, ta: Option<string>)
    requires KeyForVirtualPath(p, s, sa).Some? && KeyForVirtualPath(p, s, sa) == KeyForVirtualPath(q, t, ta)
    requires '/' !in Owner(s, sa) && '/' !in Owner(t, ta)
    ensures Owner(s, sa) == Owner(t, ta) && SafeRelative(p) == SafeRelative(q)
  {
    VirtualKey(p, s, sa);
    VirtualKey(q, t, ta);
    var a, b := SafeRelative(p).value, SafeRelative(q).value;
    SameKeySameOwner(Owner(s, sa), Owner(t, ta), a, b);
    SameOwnerSameRel(Owner(s, sa), a, b);
  }

  // ------------------------------------------------------------ the two builders agree

  lemma {:induction false} DropSlashesChars(s: string)
    ensures forall c :: c != '/' ==> (c in DropSlashes(s) <==> c in s)
  {
    if s != "" && s[0] == '/' {
      DropSlashesChars(s[1..]);
      assert s == [s[0]] + s[1..];
    }
  }

  lemma StripUnderArea(area: string, path: string)
    requires Segment(area) && path != "" && path[0] == '/'
    ensures DropSlashes(Strip("/" + area + path)) == area + RStrip(path)
  {
    RStripAppend("/" + area, path);
    StripRooted("/" + area + path);
    DropOneSlash(area, RStrip(path));
  }

  lemma DropOneSlash(area: string, q: string)
    requires Segment(area)
    ensures DropSlashes("/" + area + q) == area + q
  {
    assert ("/" + area + q)[1..] == area + q;
    assert (area + q)[0] == area[0] && area[0] in area;
  }

  lemma PartsOfRooted(tail: string)
    ensures Parts("/" + tail) == Parts(tail)
  {
    assert "/" + tail == "" + "/" + tail;
    PartsAt("", tail);
    SegmentParts("");
    assert [] + Parts(tail) == Parts(tail);
  }

  lemma PartsUnderArea(area: string, q: string)
    requires area in AREA_ROOTS && q != "" && q[0] == '/'
    ensures Parts(area + q) == [area] + Parts(DropSlashes(q))
  {
    var tail := q[1..];
    assert q == "/" + tail;
    assert area + q == area + "/" + tail;
    RootsHaveNoSlash(area);
    PartsAt(area, tail);
    SegmentParts(area);
    PartsOfRooted(tail);
    PartsIgnoreLeadingSlashes(q);
  }

  /** The area-relative path and the same path under its area have the same normal form. */
  lemma AreaSafeRelative(area: string, path: string)
    requires area in AREA_ROOTS && path != "" && path[0] == '/' && SafeRelative(path).Some?
    ensures SafeRelative("/" + area + path) == Some(area + "/" + SafeRelative(path).value)
  {
    RootsHaveNoSlash(area);
    StripRooted(path);
    var q := RStrip(path);
    StripUnderArea(area, path);
    PartsUnderArea(area, q);
    DropSlashesChars(q);
    var rel, parts := area + q, Parts(DropSlashes(q));
    assert '\\' !in rel && rel[0] == area[0];
    PartsAreSegments(DropSlashes(q));
    assert ([area] + parts)[1..] == parts;
  }

  lemma AreaKeyText(area: string, rel: string, scope: Option<string>, ambient: Option<string>)
    requires area in AREA_ROOTS && Partition(area + "/" + rel).0 == area
    ensures KeyOf(Owner(scope, ambient), area + "/" + rel)
         == ObjectScope(scope, ambient, AREA_ROOTS[area]) + "/" + area + "/" + rel
  {
  }

  /** Whenever `key_for_area` accepts a rooted path, `key_for_virtual_path` gives the full
      path the same key. */
  lemma BuildersAgree(area: string, path: string, scope: Option<string>, ambient: Option<string>)
    requires path != "" && path[0] == '/' && KeyForArea(area, path, scope, ambient).Some?
    ensures KeyForVirtualPath("/" + area + path, scope, ambient) == KeyForArea(area, path, scope, ambient)
  {
    var rel := SafeRelative(path).value;
    AreaSafeRelative(area, path);
    RootsHaveNoSlash(area);
    PartitionAt(area, rel);
    SafeIsNormal(path);
    NormalHead(rel);
    VirtualKey("/" + area + path, scope, ambient);
    AreaKeyText(area, rel, scope, ambient);
  }

  /** What is left of a rooted path under an area is refused only for a backslash or `..`. */
  lemma SafeUnderArea(area: string, path: string)
    requires area in AREA_ROOTS && path != "" && path[0] == '/'
    ensures var rel := DropSlashes(Strip(path));
            SafeRelative("/" + area + path)
            == if '\\' in rel || ".." in Parts(rel) then None else Some(JoinSlash([area] + Parts(rel)))
  {
    StripRooted(path);
    StripUnderArea(area, path);
    PartsUnderArea(area, RStrip(path));
    DropSlashesChars(RStrip(path));
    RootsHaveNoSlash(area);
    SafeByParts("/" + area + path, area, DropSlashes(RStrip(path)));
  }

  lemma SafeByParts(full: string, area: string, rel: string)
    requires area != "" && area[0] != '~' && area != "." && area != ".."
    requires var all := DropSlashes(Strip(full));
             all != "" && all[0] == area[0] && ('\\' in all <==> '\\' in rel) && Parts(all) == [area] + Parts(rel)
    ensures SafeRelative(full)
         == if '\\' in rel || ".." in Parts(rel) then None else Some(JoinSlash([area] + Parts(rel)))
  {
    PartsAreSegments(rel);
  }

  /** The joined parts name a file of the area unless there are none below it. */
  lemma AreaJoined(area: string, parts: seq<string>)
    requires area in AREA_ROOTS && Segments(parts)
    ensures InArea(JoinSlash([area] + parts)) <==> parts != []
  {
    RootsHaveNoSlash(area);
    if parts == [] {
      NoSlash(area);
    } else {
      assert ([area] + parts)[1..] == parts;
      PartitionAt(area, JoinSlash(parts));
    }
  }

  /** The area builder refuses the path only because it starts with `~`: none of its other
      tests, which both builders make, fails. */
  predicate OnlyTildeRefused(path: string) {
    var rel := DropSlashes(Strip(path));
    "~" <= rel && '\\' !in rel && ".." !in Parts(rel)
  }

  lemma TildeHasParts(rel: string)
    requires "~" <= rel
    ensures Parts(rel) != []
  {
    var n := FirstSlash(rel);
    assert n > 0 && rel[..n][0] == '~';
    if n == |rel| {
      assert rel[..n] == rel;
      SegmentParts(rel);
    } else {
      assert rel == rel[..n] + "/" + rel[n + 1..];
      PartsAt(rel[..n], rel[n + 1..]);
      SegmentParts(rel[..n]);
    }
  }

  /** When the full path gets a key: unless it has a backslash or `..`, or names the area alone. */
  lemma FullPathKey(area: string, path: string, scope: Option<string>, ambient: Option<string>)
    requires area in AREA_ROOTS && path != "" && path[0] == '/'
    ensures var rel := DropSlashes(Strip(path));
            KeyForVirtualPath("/" + area + path, scope, ambient).Some?
            <==> '\\' !in rel && ".." !in Parts(rel) && Parts(rel) != []
  {
    var parts := Parts(DropSlashes(Strip(path)));
    SafeUnderArea(area, path);
    PartsAreSegments(DropSlashes(Strip(path)));
    assert Segments(parts) by { assert forall i | 0 <= i < |parts| :: parts[i] in parts; }
    AreaJoined(area, parts);
    VirtualKey("/" + area + path, scope, ambient);
  }

  lemma AreaKeyIff(area: string, path: string, scope: Option<string>, ambient: Option<string>)
    requires area in AREA_ROOTS
    ensures var rel := DropSlashes(Strip(path));
            KeyForArea(area, path, scope, ambient).Some?
            <==> '\\' !in rel && ".." !in Parts(rel) && Parts(rel) != [] && !("~" <= rel)
  {
    var rel := DropSlashes(Strip(path));
    PartsAreSegments(rel);
    if rel == "" { SegmentParts(""); }
  }

  /** On such a path the builders do differ: the full path has a key, the area-relative one none. */
  lemma BuildersDisagreeOnTilde(area: string, path: string, scope: Option<string>, ambient: Option<string>)
    requires area in AREA_ROOTS && path != "" && path[0] == '/' && OnlyTildeRefused(path)
    ensures KeyForArea(area, path, scope, ambient) == None
    ensures KeyForVirtualPath("/" + area + path, scope, ambient).Some?
  {
    FullPathKey(area, path, scope, ambient);
    AreaKeyIff(area, path, scope, ambient);
    TildeHasParts(DropSlashes(Strip(path)));
  }

  /** For a registered area and a rooted path the two builders give the same answer, key or
      refusal, exactly unless the area-relative path starts with `~` and passes every other test:
      then only the full path has a key. */
  lemma BuildersAgreeIff(area: string, path: string, scope: Option<string>, ambient: Option<string>)
    requires area in AREA_ROOTS && path != "" && path[0] == '/'
    ensures KeyForVirtualPath("/" + area + path, scope, ambient) == KeyForArea(area, path, scope, ambient)
       <==> !OnlyTildeRefused(path)
  {
    FullPathKey(area, path, scope, ambient);
    AreaKeyIff(area, path, scope, ambient);
    if KeyForArea(area, path, scope, ambient).Some? {
      BuildersAgree(area, path, scope, ambient);
    } else if OnlyTildeRefused(path) {
      BuildersDisagreeOnTilde(area, path, scope, ambient);
    }
  }
}
