/** The file operations of `backend/agents/career_agent/object_backend.py` over a flat key space. */
module ObjectBackend {
  import opened Wrappers
  import opened LexOrder
  import opened ObjectKeys
  import opened PyStrings

  datatype Entry = FileEntry(path: string) | DirEntry(path: string)

  function NormDir(path: string): string {
    if path != "" && path[|path| - 1] == '/' then path else path + "/"
  }

  function RStripSlashes(s: string): string {
    if s != "" && s[|s| - 1] == '/' then RStripSlashes(s[..|s| - 1]) else s
  }

  predicate NoDup<T(==)>(s: seq<T>) {
    forall i, j | 0 <= i < j < |s| :: s[i] != s[j]
  }

  predicate Sorted(entries: seq<Entry>) {
    forall i, j | 0 <= i < j < |entries| :: LexLe(entries[i].path, entries[j].path)
  }

  /** `v` lies somewhere under the directory `dir`, which ends with a slash. */
  predicate Under(dir: string, v: string) { dir <= v }

  /** A listing of a path is of the directory, whether or not the path has its last slash. */
  lemma SameDirectory(path: string)
    ensures NormDir(path + "/") == path + "/"
    ensures (path == "" || path[|path| - 1] != '/') ==> NormDir(path) == NormDir(path + "/")
  {
  }

  predicate DirectlyIn(dir: string, v: string) {
    dir <= v && '/' !in v[|dir|..]
  }

  predicate Deeper(dir: string, v: string) {
    dir <= v && '/' in v[|dir|..]
  }

  /** The immediate subdirectory of `dir` that leads to `v`. */
  function Subdir(dir: string, v: string): string
    requires dir <= v
  {
    dir + v[|dir|..][..FirstSlash(v[|dir|..])] + "/"
  }

  /** The object of this key, or its absence, is the same. */
  predicate SameObject(a: map<string, string>, b: map<string, string>, key: string) {
    (key in a <==> key in b) && (key in a ==> a[key] == b[key])
  }

  /** The area-relative path that `write` stores a file at. */
  function Written(path: string): string
    requires SafeRelative(path).Some?
  {
    "/" + SafeRelative(path).value
  }

  /** The path, slashes at its end aside, is what `write` makes of it. */
  predicate NamesItself(path: string)
    requires SafeRelative(path).Some?
  {
    RStripSlashes(path) == Written(path)
  }

  predicate Doomed(base: string, v: string) { v == base || base + "/" <= v }

  // ------------------------------------------------------------ directories

  lemma DeeperGoesDown(dir: string, v: string)
    requires Deeper(dir, v)
    ensures Subdir(dir, v) <= v && |dir| < |Subdir(dir, v)|
  {
    var rest := v[|dir|..];
    var n := FirstSlash(rest);
    assert rest[..|rest|] == rest;
    assert v == dir + rest;
    assert rest == rest[..n] + "/" + rest[n + 1..];
    assert v == Subdir(dir, v) + rest[n + 1..];
  }

  /** A file is under exactly one immediate subdirectory. */
  lemma OneSubdir(dir: string, u: string, v: string)
    requires Deeper(dir, u) && Subdir(dir, u) <= v
    ensures Deeper(dir, v) && Subdir(dir, v) == Subdir(dir, u)
  {
    var name := u[|dir|..][..FirstSlash(u[|dir|..])];
    var d := dir + name + "/";
    DeeperGoesDown(dir, u);
    var tail := v[|d|..];
    assert v == d + tail;
    assert v[|dir|..] == name + "/" + tail;
    assert dir <= v;
    FirstSlashAt(name, tail);
    assert v[|dir|..][|name|] == '/';
    assert v[|dir|..][..|name|] == name;
  }

  // ------------------------------------------------------------ sorting

  function Insert(e: Entry, s: seq<Entry>): seq<Entry> {
    if s == [] then [e] else if LexLe(e.path, s[0].path) then [e] + s else [s[0]] + Insert(e, s[1..])
  }

  lemma InsertedBelow(e: Entry, s: seq<Entry>)
    requires s != [] && Sorted(s) && LexLe(e.path, s[0].path)
    ensures Sorted([e] + s)
  {
    forall j | 0 <= j < |s|
      ensures LexLe(e.path, s[j].path)
    {
      if j > 0 { LexTransitive(e.path, s[0].path, s[j].path); }
    }
    SortedCons(e, s);
  }

  lemma SortedTail(s: seq<Entry>)
    requires s != [] && Sorted(s)
    ensures Sorted(s[1..])
  {
  }

  lemma {:induction false} InsertIsAdded(e: Entry, s: seq<Entry>)
    ensures multiset(Insert(e, s)) == multiset(s) + multiset{e}
  {
    if s != [] && !LexLe(e.path, s[0].path) {
      InsertIsAdded(e, s[1..]);
      assert s == [s[0]] + s[1..];
    }
  }

  lemma {:induction false} InsertKeepsSorted(e: Entry, s: seq<Entry>)
    requires Sorted(s)
    ensures Sorted(Insert(e, s))
  {
    if s != [] {
      if LexLe(e.path, s[0].path) {
        InsertedBelow(e, s);
      } else {
        SortedTail(s);
        InsertKeepsSorted(e, s[1..]);
        InsertIsAdded(e, s[1..]);
        InsertedAbove(e, s);
      }
    }
  }

  lemma InsertedAbove(e: Entry, s: seq<Entry>)
    requires s != [] && Sorted(s) && !LexLe(e.path, s[0].path) && Sorted(Insert(e, s[1..]))
    requires multiset(Insert(e, s[1..])) == multiset(s[1..]) + multiset{e}
    ensures Sorted([s[0]] + Insert(e, s[1..]))
  {
    LexTotal(e.path, s[0].path);
    var t := Insert(e, s[1..]);
    forall j | 0 <= j < |t|
      ensures LexLe(s[0].path, t[j].path)
    {
      assert t[j] in multiset(t);
      if t[j] != e { FirstIsLeast(s, t[j]); }
    }
    SortedCons(s[0], t);
  }

  lemma FirstIsLeast(s: seq<Entry>, e: Entry)
    requires s != [] && Sorted(s) && e in s[1..]
    ensures LexLe(s[0].path, e.path)
  {
    var i :| 0 <= i < |s[1..]| && s[1..][i] == e;
    assert s[i + 1] == e;
  }

  lemma SortedCons(e: Entry, s: seq<Entry>)
    requires Sorted(s) && forall j | 0 <= j < |s| :: LexLe(e.path, s[j].path)
    ensures Sorted([e] + s)
  {
  }

  lemma NoDupIffCounts<T>(s: seq<T>)
    ensures NoDup(s) <==> forall x: T :: multiset(s)[x] <= 1
  {
    if NoDup(s) {
      forall x: T ensures multiset(s)[x] <= 1 { NoDupCount(s, x); }
    }
    if exists i, j :: 0 <= i < j < |s| && s[i] == s[j] {
      var i, j :| 0 <= i < j < |s| && s[i] == s[j];
      assert s == s[..j] + [s[j]] + s[j + 1..];
      assert s[i] == s[..j][i];
      assert multiset(s)[s[j]] == multiset(s[..j])[s[j]] + 1 + multiset(s[j + 1..])[s[j]];
    }
  }

  lemma {:induction false} NoDupCount<T>(s: seq<T>, x: T)
    requires NoDup(s)
    ensures multiset(s)[x] <= 1
  {
    if s != [] {
      NoDupCount(s[1..], x);
      assert s == [s[0]] + s[1..];
      if x == s[0] { assert x !in s[1..]; }
    }
  }

  lemma NoDupConcat<T>(a: seq<T>, b: seq<T>)
    requires NoDup(a) && NoDup(b) && forall x | x in a :: x !in b
    ensures NoDup(a + b)
  {
    var s := a + b;
    forall i, j | 0 <= i < j < |s|
      ensures s[i] != s[j]
    {
      if i < |a| && |a| <= j {
        assert s[i] == a[i] && s[j] == b[j - |a|];
        assert a[i] in a && b[j - |a|] in b;
      }
    }
  }

  /** `infos.sort(key=path)` */
  method SortEntries(infos: seq<Entry>) returns (sorted: seq<Entry>)
    ensures Sorted(sorted) && multiset(sorted) == multiset(infos)
    ensures NoDup(infos) ==> NoDup(sorted)
    ensures forall e: Entry :: e in sorted <==> e in infos
  {
    sorted := [];
    for i := 0 to |infos|
      invariant Sorted(sorted) && multiset(sorted) == multiset(infos[..i])
    {
      InsertIsAdded(infos[i], sorted);
      InsertKeepsSorted(infos[i], sorted);
      assert infos[..i + 1] == infos[..i] + [infos[i]];
      sorted := Insert(infos[i], sorted);
    }
    assert infos[..|infos|] == infos;
    NoDupIffCounts(infos);
    NoDupIffCounts(sorted);
    forall e: Entry
      ensures e in sorted <==> e in infos
    {
      assert e in multiset(sorted) <==> e in multiset(infos);
    }
  }

  // ------------------------------------------------------------ the backend

  /** One artifact area of one owner, over a store shared with all others. */
  class ObjectStoreBackend {
    const area: string
    const scope: Option<string>
    const ambient: Option<string>
    var objects: map<string, string>

    constructor (area: string, scope: Option<string>, ambient: Option<string>, objects: map<string, string>)
      requires area in AREA_ROOTS
      ensures this.area == area && this.scope == scope && this.ambient == ambient && this.objects == objects
    {
      this.area, this.scope, this.ambient, this.objects := area, scope, ambient, objects;
    }

    /** `area_key_prefix` */
    function Base(): string {
      if area in AREA_ROOTS then ObjectScope(scope, ambient, AREA_ROOTS[area]) + "/" + area else ""
    }

    /** The area holds a file with this area-relative path. */
    predicate Has(v: string)
      reads this
    {
      v != "" && v[0] == '/' && Base() + v in objects
    }

    lemma PathOfKey(base: string, key: string, v: string)
      ensures base + v == key && v != "" && v[0] == '/' <==> base + "/" <= key && v == key[|base|..]
    {
      if base + v == key && v != "" && v[0] == '/' {
        assert v == "/" + v[1..];
        assert key == base + "/" + v[1..];
      }
      if base + "/" <= key {
        assert key == base + key[|base|..];
        assert key[|base|] == (base + "/")[|base|];
      }
    }

    /** The area-relative paths of `_area_files`, in whatever order the store lists them. */
    method AreaFiles() returns (vs: seq<string>)
      ensures NoDup(vs) && forall v :: v in vs <==> Has(v)
    {
      var rest := objects.Keys;
      var prefix := Base() + "/";
      vs := [];
      while rest != {}
        invariant rest <= objects.Keys && NoDup(vs)
        invariant forall v :: v in vs <==> Has(v) && Base() + v !in rest
        decreases rest
      {
        var key :| key in rest;
        forall v: string
          ensures Base() + v == key && v != "" && v[0] == '/' <==> prefix <= key && v == key[|Base()|..]
        {
          PathOfKey(Base(), key, v);
        }
        if prefix <= key {
          var v := key[|Base()|..];
          assert Base() + v == key;
          assert v !in vs;
          vs := vs + [v];
        }
        rest := rest - {key};
      }
    }

    /** What a listing of `dir` shows: the files directly in it and the subdirectories that
        lead to files. */
    ghost predicate IsEntry(dir: string, e: Entry)
      reads this
    {
      match e
      case FileEntry(v) => Has(v) && DirectlyIn(dir, v)
      case DirEntry(d) => exists v :: Has(v) && Deeper(dir, v) && Subdir(dir, v) == d
    }

    /** `ls` */
    method Ls(path: string) returns (entries: seq<Entry>)
      ensures Sorted(entries) && NoDup(entries)
      ensures forall e :: e in entries <==> IsEntry(NormDir(path), e)
    {
      var dir := NormDir(path);
      var metas := AreaFiles();
      var infos: seq<Entry> := [];
      var subdirs: set<string> := {};
      for i := 0 to |metas|
        invariant NoDup(infos)
        invariant forall e :: e in infos <==> e.FileEntry? && e.path in metas[..i] && DirectlyIn(dir, e.path)
        invariant forall d :: d in subdirs <==> exists v :: v in metas[..i] && Deeper(dir, v) && Subdir(dir, v) == d
      {
        var v := metas[i];
        assert metas[..i + 1] == metas[..i] + [v];
        if dir <= v {
          if '/' in v[|dir|..] {
            subdirs := subdirs + {Subdir(dir, v)};
          } else {
            infos := infos + [FileEntry(v)];
          }
        }
      }
      assert metas[..|metas|] == metas;
      var rest := subdirs;
      while rest != {}
        invariant rest <= subdirs && NoDup(infos)
        invariant forall e :: e in infos <==>
                    if e.FileEntry? then e.path in metas && DirectlyIn(dir, e.path)
                    else e.path in subdirs && e.path !in rest
        decreases rest
      {
        var d :| d in rest;
        rest := rest - {d};
        infos := infos + [DirEntry(d)];
      }
      entries := SortEntries(infos);
    }

    /** Following `ls` from a directory into every subdirectory it shows terminates and finds
        each file beneath the directory exactly once, and nothing else. `bound` is any bound on
        the length of the paths. */
    method Walk(dir: string, ghost bound: nat) returns (found: seq<string>)
      requires dir != "" && dir[|dir| - 1] == '/'
      requires forall v :: Has(v) ==> |v| <= bound
      ensures NoDup(found)
      ensures forall v :: v in found <==> Has(v) && Under(dir, v)
      decreases if |dir| <= bound then bound - |dir| else 0, 1
    {
      var entries := Ls(dir);
      found := [];
      for i := 0 to |entries|
        invariant NoDup(found)
        invariant forall v :: v in found <==> Has(v) && Covered(entries[..i], v)
      {
        assert entries[i] in entries;
        var below := FilesOf(dir, entries[i], bound);
        ExtendFound(dir, entries, i, found, below);
        found := found + below;
      }
      assert entries[..|entries|] == entries;
      EntriesCover(dir, entries);
    }

    /** The file of an entry, or the files beneath its subdirectory. */
    method FilesOf(dir: string, e: Entry, ghost bound: nat) returns (below: seq<string>)
      requires IsEntry(dir, e) && forall v :: Has(v) ==> |v| <= bound
      ensures NoDup(below)
      ensures forall v :: v in below <==> Has(v) && Leads(e, v)
      decreases if |dir| <= bound then bound - |dir| else 0, 0
    {
      if e.FileEntry? {
        below := [e.path];
      } else {
        ghost var u :| Has(u) && Deeper(dir, u) && Subdir(dir, u) == e.path;
        DeeperGoesDown(dir, u);
        below := Walk(e.path, bound);
      }
    }

    /** The entry is the file `v`, or a subdirectory that `v` is under. */
    ghost predicate Leads(e: Entry, v: string) {
      if e.FileEntry? then e.path == v else Under(e.path, v)
    }

    ghost predicate Covered(entries: seq<Entry>, v: string) {
      exists e :: e in entries && Leads(e, v)
    }

    lemma ExtendFound(dir: string, entries: seq<Entry>, i: nat, found: seq<string>, below: seq<string>)
      requires i < |entries| && NoDup(entries) && forall e :: e in entries <==> IsEntry(dir, e)
      requires NoDup(found) && NoDup(below)
      requires forall v :: v in found <==> Has(v) && Covered(entries[..i], v)
      requires forall v :: v in below <==> Has(v) && Leads(entries[i], v)
      ensures NoDup(found + below)
      ensures forall v :: v in found + below <==> Has(v) && Covered(entries[..i + 1], v)
    {
      assert entries[i] in entries;
      forall v | v in found
        ensures v !in below
      {
        if v in below {
          var e :| e in entries[..i] && Leads(e, v);
          assert e in entries;
          LeadsAlone(dir, entries[i], e, v);
        }
      }
      NoDupConcat(found, below);
      assert entries[..i + 1] == entries[..i] + [entries[i]];
      forall v
        ensures Covered(entries[..i + 1], v) <==> Covered(entries[..i], v) || Leads(entries[i], v)
      {
        assert entries[i] in entries[..i + 1];
        assert forall e :: e in entries[..i] ==> e in entries[..i + 1];
      }
    }

    lemma EntriesCover(dir: string, entries: seq<Entry>)
      requires forall e :: e in entries <==> IsEntry(dir, e)
      ensures forall v :: Has(v) && Covered(entries, v) <==> Has(v) && Under(dir, v)
    {
      forall v | Has(v)
        ensures Covered(entries, v) <==> Under(dir, v)
      {
        if Under(dir, v) {
          var e := if '/' in v[|dir|..] then DirEntry(Subdir(dir, v)) else FileEntry(v);
          if e.DirEntry? { DeeperGoesDown(dir, v); }
          assert IsEntry(dir, e) && e in entries && Leads(e, v);
        }
        if Covered(entries, v) {
          var e :| e in entries && Leads(e, v);
          assert IsEntry(dir, e);
          if e.DirEntry? {
            var u :| Has(u) && Deeper(dir, u) && Subdir(dir, u) == e.path;
            OneSubdir(dir, u, v);
          }
        }
      }
    }

    lemma LeadsAlone(dir: string, a: Entry, b: Entry, v: string)
      requires IsEntry(dir, a) && IsEntry(dir, b) && Leads(a, v) && Leads(b, v)
      ensures a == b
    {
      if a.DirEntry? {
        var u :| Has(u) && Deeper(dir, u) && Subdir(dir, u) == a.path;
        OneSubdir(dir, u, v);
      }
      if b.DirEntry? {
        var u :| Has(u) && Deeper(dir, u) && Subdir(dir, u) == b.path;
        OneSubdir(dir, u, v);
      }
    }

    /** `_key` */
    function Key(path: string): Option<string> { KeyForArea(area, path, scope, ambient) }

    /** `write`; it fails exactly for paths that have no key. Else the object of that key holds the
        content, whatever it held before, every other object of the store is as it was, and the
        one file there may be more is what the normal form of the path names. */
    method Write(path: string, content: string) returns (ok: bool)
      modifies this
      ensures ok <==> Key(path).Some?
      ensures ok ==> objects == old(objects)[Key(path).value := content]
      ensures !ok ==> objects == old(objects)
      ensures ok ==> SafeRelative(path).Some? && forall v :: Has(v) <==> old(Has(v)) || v == Written(path)
    {
      var key := Key(path);
      ok := key.Some?;
      if ok {
        objects := objects[key.value := content];
        KeyOfWritten(path);
        SameSuffix(Base());
      }
    }

    lemma KeyOfWritten(path: string)
      requires Key(path).Some?
      ensures Key(path).value == Base() + Written(path)
    {
    }

    lemma SameSuffix(base: string)
      ensures forall v: string, w: string :: base + v == base + w ==> v == w
    {
      forall v: string, w: string | base + v == base + w
        ensures v == w
      {
        assert (base + v)[|base|..] == v && (base + w)[|base|..] == w;
      }
    }

    /** `delete` removes the object at the path and everything nested under it, and nothing
        else in the whole store; it fails exactly when there is nothing to remove. */
    method Delete(path: string) returns (ok: bool)
      modifies this
      ensures ok <==> exists v :: old(Has(v)) && Doomed(RStripSlashes(path), v)
      ensures forall key :: key in objects <==>
                key in old(objects) && !exists v :: old(Has(v)) && Doomed(RStripSlashes(path), v) && key == Base() + v
      ensures forall key <- objects :: objects[key] == old(objects)[key]
      ensures forall v :: Has(v) <==> old(Has(v)) && !Doomed(RStripSlashes(path), v)
    {
      SameSuffix(Base());
      var base := RStripSlashes(path);
      var metas := AreaFiles();
      var doomed: seq<string> := [];
      for i := 0 to |metas|
        invariant forall v :: v in doomed <==> v in metas[..i] && Doomed(base, v)
      {
        assert metas[..i + 1] == metas[..i] + [metas[i]];
        if Doomed(base, metas[i]) {
          doomed := doomed + [metas[i]];
        }
      }
      assert metas[..|metas|] == metas;
      if doomed == [] {
        assert forall v :: Has(v) && Doomed(base, v) ==> v in doomed;
        return false;
      }
      assert doomed[0] in doomed;
      for i := 0 to |doomed|
        invariant forall key :: key in objects <==>
                    key in old(objects) && !exists v :: v in doomed[..i] && key == Base() + v
        invariant forall key <- objects :: objects[key] == old(objects)[key]
      {
        assert doomed[..i + 1] == doomed[..i] + [doomed[i]];
        objects := objects - {Base() + doomed[i]};
      }
      assert doomed[..|doomed|] == doomed;
      ok := true;
    }

    /** A write and a delete of the same path. What was written is gone exactly when the path,
        slashes at its end aside, is its own normal form; in an area that was empty the delete
        fails otherwise. */
    method WriteThenDelete(path: string, content: string) returns (written: bool, deleted: bool)
      modifies this
      ensures written <==> Key(path).Some?
      ensures written ==> SafeRelative(path).Some? && (Has(Written(path)) <==> !NamesItself(path))
      ensures written && NamesItself(path) ==> deleted
      ensures written && (forall v :: !old(Has(v))) ==> (deleted <==> NamesItself(path))
    {
      written := Write(path, content);
      if written { DeleteFindsWrittenIff(path); }
      deleted := Delete(path);
    }

    /** The content of the last file with this key. */
    function LastUpload(files: seq<(string, string)>, key: string): Option<string> {
      if files == [] then None
      else if Key(files[|files| - 1].0) == Some(key) then Some(files[|files| - 1].1)
      else LastUpload(files[..|files| - 1], key)
    }

    /** No later file of the list has the key of this one. */
    predicate IsLastOfKey(files: seq<(string, string)>, i: nat)
      requires i < |files|
    {
      forall j | i < j < |files| :: Key(files[j].0) != Key(files[i].0)
    }

    predicate Unnamed(files: seq<(string, string)>, key: string) {
      forall i | 0 <= i < |files| :: Key(files[i].0) != Some(key)
    }

    /** What is at a key after uploads: the last upload of it, or what was there. */
    predicate Holds(objs: map<string, string>, before: map<string, string>, key: string, content: Option<string>) {
      match content
      case None => SameObject(before, objs, key)
      case Some(c) => key in objs && objs[key] == c
    }

    /** `upload_files`: each file is stored or refused on its own. Afterwards the object of a key
        holds the content of the last file of the list with that key; every other object of the
        store is as it was. */
    method UploadFiles(files: seq<(string, string)>) returns (stored: seq<bool>)
      modifies this
      ensures |stored| == |files|
      ensures forall i | 0 <= i < |files| :: stored[i] <==> Key(files[i].0).Some?
      ensures forall i | 0 <= i < |files| && stored[i] && IsLastOfKey(files, i) ::
                Key(files[i].0).value in objects && objects[Key(files[i].0).value] == files[i].1
      ensures forall key | Unnamed(files, key) :: SameObject(old(objects), objects, key)
    {
      stored := [];
      for i := 0 to |files|
        invariant |stored| == i
        invariant forall j | 0 <= j < i :: stored[j] <==> Key(files[j].0).Some?
        invariant AllHold(objects, old(objects), files[..i])
      {
        HoldsNext(objects, old(objects), files[..i], files[i]);
        assert files[..i + 1] == files[..i] + [files[i]];
        var ok := Write(files[i].0, files[i].1);
        stored := stored + [ok];
      }
      assert files[..|files|] == files;
      forall i | 0 <= i < |files| && stored[i] && IsLastOfKey(files, i)
        ensures Key(files[i].0).value in objects && objects[Key(files[i].0).value] == files[i].1
      {
        LastOneHolds(objects, old(objects), files, i);
      }
      forall key | Unnamed(files, key)
        ensures SameObject(old(objects), objects, key)
      {
        OthersHold(objects, old(objects), files, key);
      }
    }

    ghost predicate AllHold(objs: map<string, string>, before: map<string, string>, files: seq<(string, string)>) {
      forall key :: Holds(objs, before, key, LastUpload(files, key))
    }

    lemma HoldsNext(objs: map<string, string>, before: map<string, string>,
                    files: seq<(string, string)>, file: (string, string))
      requires AllHold(objs, before, files)
      ensures var after := if Key(file.0).Some? then objs[Key(file.0).value := file.1] else objs;
              AllHold(after, before, files + [file])
    {
      var more := files + [file];
      var after := if Key(file.0).Some? then objs[Key(file.0).value := file.1] else objs;
      assert more[..|more| - 1] == files;
      forall key: string
        ensures Holds(after, before, key, LastUpload(more, key))
      {
        assert Holds(objs, before, key, LastUpload(files, key));
      }
    }

    lemma LastOneHolds(objs: map<string, string>, before: map<string, string>, files: seq<(string, string)>, i: nat)
      requires AllHold(objs, before, files) && i < |files| && Key(files[i].0).Some? && IsLastOfKey(files, i)
      ensures Key(files[i].0).value in objs && objs[Key(files[i].0).value] == files[i].1
    {
      LastUploadFound(files, i);
      assert Holds(objs, before, Key(files[i].0).value, Some(files[i].1));
    }

    lemma OthersHold(objs: map<string, string>, before: map<string, string>, files: seq<(string, string)>, key: string)
      requires AllHold(objs, before, files) && Unnamed(files, key)
      ensures SameObject(before, objs, key)
    {
      NoUploadFound(files, key);
      assert Holds(objs, before, key, None);
    }

    lemma {:induction false} LastUploadFound(files: seq<(string, string)>, i: nat)
      requires i < |files| && Key(files[i].0).Some? && IsLastOfKey(files, i)
      ensures LastUpload(files, Key(files[i].0).value) == Some(files[i].1)
    {
      var n := |files| - 1;
      if i < n {
        assert forall j | i < j < n :: files[..n][j] == files[j];
        LastUploadFound(files[..n], i);
      }
    }

    lemma {:induction false} NoUploadFound(files: seq<(string, string)>, key: string)
      requires Unnamed(files, key)
      ensures LastUpload(files, key) == None
    {
      if files != [] { NoUploadFound(files[..|files| - 1], key); }
    }
  }

  // ------------------------------------------------------------ delete in terms of paths and keys

  /** For a rooted path in normal form, what `delete` removes are the key of the path itself
      and the keys of the files beneath it. */
  lemma DoomedIsSubtree(rel: string, v: string)
    requires NormalForm(rel)
    ensures Doomed(RStripSlashes("/" + rel), v) <==> v == "/" + rel || Under("/" + rel + "/", v)
  {
    NormalHead(rel);
    NormalTail(rel);
    var s := "/" + rel;
    assert s[|s| - 1] == rel[|rel| - 1];
  }

  lemma {:induction false} JoinTail(parts: seq<string>)
    requires parts != [] && Segments(parts)
    ensures JoinSlash(parts) != "" && JoinSlash(parts)[|JoinSlash(parts)| - 1] != '/'
  {
    if |parts| == 1 {
      assert parts[0][|parts[0]| - 1] in parts[0];
    } else {
      JoinTail(parts[1..]);
    }
  }

  lemma NormalTail(rel: string)
    requires NormalForm(rel)
    ensures rel != "" && rel[|rel| - 1] != '/'
  {
    PartsAreSegments(rel);
    assert forall i | 0 <= i < |Parts(rel)| :: Parts(rel)[i] in Parts(rel);
    JoinTail(Parts(rel));
  }

  /** `delete` compares the path as it was given: one that does not start with a slash never
      finds anything, although `write` accepts it. */
  lemma UnrootedDeleteFindsNothing(path: string, v: string)
    requires path != "" && path[0] != '/' && v != "" && v[0] == '/'
    ensures !Doomed(RStripSlashes(path), v)
  {
    RStripSlashesKeepsHead(path);
    var base := RStripSlashes(path);
    assert (base + "/")[0] == base[0];
  }

  lemma {:induction false} RStripSlashesKeepsHead(s: string)
    requires s != "" && s[0] != '/'
    ensures RStripSlashes(s) != "" && RStripSlashes(s)[0] == s[0]
  {
    if s[|s| - 1] == '/' { RStripSlashesKeepsHead(s[..|s| - 1]); }
  }

  // ------------------------------------------------------------ delete undoes write

  lemma {:induction false} PartsIgnoreTrailingSlashes(s: string)
    ensures Parts(RStripSlashes(s)) == Parts(s)
  {
    if s != "" && s[|s| - 1] == '/' {
      var front := s[..|s| - 1];
      PartsIgnoreTrailingSlashes(front);
      assert s == front + "/" + "";
      PartsAt(front, "");
      SegmentParts("");
      assert Parts(front) + [] == Parts(front);
    }
  }

  lemma {:induction false} RStripSlashesIsPrefix(s: string)
    ensures RStripSlashes(s) <= s
  {
    if s != "" && s[|s| - 1] == '/' { RStripSlashesIsPrefix(s[..|s| - 1]); }
  }

  lemma WrittenAtSlashes(path: string)
    requires path != "" && path[0] == '/' && path[|path| - 1] == '/' && Parts(path) != []
    ensures |JoinSlash(Parts(path))| < |RStripSlashes(path)|
  {
    var base := RStripSlashes(path);
    PartsIgnoreTrailingSlashes(path);
    RStripSlashesIsPrefix(path);
    SegmentParts("");
    assert base != "" && base[0] == '/';
    PartsIgnoreLeadingSlashes(base);
    DropSlashesShort(base);
    JoinPartsShort(DropSlashes(base));
  }

  lemma WrittenWithoutSlash(path: string)
    requires path != "" && path[0] == '/'
    ensures |JoinSlash(Parts(DropSlashes(RStrip(path))))| < |path|
  {
    StripRooted(path);
    RStripShort(path);
    DropSlashesShort(RStrip(path));
    JoinPartsShort(DropSlashes(RStrip(path)));
  }

  /** What is written at a rooted path is named no longer than the path without the slashes at
      its end: nothing the key builder does to a path makes it longer. */
  lemma WrittenIsShort(path: string)
    requires path != "" && path[0] == '/' && SafeRelative(path).Some?
    ensures |SafeRelative(path).value| < |RStripSlashes(path)|
  {
    StripRooted(path);
    if path[|path| - 1] == '/' {
      PartsIgnoreLeadingSlashes(path);
      WrittenAtSlashes(path);
    } else {
      WrittenWithoutSlash(path);
    }
  }

  /** `delete` of the path that was written finds the file exactly when the path, slashes at its
      end aside, already is the normal form that `write` made of it. */
  lemma DeleteFindsWrittenIff(path: string)
    requires SafeRelative(path).Some?
    ensures Doomed(RStripSlashes(path), Written(path)) <==> NamesItself(path)
  {
    var v := Written(path);
    if path != "" && path[0] == '/' {
      WrittenIsShort(path);
    } else if path != "" {
      UnrootedDeleteFindsNothing(path, v);
      RStripSlashesKeepsHead(path);
    }
  }

  /** A rooted path that `write` accepts and whose file `delete` does not find, so that in an
      area with nothing else it fails (`WriteThenDelete`). */
  lemma DoubledSlashIsNotFound()
    ensures SafeRelative("//a") == Some("a") && KeyForArea("upload", "//a", None, None).Some?
    ensures !NamesItself("//a") && !Doomed(RStripSlashes("//a"), Written("//a"))
  {
    var path := "//a";
    assert Strip(path) == path;
    assert path[1..] == "/a" && path[1..][1..] == "a";
    assert DropSlashes(path) == "a";
    SegmentParts("a");
    assert JoinSlash(["a"]) == "a";
  }
}
