// The records booting leaves: of files fetched, in conflict and sent, and of directories fetched.
module BootRecords {
  import opened Wrappers
  import opened Paths
  import opened Database
  import opened DiskSync
  import opened BootSets
  import D = Decimal
  import N = Namespace

  // What booting meets outside: version and content of a file as the block servers return it, what
  // settling a conflict leaves, and the text on disk.
  datatype World = World(fetched: string -> (string, string), settled: string -> (string, string),
                         contents: string -> string)

  function Fetched(w: World, k: string): Meta {
    FileMeta(w.fetched(k).0, w.fetched(k).1)
  }

  function Settled(w: World, k: string): Meta {
    FileMeta(w.settled(k).0, w.settled(k).1)
  }

  // `loadFromDatabase` on a file: a directory record has no version, so the initial one stays.
  function VersionOf(kv: map<string, Meta>, k: string): string {
    if k in kv && kv[k].FileMeta? then kv[k].version else "0"
  }

  // The version after an upload; a text that is no number is never accepted by the server.
  function NextVersion(version: string): string {
    match D.Int(version)
    case Some(v) => D.StrInt(v + 1)
    case None => version
  }

  // Versions as the servers count them go up by one.
  lemma UploadCountsUp(n: nat)
    ensures NextVersion(D.Str(n)) == D.Str(n + 1)
    ensures NextVersion("0") == "1"
  {
    D.IntOfStr(n);
    D.IntOfStr(0);
    assert D.Str(0) == "0" && D.Str(1) == "1";
  }

  // ---------- remote to local ----------

  // A fetched directory keeps what an old record lists and adds what the server lists.
  function FetchedDir(a: map<string, Meta>, s: N.Store, d: string): Meta
    requires d in s
  {
    DirMeta(FilesOf(a, d) + (if s[d].files.Some? then s[d].files.value else []),
            DirectoriesOf(a, d) + (if s[d].subdirs.Some? then s[d].subdirs.value else []))
  }

  // What the walk leaves at key `p`, having met the server's `files` and `dirs`; `known` is on disk.
  ghost predicate PulledAt(w: World, a: map<string, Meta>, b: map<string, Meta>, s: N.Store, files: set<string>,
                           dirs: set<string>, known: set<string>, p: string)
  {
    if p in files then p in b && b[p] == if p in known then Settled(w, p) else Fetched(w, p)
    else if p in dirs && p !in known then p in b && p in s && b[p] == FetchedDir(a, s, p)
    else (p in b <==> p in a) && (p in a ==> b[p] == a[p])
  }

  ghost predicate Pulled(w: World, a: map<string, Meta>, b: map<string, Meta>, s: N.Store, files: set<string>,
                         dirs: set<string>, known: set<string>)
  {
    forall p :: PulledAt(w, a, b, s, files, dirs, known, p)
  }

  lemma PulledTwice(w: World, a: map<string, Meta>, b: map<string, Meta>, c: map<string, Meta>, s: N.Store,
                    files: set<string>, dirs: set<string>, more: set<string>, moreDirs: set<string>, known: set<string>)
    requires Pulled(w, a, b, s, files, dirs, known) && Pulled(w, b, c, s, more, moreDirs, known)
    requires moreDirs !! files + dirs
    ensures Pulled(w, a, c, s, files + more, dirs + moreDirs, known)
  {
    forall p
      ensures PulledAt(w, a, c, s, files + more, dirs + moreDirs, known, p)
    {
      assert PulledAt(w, a, b, s, files, dirs, known, p) && PulledAt(w, b, c, s, more, moreDirs, known, p);
    }
  }

  lemma PulledNothing(w: World, a: map<string, Meta>, s: N.Store, known: set<string>)
    ensures Pulled(w, a, a, s, {}, {}, known)
  {}

  lemma PulledFile(w: World, a: map<string, Meta>, s: N.Store, k: string, known: set<string>)
    ensures Pulled(w, a, a[k := if k in known then Settled(w, k) else Fetched(w, k)], s, {k}, {}, known)
  {}

  // The record of the directory itself is written last, from what was loaded first.
  lemma PulledOwner(w: World, a: map<string, Meta>, b: map<string, Meta>, s: N.Store, files: set<string>,
                    dirs: set<string>, known: set<string>, d: string)
    requires Pulled(w, a, b, s, files, dirs, known) && d in s && d !in files + dirs && d !in known
    ensures Pulled(w, a, b[d := FetchedDir(a, s, d)], s, files, {d} + dirs, known)
  {
    var c := b[d := FetchedDir(a, s, d)];
    forall p
      ensures PulledAt(w, a, c, s, files, {d} + dirs, known, p)
    {
      assert PulledAt(w, a, b, s, files, dirs, known, p);
    }
  }

  // Nothing that was stored goes.
  lemma PulledKeepsKeys(w: World, a: map<string, Meta>, b: map<string, Meta>, s: N.Store, files: set<string>,
                        dirs: set<string>, known: set<string>)
    requires Pulled(w, a, b, s, files, dirs, known)
    ensures a.Keys <= b.Keys
  {
    forall p | p in a ensures p in b { assert PulledAt(w, a, b, s, files, dirs, known, p); }
  }

  // ---------- local to remote ----------

  // An upload raises the version by one and stores the text on disk.
  ghost predicate PushedAt(w: World, a: map<string, Meta>, b: map<string, Meta>, files: set<string>, p: string) {
    if p in files then p in b && b[p] == FileMeta(NextVersion(VersionOf(a, p)), w.contents(p))
    else (p in b <==> p in a) && (p in a ==> b[p] == a[p])
  }

  ghost predicate Pushed(w: World, a: map<string, Meta>, b: map<string, Meta>, files: set<string>) {
    forall p :: PushedAt(w, a, b, files, p)
  }

  lemma PushedTwice(w: World, a: map<string, Meta>, b: map<string, Meta>, c: map<string, Meta>,
                    files: set<string>, more: set<string>)
    requires Pushed(w, a, b, files) && Pushed(w, b, c, more) && files !! more
    ensures Pushed(w, a, c, files + more)
  {
    forall p
      ensures PushedAt(w, a, c, files + more, p)
    {
      assert PushedAt(w, a, b, files, p) && PushedAt(w, b, c, more, p);
    }
  }

  lemma PushedFile(w: World, a: map<string, Meta>, k: string)
    ensures Pushed(w, a, a[k := FileMeta(NextVersion(VersionOf(a, k)), w.contents(k))], {k})
  {}

  lemma PushedNothing(w: World, a: map<string, Meta>)
    ensures Pushed(w, a, a, {})
  {}

  lemma PushedKeepsKeys(w: World, a: map<string, Meta>, b: map<string, Meta>, files: set<string>)
    requires Pushed(w, a, b, files)
    ensures a.Keys <= b.Keys
  {
    forall p | p in a ensures p in b { assert PushedAt(w, a, b, files, p); }
  }

  // ---------- what is on disk, by key ----------

  // Below `dir`, `known` is what is on disk.
  ghost predicate KnownHere(known: set<string>, dir: string, items: seq<Item>) {
    forall p | Below(dir, p) :: p in known <==> p in AllText(dir, items) || p in AllDirs(dir, items)
  }

  ghost predicate NoneKnown(known: set<string>, dir: string) {
    forall p | AtOrBelow(dir, p) :: p !in known
  }

  // What is on disk below a directory lies at or below the key of one of its items.
  lemma {:induction false} TextIsBelow(key: string, items: seq<Item>, p: string)
    requires p in AllText(key, items)
    ensures Below(key, p)
    decreases items
  {
    var x := TextIsOfItem(key, items, p);
    if !IsText(x) { TextIsBelow(Child(key, x.name), x.inside, p); }
    BelowChild(key, x.name, p);
  }

  lemma {:induction false} DirIsBelow(key: string, items: seq<Item>, p: string)
    requires p in AllDirs(key, items)
    ensures Below(key, p)
    decreases items
  {
    var x := DirIsOfItem(key, items, p);
    if p != Child(key, x.name) { DirIsBelow(Child(key, x.name), x.inside, p); }
    BelowChild(key, x.name, p);
  }

  // The item a key on disk belongs to is the one whose name follows.
  lemma ItemOfKey(key: string, items: seq<Item>, n: string, p: string) returns (x: Item)
    requires WellFormed(items) && '/' !in n && AtOrBelow(Child(key, n), p)
    requires p in AllText(key, items) || p in AllDirs(key, items)
    ensures x in items && x.name == n && (IsText(x) || x.Directory?)
    ensures p in AllText(key, items) ==> p in ItemText(key, x)
    ensures p in AllDirs(key, items) ==> p in ItemDirs(key, x)
  {
    var c := Child(key, n);
    if p in AllText(key, items) { x := TextItem(key, items, n, p); }
    if p in AllDirs(key, items) {
      var y := DirItem(key, items, n, p);
      assert p in AllText(key, items) ==> x == y;
      x := y;
    }
  }

  lemma TextItem(key: string, items: seq<Item>, n: string, p: string) returns (x: Item)
    requires WellFormed(items) && '/' !in n && AtOrBelow(Child(key, n), p) && p in AllText(key, items)
    ensures x in items && x.name == n && (IsText(x) || x.Directory?) && p in ItemText(key, x)
  {
    x := TextIsOfItem(key, items, p);
    if x.Directory? { TextIsBelow(Child(key, x.name), x.inside, p); }
    if x.name != n { SiblingsAreApart(key, n, x.name, p); }
  }

  lemma DirItem(key: string, items: seq<Item>, n: string, p: string) returns (x: Item)
    requires WellFormed(items) && '/' !in n && AtOrBelow(Child(key, n), p) && p in AllDirs(key, items)
    ensures x in items && x.name == n && x.Directory? && p in ItemDirs(key, x)
  {
    x := DirIsOfItem(key, items, p);
    if p != Child(key, x.name) { DirIsBelow(Child(key, x.name), x.inside, p); }
    if x.name != n { SiblingsAreApart(key, n, x.name, p); }
  }

  lemma KnownBelowChild(known: set<string>, key: string, items: seq<Item>, x: Item)
    requires WellFormed(items) && KnownHere(known, key, items) && x in items && x.Directory?
    ensures KnownHere(known, Child(key, x.name), x.inside) && Child(key, x.name) in known
  {
    var c := Child(key, x.name);
    ItemIsPart(key, items, x);
    assert AtOrBelow(c, c);
    BelowChild(key, x.name, c);
    forall p | Below(c, p)
      ensures p in known <==> p in AllText(c, x.inside) || p in AllDirs(c, x.inside)
    {
      BelowChild(key, x.name, p);
      if p in known {
        var y := ItemOfKey(key, items, x.name, p);
        assert y == x;
      }
    }
  }

  lemma NoneKnownBelow(known: set<string>, key: string, items: seq<Item>, n: string)
    requires WellFormed(items) && KnownHere(known, key, items) && '/' !in n && !IsTxt(n)
    requires Child(key, n) !in DirKeys(key, items)
    ensures NoneKnown(known, Child(key, n))
  {
    forall p | AtOrBelow(Child(key, n), p)
      ensures p !in known
    {
      BelowChild(key, n, p);
      if p in known { var y := ItemOfKey(key, items, n, p); }
    }
  }

  lemma FileKnown(known: set<string>, key: string, items: seq<Item>, n: string)
    requires WellFormed(items) && PlainNames(items) && KnownHere(known, key, items) && '/' !in n && IsTxt(n)
    ensures Child(key, n) in known <==> Child(key, n) in TextKeys(key, items)
  {
    var k := Child(key, n);
    assert AtOrBelow(k, k);
    BelowChild(key, n, k);
    if k in known { var x := ItemOfKey(key, items, n, k); }
    if k in TextKeys(key, items) {
      var x :| x in items && IsText(x) && k == Child(key, x.name);
      ItemIsPart(key, items, x);
    }
  }

  lemma TextKeysAreText(key: string, items: seq<Item>)
    ensures forall k | k in TextKeys(key, items) :: k in AllText(key, items)
  {
    TextSplits(key, items);
  }

  // Where booting starts: everything on disk is below the root, or is the root.
  lemma KnownAtRoot(items: seq<Item>)
    ensures KnownHere(AllText(N.ROOT, items) + ({N.ROOT} + AllDirs(N.ROOT, items)), N.ROOT, items)
  {
    assert !Below(N.ROOT, N.ROOT);
  }

  lemma ThereAtRoot(s: N.Store)
    ensures ThereBelow(RemoteFiles(s), s, N.ROOT)
  {}

  lemma NoneKnownDeeper(known: set<string>, d: string, e: string)
    requires NoneKnown(known, d) && Below(d, e)
    ensures NoneKnown(known, e)
  {
    forall p | AtOrBelow(e, p) ensures p !in known { BelowNests(d, e, p); }
  }

  // What the server has below two directories of one list, or the files of that list, is apart.
  lemma UnderIsApart(s: N.Store, dir: string, list: seq<string>, i: nat)
    requires N.Tree(s) && i < |list| && forall j | 0 <= j < i :: list[j] != list[i]
    requires forall k | k in list :: HasParent(k) && Parent(k) == dir
    ensures DirsUnder(s, [list[i]]) !! FilesUnder(s, list[..i]) + DirsUnder(s, list[..i])
  {
    var n := ParentAndName(list[i]);
    assert list[i] in list;
    forall j, p | 0 <= j < i && AtOrBelow(list[j], p)
      ensures !AtOrBelow(list[i], p)
    {
      assert list[j] in list;
      var m := ParentAndName(list[j]);
      SiblingsAreApart(dir, m, n, p);
    }
  }

  lemma UnderNothing(s: N.Store)
    ensures FilesUnder(s, []) == {} && DirsUnder(s, []) == {}
  {}

  // The walk has met one more directory of a list.
  lemma OneMoreDirectory(w: World, a: map<string, Meta>, b: map<string, Meta>, c: map<string, Meta>, s: N.Store,
                         dir: string, list: seq<string>, i: nat, known: set<string>)
    requires N.Tree(s) && i < |list| && NoDuplicates(list) && ListedIn(s, dir, list, true)
    requires Pulled(w, a, b, s, FilesUnder(s, list[..i]), DirsUnder(s, list[..i]), known)
    requires Pulled(w, b, c, s, FilesUnder(s, [list[i]]), DirsUnder(s, [list[i]]), known)
    ensures Pulled(w, a, c, s, FilesUnder(s, list[..i + 1]), DirsUnder(s, list[..i + 1]), known)
    ensures FilesUnder(s, list[..i + 1]) == FilesUnder(s, list[..i]) + FilesUnder(s, [list[i]])
    ensures DirsUnder(s, list[..i + 1]) == DirsUnder(s, list[..i]) + DirsUnder(s, [list[i]])
  {
    UnderIsApart(s, dir, list, i);
    UnderSnoc(s, list[..i], list[i]);
    TakeOneMore(list, i);
    hide FilesUnder, DirsUnder, Pulled;
    PulledTwice(w, a, b, c, s, FilesUnder(s, list[..i]), DirsUnder(s, list[..i]),
                FilesUnder(s, [list[i]]), DirsUnder(s, [list[i]]), known);
  }

  // The walk has met one more file.
  lemma PulledFileMore(w: World, a: map<string, Meta>, b: map<string, Meta>, s: N.Store, files: set<string>,
                       k: string, known: set<string>)
    requires Pulled(w, a, b, s, files, {}, known)
    ensures Pulled(w, a, b[k := if k in known then Settled(w, k) else Fetched(w, k)], s, files + {k}, {}, known)
  {
    var c := b[k := if k in known then Settled(w, k) else Fetched(w, k)];
    PulledFile(w, b, s, k, known);
    PulledTwice(w, a, b, c, s, files, {}, {k}, {}, known);
    var none: set<string> := {};
    assert none + none == none;
  }

  lemma NoneKnownAt(known: set<string>, d: string, p: string)
    requires NoneKnown(known, d) && Below(d, p)
    ensures p !in known
  {}

  // A directory is not met again below itself.
  lemma OwnerIsApart(s: N.Store, d: string, known: set<string>)
    requires N.Tree(s) && d in s && s[d].isDir && NoneKnown(known, d)
    ensures N.EntryOk(s[d]) && d !in FilesUnder(s, [d]) + DirsUnder(s, s[d].subdirs.value) && d !in known
    ensures DirsUnder(s, [d]) == {d} + DirsUnder(s, s[d].subdirs.value)
  {
    UnderDirectory(s, d);
    assert AtOrBelow(d, d);
    forall e | e in s[d].subdirs.value
      ensures !AtOrBelow(e, d)
    {
      assert N.Lists(s[d], e, true);
      ListedIsBelow(s, d, e, true);
    }
  }

  // Files and directories of a listing are different entries.
  lemma FilesAndDirsApart(s: N.Store, dir: string, files: seq<string>, dirs: seq<string>)
    requires N.Tree(s) && dir in s && forall k | k in files :: N.Lists(s[dir], k, false)
    ensures DirsUnder(s, dirs) !! KeySet(files)
  {
    forall k | k in files ensures k in s && !s[k].isDir { ListedIsBelow(s, dir, k, false); }
  }

  // A directory on disk: its files and then its subdirectories were met; its own record is kept.
  lemma ListingIsPulled(w: World, a: map<string, Meta>, b: map<string, Meta>, c: map<string, Meta>, s: N.Store,
                        dir: string, known: set<string>)
    requires N.Tree(s) && dir in s && s[dir].isDir && N.EntryOk(s[dir]) && dir in known
    requires Pulled(w, a, b, s, KeySet(s[dir].files.value), {}, known)
    requires var list := s[dir].subdirs.value; Pulled(w, b, c, s, FilesUnder(s, list), DirsUnder(s, list), known)
    ensures Pulled(w, a, c, s, FilesUnder(s, [dir]), DirsUnder(s, [dir]), known)
  {
    var list := s[dir].subdirs.value;
    UnderDirectory(s, dir);
    FilesAndDirsApart(s, dir, s[dir].files.value, list);
    PulledTwice(w, a, b, c, s, KeySet(s[dir].files.value), {}, FilesUnder(s, list), DirsUnder(s, list), known);
    forall p
      ensures PulledAt(w, a, c, s, FilesUnder(s, [dir]), DirsUnder(s, [dir]), known, p)
    {
      assert PulledAt(w, a, c, s, FilesUnder(s, [dir]), {} + DirsUnder(s, list), known, p);
    }
  }

  // ---------- what was sent ----------

  // The text files in the directories of `items` whose keys are listed.
  function DirText(key: string, items: seq<Item>, list: seq<string>): set<string> {
    set x, p | x in items && x.Directory? && Child(key, x.name) in list &&
               p in AllText(Child(key, x.name), x.inside) :: p
  }

  lemma DirTextSnoc(key: string, items: seq<Item>, list: seq<string>, x: Item)
    requires WellFormed(items) && x in items && x.Directory?
    ensures DirText(key, items, list + [Child(key, x.name)]) ==
            DirText(key, items, list) + AllText(Child(key, x.name), x.inside)
  {
    var c := Child(key, x.name);
    forall y | y in items && y.Directory? && Child(key, y.name) == c
      ensures y == x
    {
      ChildIsInjective(key, y.name, x.name);
    }
    forall p | p in DirText(key, items, list + [c])
      ensures p in DirText(key, items, list) + AllText(c, x.inside)
    {
      var y :|
        y in items && y.Directory? && Child(key, y.name) in list + [c] && p in AllText(Child(key, y.name), y.inside);
      if Child(key, y.name) == c { assert y == x; }
    }
    assert c in list + [c];
  }

  lemma TextSplits(key: string, items: seq<Item>)
    ensures forall p :: p in AllText(key, items) <==>
              p in TextKeys(key, items) || p in DirText(key, items, DirKeys(key, items))
  {
    forall p | p in AllText(key, items)
      ensures p in TextKeys(key, items) || p in DirText(key, items, DirKeys(key, items))
    {
      var x := TextIsOfItem(key, items, p);
    }
    forall p | p in TextKeys(key, items)
      ensures p in AllText(key, items)
    {
      var x :| x in items && IsText(x) && p == Child(key, x.name);
      ItemIsPart(key, items, x);
    }
    forall p | p in DirText(key, items, DirKeys(key, items))
      ensures p in AllText(key, items)
    {
      var x :| x in items && x.Directory? && p in AllText(Child(key, x.name), x.inside);
      ItemIsPart(key, items, x);
    }
  }

  lemma {:induction false} KeysAreDistinct(key: string, items: seq<Item>)
    requires WellFormed(items)
    ensures NoDuplicates(TextKeys(key, items)) && NoDuplicates(DirKeys(key, items))
    decreases |items|
  {
    if items != [] {
      var last := |items| - 1;
      var x, front := items[last], items[..last];
      assert items == front + [x];
      KeysAreDistinct(key, front);
      if Child(key, x.name) in TextKeys(key, front) || Child(key, x.name) in DirKeys(key, front) {
        var y :| y in front && Child(key, x.name) == Child(key, y.name);
        ChildIsInjective(key, x.name, y.name);
      }
    }
  }

  // Below `dir`, `there` is the files of the server; or it is nothing.
  ghost predicate ThereBelow(there: set<string>, s: N.Store, dir: string) {
    forall p | Below(dir, p) :: p in there <==> p in RemoteFiles(s)
  }

  ghost predicate NoneThere(there: set<string>, dir: string) {
    forall p | Below(dir, p) :: p !in there
  }

  ghost predicate ReadyFor(there: set<string>, s: N.Store, list: seq<string>, known: set<string>) {
    forall k | k in list :: if k in known then ThereBelow(there, s, k) else NoneThere(there, k)
  }

  // What is above a stored entry is a stored directory.
  lemma {:induction false} NothingBelowMissing(s: N.Store, d: string, p: string)
    requires N.Tree(s) && p in s && Below(d, p)
    ensures d in s && s[d].isDir
    decreases |p|
  {
    assert N.Placed(s, p);
    assert p[|d|] == (d + "/")[|d|] == '/';
    assert p != N.ROOT;
    BelowParent(d, p);
    if Parent(p) != d { NothingBelowMissing(s, d, Parent(p)); }
  }

  lemma ChildrenAreBelow(key: string, items: seq<Item>)
    ensures forall k | k in TextKeys(key, items) || k in DirKeys(key, items) :: Below(key, k)
  {
    forall k | k in TextKeys(key, items) || k in DirKeys(key, items)
      ensures Below(key, k)
    {
      var x :| x in items && k == Child(key, x.name);
    }
  }

  lemma NoneThereIsReady(there: set<string>, key: string, items: seq<Item>)
    requires NoneThere(there, key)
    ensures forall s: N.Store :: ReadyFor(there, s, DirKeys(key, items), {})
    ensures forall k | k in TextKeys(key, items) :: k !in there
  {
    ChildrenAreBelow(key, items);
    forall k | k in DirKeys(key, items)
      ensures NoneThere(there, k)
    {
      forall p | Below(k, p) ensures p !in there { BelowNests(key, k, p); }
    }
  }

  // The listing of a directory tells which files are there, and which directories there is nothing of.
  lemma ListingIsKnown(there: set<string>, s: N.Store, dir: string, items: seq<Item>)
    requires N.Tree(s) && dir in s && s[dir].isDir && ThereBelow(there, s, dir) && WellFormed(items)
    ensures N.EntryOk(s[dir])
    ensures var files, dirs := KeySet(s[dir].files.value), KeySet(s[dir].subdirs.value);
            && files <= RemoteFiles(s) && dirs <= RemoteDirs(s)
            && (forall k | k in TextKeys(dir, items) :: k in files <==> k in there)
            && ReadyFor(there, s, DirKeys(dir, items), dirs)
  {
    ChildrenAreBelow(dir, items);
    assert N.EntryOk(s[dir]);
    var files, dirs := KeySet(s[dir].files.value), KeySet(s[dir].subdirs.value);
    forall k | k in files
      ensures k in RemoteFiles(s)
    {
      N.ListsAreChildren(s, dir, k);
      assert N.Lists(s[dir], k, false);
    }
    forall k | k in dirs
      ensures k in RemoteDirs(s)
    {
      N.ListsAreChildren(s, dir, k);
      assert N.Lists(s[dir], k, true);
    }
    forall k | k in TextKeys(dir, items)
      ensures k in files <==> k in there
    {
      ItemKeyIsListed(s, dir, items, k);
      assert N.Lists(s[dir], k, false) <==> k in files;
    }
    forall k | k in DirKeys(dir, items)
      ensures if k in dirs then ThereBelow(there, s, k) else NoneThere(there, k)
    {
      ItemKeyIsListed(s, dir, items, k);
      assert N.Lists(s[dir], k, true) <==> k in dirs;
      DirectoryIsReady(there, s, dir, k);
    }
  }

  lemma ItemKeyIsListed(s: N.Store, dir: string, items: seq<Item>, k: string)
    requires N.Tree(s) && dir in s && s[dir].isDir && WellFormed(items)
    requires k in TextKeys(dir, items) || k in DirKeys(dir, items)
    ensures N.Lists(s[dir], k, false) <==> k in RemoteFiles(s)
    ensures N.Lists(s[dir], k, true) <==> k in RemoteDirs(s)
  {
    var x :| x in items && k == Child(dir, x.name);
    ParentOfChild(dir, x.name);
    N.ListsAreChildren(s, dir, k);
    RootIsNoChild(dir, x.name);
  }

  lemma RootIsNoChild(d: string, n: string)
    ensures Child(d, n) != N.ROOT
  {
    assert Child(d, n)[|d|] == '/';
  }

  lemma DirectoryIsReady(there: set<string>, s: N.Store, dir: string, k: string)
    requires N.Tree(s) && ThereBelow(there, s, dir) && Below(dir, k)
    ensures if k in RemoteDirs(s) then ThereBelow(there, s, k) else NoneThere(there, k)
  {
    forall p | Below(k, p)
      ensures p in there <==> p in RemoteFiles(s)
      ensures k !in RemoteDirs(s) ==> p !in there
    {
      BelowNests(dir, k, p);
      if p in s { NothingBelowMissing(s, k, p); }
    }
  }

  // Files added to the directory itself are not below its subdirectories.
  lemma ReadyAfterFiles(there: set<string>, s: N.Store, t: N.Store, dir: string, items: seq<Item>, known: set<string>)
    requires WellFormed(items) && Grown(s, t, KeySet(TextKeys(dir, items)), {})
    requires ReadyFor(there, s, DirKeys(dir, items), known)
    ensures ReadyFor(there, t, DirKeys(dir, items), known)
  {
    forall k, p | k in DirKeys(dir, items) && Below(k, p)
      ensures p !in TextKeys(dir, items)
    {
      if p in TextKeys(dir, items) {
        var x :| x in items && k == Child(dir, x.name);
        var y :| y in items && p == Child(dir, y.name);
        ParentOfChild(dir, y.name);
        BelowParent(k, p);
      }
    }
    forall k | k in DirKeys(dir, items) && k in known
      ensures ThereBelow(there, t, k)
    {
      assert ThereBelow(there, s, k);
    }
  }

  // What was added below one directory is not below the others.
  lemma ReadyForRest(there: set<string>, s: N.Store, t: N.Store, dir: string, items: seq<Item>, list: seq<string>,
                     i: nat, x: Item, known: set<string>)
    requires WellFormed(items) && NoDuplicates(list) && i < |list| && (forall k | k in list :: k in DirKeys(dir, items))
    requires x in items && x.Directory? && list[i] == Child(dir, x.name)
    requires Grown(s, t, ItemText(dir, x), ItemDirs(dir, x)) && ReadyFor(there, s, list[i..], known)
    ensures ReadyFor(there, t, list[i + 1..], known)
  {
    forall k | k in list[i + 1..]
      ensures if k in known then ThereBelow(there, t, k) else NoneThere(there, k)
    {
      assert k in list[i..] && k in list;
      var j :| i + 1 <= j < |list| && list[j] == k;
      var y :| y in items && k == Child(dir, y.name);
      forall p | Below(k, p)
        ensures p !in ItemText(dir, x)
      {
        if p in ItemText(dir, x) {
          TextIsBelow(Child(dir, x.name), x.inside, p);
          assert y.name != x.name;
          SiblingsAreApart(dir, x.name, y.name, p);
        }
      }
    }
  }

  lemma PushedFileMore(w: World, a: map<string, Meta>, b: map<string, Meta>, c: map<string, Meta>,
                       list: seq<string>, i: nat, there: set<string>)
    requires i < |list| && NoDuplicates(list) && Pushed(w, a, b, KeySet(list[..i]) - there)
    requires if list[i] in there then c == b else Pushed(w, b, c, {list[i]})
    ensures Pushed(w, a, c, KeySet(list[..i + 1]) - there)
  {
    assert list[..i + 1] == list[..i] + [list[i]];
    assert KeySet(list[..i + 1]) == KeySet(list[..i]) + {list[i]};
    if list[i] in there {
      assert KeySet(list[..i + 1]) - there == KeySet(list[..i]) - there;
    } else {
      assert KeySet(list[..i + 1]) - there == (KeySet(list[..i]) - there) + {list[i]};
      PushedTwice(w, a, b, c, KeySet(list[..i]) - there, {list[i]});
    }
  }

  lemma PushedDirMore(w: World, a: map<string, Meta>, b: map<string, Meta>, c: map<string, Meta>, dir: string,
                      items: seq<Item>, list: seq<string>, i: nat, x: Item, there: set<string>)
    requires WellFormed(items) && NoDuplicates(list) && i < |list|
    requires x in items && x.Directory? && list[i] == Child(dir, x.name)
    requires Pushed(w, a, b, DirText(dir, items, list[..i]) - there)
    requires Pushed(w, b, c, AllText(list[i], x.inside) - there)
    ensures Pushed(w, a, c, DirText(dir, items, list[..i + 1]) - there)
  {
    var more := AllText(list[i], x.inside);
    assert list[..i + 1] == list[..i] + [list[i]];
    DirTextSnoc(dir, items, list[..i], x);
    DirTextIsApart(dir, items, list[..i], x);
    hide DirText, Pushed, AllText;
    var done := DirText(dir, items, list[..i]);
    assert (done + more) - there == (done - there) + (more - there);
    PushedTwice(w, a, b, c, done - there, more - there);
  }

  lemma DirTextIsApart(dir: string, items: seq<Item>, list: seq<string>, x: Item)
    requires WellFormed(items) && x in items && x.Directory? && Child(dir, x.name) !in list
    ensures DirText(dir, items, list) !! AllText(Child(dir, x.name), x.inside)
  {
    forall p | p in DirText(dir, items, list) && p in AllText(Child(dir, x.name), x.inside)
      ensures false
    {
      var y :| y in items && y.Directory? && Child(dir, y.name) in list && p in AllText(Child(dir, y.name), y.inside);
      TextIsBelow(Child(dir, x.name), x.inside, p);
      TextIsBelow(Child(dir, y.name), y.inside, p);
      SiblingsAreApart(dir, x.name, y.name, p);
    }
  }

  lemma PushedAll(w: World, a: map<string, Meta>, b: map<string, Meta>, c: map<string, Meta>, dir: string,
                  items: seq<Item>, there: set<string>)
    requires WellFormed(items)
    requires Pushed(w, a, b, KeySet(TextKeys(dir, items)) - there)
    requires Pushed(w, b, c, DirText(dir, items, DirKeys(dir, items)) - there)
    ensures Pushed(w, a, c, AllText(dir, items) - there)
  {
    var files, deeper := KeySet(TextKeys(dir, items)), DirText(dir, items, DirKeys(dir, items));
    TextSplits(dir, items);
    forall p | p in files && p in deeper
      ensures false
    {
      var x :| x in items && x.Directory? && p in AllText(Child(dir, x.name), x.inside);
      var y :| y in items && p == Child(dir, y.name);
      TextIsBelow(Child(dir, x.name), x.inside, p);
      ParentOfChild(dir, y.name);
      BelowParent(Child(dir, x.name), p);
    }
    hide Pushed;
    assert AllText(dir, items) - there == (files - there) + (deeper - there);
    PushedTwice(w, a, b, c, files - there, deeper - there);
  }

  // ---------- the records after all passes ----------

  lemma {:induction false} SyncedIsRecorded(a: map<string, Meta>, kv: map<string, Meta>, key: string, items: seq<Item>)
    requires Synced(a, kv, key, items)
    ensures forall p | p in AllText(key, items) :: p in kv && kv[p] == Recorded(a, p)
    decreases items
  {
    forall p | p in AllText(key, items)
      ensures p in kv && kv[p] == Recorded(a, p)
    {
      var x := TextIsOfItem(key, items, p);
      if x.Directory? { SyncedIsRecorded(a, kv, Child(key, x.name), x.inside); }
    }
  }

  predicate IsChild(q: string, d: string) {
    HasParent(q) && Parent(q) == d
  }

  // What the record of a fetched directory lists: what an old one did, and its entries on the server.
  lemma FetchedLists(a: map<string, Meta>, s: N.Store, d: string, q: string)
    requires N.Tree(s) && d in s && s[d].isDir
    ensures var kv := map[d := FetchedDir(a, s, d)];
            && (q in FilesOf(kv, d) <==> q in FilesOf(a, d) || (q in RemoteFiles(s) && IsChild(q, d)))
            && (q in DirectoriesOf(kv, d) <==> q in DirectoriesOf(a, d) || (q in RemoteDirs(s) && IsChild(q, d)))
  {
    N.ListsAreChildren(s, d, q);
    assert N.Lists(s[d], q, true) <==> q in s[d].subdirs.value;
    assert N.Lists(s[d], q, false) <==> q in s[d].files.value;
    if IsChild(q, d) {
      var n := ParentAndName(q);
      RootIsNoChild(d, n);
    }
  }

  // The record of each directory only the server had lists what an old record did, and its entries
  // on the server.
  ghost predicate ListsFetched(a: map<string, Meta>, kv: map<string, Meta>, s: N.Store, here: set<string>) {
    forall d, q | d in RemoteDirs(s) && d !in here ::
      && d in kv && kv[d].DirMeta?
      && (q in FilesOf(kv, d) <==> q in FilesOf(a, d) || (q in RemoteFiles(s) && IsChild(q, d)))
      && (q in DirectoriesOf(kv, d) <==> q in DirectoriesOf(a, d) || (q in RemoteDirs(s) && IsChild(q, d)))
  }

  lemma FetchedRecordsList(a: map<string, Meta>, kv: map<string, Meta>, s: N.Store, here: set<string>)
    requires N.Tree(s)
    requires forall d | d in RemoteDirs(s) && d !in here :: d in s && d in kv && kv[d] == FetchedDir(a, s, d)
    ensures ListsFetched(a, kv, s, here)
  {
    hide N.Tree;
    forall d, q | d in RemoteDirs(s) && d !in here
      ensures d in kv && kv[d].DirMeta?
      ensures q in FilesOf(kv, d) <==> q in FilesOf(a, d) || (q in RemoteFiles(s) && IsChild(q, d))
      ensures q in DirectoriesOf(kv, d) <==> q in DirectoriesOf(a, d) || (q in RemoteDirs(s) && IsChild(q, d))
    {
      FetchedLists(a, s, d, q);
    }
  }

  lemma ServerNamesByKind(s: N.Store)
    requires RemoteOk(s)
    ensures (forall p | p in RemoteFiles(s) :: IsTxt(p)) && (forall p | p in RemoteDirs(s) :: !IsTxt(p))
  {}

  lemma BootedRecords(w: World, a: map<string, Meta>, b: map<string, Meta>, c: map<string, Meta>, d: map<string, Meta>,
                      s: N.Store, items: seq<Item>, known: set<string>)
    requires known == AllText(N.ROOT, items) + ({N.ROOT} + AllDirs(N.ROOT, items))
    requires forall p | p in AllText(N.ROOT, items) :: p in b && b[p] == Recorded(a, p)
    requires ({N.ROOT} + AllDirs(N.ROOT, items)) !! RemoteFiles(s) && AllText(N.ROOT, items) !! RemoteDirs(s)
    requires Pulled(w, b, c, s, RemoteFiles(s), RemoteDirs(s), known)
    requires Pushed(w, c, d, AllText(N.ROOT, items) - RemoteFiles(s))
    ensures forall p | p in RemoteFiles(s) ::
              p in d && d[p] == if p in AllText(N.ROOT, items) then Settled(w, p) else Fetched(w, p)
    ensures forall p | p in AllText(N.ROOT, items) && p !in RemoteFiles(s) ::
              p in d && d[p] == FileMeta(NextVersion(VersionOf(a, p)), w.contents(p))
    ensures forall p | p in RemoteDirs(s) && p !in {N.ROOT} + AllDirs(N.ROOT, items) ::
              p in s && p in d && d[p] == FetchedDir(b, s, p)
  {
    hide AllText, AllDirs, N.Tree, NextVersion;
    forall p | p in RemoteFiles(s) || p in RemoteDirs(s) || p in AllText(N.ROOT, items)
      ensures PulledAt(w, b, c, s, RemoteFiles(s), RemoteDirs(s), known, p)
      ensures PushedAt(w, c, d, AllText(N.ROOT, items) - RemoteFiles(s), p)
    {}
  }
}
