// The two trees that booting merges: what is on disk and what the server lists.
module BootSets {
  import opened Paths
  import opened Database
  import opened DiskSync
  import N = Namespace

  // ---------- what is on disk ----------

  function AllText(key: string, items: seq<Item>): set<string>
    decreases items
  {
    if items == [] then {}
    else
      var last := |items| - 1;
      var x := items[last];
      var k := Child(key, x.name);
      AllText(key, items[..last]) +
      if IsText(x) then {k} else if x.Directory? then AllText(k, x.inside) else {}
  }

  function AllDirs(key: string, items: seq<Item>): set<string>
    decreases items
  {
    if items == [] then {}
    else
      var last := |items| - 1;
      var x := items[last];
      var k := Child(key, x.name);
      AllDirs(key, items[..last]) + if x.Directory? then {k} + AllDirs(k, x.inside) else {}
  }

  // The part of one item.
  function ItemText(key: string, x: Item): set<string> {
    var k := Child(key, x.name);
    if IsText(x) then {k} else if x.Directory? then AllText(k, x.inside) else {}
  }

  function ItemDirs(key: string, x: Item): set<string> {
    var k := Child(key, x.name);
    if x.Directory? then {k} + AllDirs(k, x.inside) else {}
  }

  lemma {:induction false} ItemIsPart(key: string, items: seq<Item>, x: Item)
    requires x in items
    ensures ItemText(key, x) <= AllText(key, items) && ItemDirs(key, x) <= AllDirs(key, items)
    decreases |items|
  {
    var last := |items| - 1;
    assert items == items[..last] + [items[last]];
    if x in items[..last] { ItemIsPart(key, items[..last], x); }
  }

  lemma {:induction false} TextIsOfItem(key: string, items: seq<Item>, p: string) returns (x: Item)
    requires p in AllText(key, items)
    ensures x in items && p in ItemText(key, x)
    decreases |items|
  {
    var last := |items| - 1;
    var front := items[..last];
    x := items[last];
    assert items == front + [x];
    if p !in ItemText(key, x) { x := TextIsOfItem(key, front, p); }
  }

  lemma {:induction false} DirIsOfItem(key: string, items: seq<Item>, p: string) returns (x: Item)
    requires p in AllDirs(key, items)
    ensures x in items && p in ItemDirs(key, x)
    decreases |items|
  {
    var last := |items| - 1;
    var front := items[..last];
    x := items[last];
    assert items == front + [x];
    if p !in ItemDirs(key, x) { x := DirIsOfItem(key, front, p); }
  }

  // No directory is named like a text file.
  ghost predicate PlainNames(items: seq<Item>) {
    forall x | x in items && x.Directory? :: !IsTxt(x.name) && PlainNames(x.inside)
  }

  // The keys of a list.
  function KeySet(keys: seq<string>): (r: set<string>)
    ensures forall k :: k in r <==> k in keys
  {
    set k | k in keys
  }

  lemma KeySetSnoc(keys: seq<string>, i: nat)
    requires i < |keys|
    ensures KeySet(keys[..i + 1]) == KeySet(keys[..i]) + {keys[i]}
  {
    assert keys[..i + 1] == keys[..i] + [keys[i]];
  }

  // A directory and what its parents up to the root are called.
  function Ups(d: string): set<string> {
    if d == N.ROOT || !HasParent(d) then {d} else {d} + Ups(Parent(d))
  }

  // The monitored directory, as the keys of its text files, its directories and the rest.
  class Disk {
    var files: set<string>
    var dirs: set<string>
    const others: set<string>

    constructor (files: set<string>, dirs: set<string>, others: set<string>)
      ensures this.files == files && this.dirs == dirs && this.others == others
    {
      this.files, this.dirs, this.others := files, dirs, others;
    }

    // `ensureDirectoryExists`: creates the missing directories on the way.
    method EnsureDirectoryExists(d: string)
      modifies this`dirs
      ensures dirs == if Ups(d) !! files + others
                      then old(dirs) + (if d in old(dirs) then {} else Ups(d)) else old(dirs)
    {
      if d !in dirs && Ups(d) !! files + others {
        dirs := dirs + Ups(d);
      }
    }

    // `createTextFile`.
    method CreateTextFile(f: string)
      requires HasParent(f)
      modifies this
      ensures |f| - LastSlash(f) > 5 && IsTxt(f) && Ups(Parent(f)) <= old(dirs) && f !in old(dirs) + others ==>
                files == old(files) + {f} && dirs == old(dirs)
    {
      if |f| - 1 - LastSlash(f) <= 4 || !IsTxt(f) {
        return;
      }
      if Parent(f) !in dirs {
        EnsureDirectoryExists(Parent(f));
      }
      if Parent(f) in dirs && f !in dirs && f !in others {
        files := files + {f};
      }
    }
  }

  // ---------- what is on the server ----------

  function RemoteFiles(s: N.Store): set<string> {
    set p | p in s && !s[p].isDir
  }

  function RemoteDirs(s: N.Store): set<string> {
    set p | p in s && s[p].isDir
  }

  function FilesUnder(s: N.Store, ds: seq<string>): set<string> {
    set p, d | d in ds && p in s && !s[p].isDir && Below(d, p) :: p
  }

  function DirsUnder(s: N.Store, ds: seq<string>): set<string> {
    set p, d | d in ds && p in s && s[p].isDir && AtOrBelow(d, p) :: p
  }

  ghost predicate RemoteOk(s: N.Store) {
    && N.Tree(s) && N.NamedByKind(s)
    && (forall p | p in s && !s[p].isDir && HasParent(p) :: |p| - LastSlash(p) > 5)
  }

  lemma UnionOfThree(a: set<string>, b: set<string>, c: set<string>)
    ensures (a + b) + c == a + (b + c)
  {}

  lemma UnionWithMember(a: set<string>, x: string, b: set<string>)
    requires x in a
    ensures a + b == a + ({x} + b)
  {}

  lemma TakeOneMore<T>(list: seq<T>, i: nat)
    requires i < |list|
    ensures list[..i + 1] == list[..i] + [list[i]]
  {}

  lemma UnderSnoc(s: N.Store, ds: seq<string>, d: string)
    ensures FilesUnder(s, ds + [d]) == FilesUnder(s, ds) + FilesUnder(s, [d])
    ensures DirsUnder(s, ds + [d]) == DirsUnder(s, ds) + DirsUnder(s, [d])
  {}

  // Below a directory is what it lists, and what is below the directories it lists.
  lemma {:induction false} ListedOrDeeper(s: N.Store, d: string, p: string) returns (e: string)
    requires N.Tree(s) && d in s && s[d].isDir && p in s && Below(d, p)
    ensures N.Lists(s[d], p, s[p].isDir) || (N.Lists(s[d], e, true) && Below(e, p))
    decreases |p|
  {
    e := "";
    assert N.Placed(s, p);
    assert p[|d|] == '/';
    BelowParent(d, p);
    var q := Parent(p);
    if q != d {
      e := ListedOrDeeper(s, d, q);
      if N.Lists(s[d], q, true) { e := q; }
      BelowThroughParent(e, p);
    }
  }

  lemma ListedIsBelow(s: N.Store, d: string, p: string, isDir: bool)
    requires N.Tree(s) && d in s && N.Lists(s[d], p, isDir)
    ensures p in s && s[p].isDir == isDir && HasParent(p) && Parent(p) == d && Below(d, p)
  {
    assert N.NothingMissing(s, d);
    BelowThroughParent(d, p);
  }

  // What a stored list names.
  ghost predicate ListedIn(s: N.Store, d: string, list: seq<string>, isDir: bool) {
    forall k | k in list ::
      k in s && s[k].isDir == isDir && HasParent(k) && Parent(k) == d && Below(d, k)
  }

  lemma AllListedAreBelow(s: N.Store, d: string, list: seq<string>, isDir: bool)
    requires N.Tree(s) && d in s && forall k | k in list :: N.Lists(s[d], k, isDir)
    ensures ListedIn(s, d, list, isDir)
  {
    forall k | k in list
      ensures k in s && s[k].isDir == isDir && HasParent(k) && Parent(k) == d && Below(d, k)
    {
      ListedIsBelow(s, d, k, isDir);
    }
  }

  // `p` is below `d` just when `d` lists it or lists a directory it is below.
  ghost predicate Splits(s: N.Store, d: string, p: string)
    requires d in s
  {
    && (p in s && Below(d, p) <==>
        || N.Lists(s[d], p, false) || N.Lists(s[d], p, true)
        || exists e :: N.Lists(s[d], e, true) && p in s && Below(e, p))
    && (N.Lists(s[d], p, false) ==> p in s && !s[p].isDir)
    && (N.Lists(s[d], p, true) ==> p in s && s[p].isDir)
  }

  lemma UnderDirectoryAt(s: N.Store, d: string, p: string)
    requires N.Tree(s) && d in s && s[d].isDir
    ensures N.EntryOk(s[d]) && Splits(s, d, p)
  {
    assert N.EntryOk(s[d]);
    if p in s && Below(d, p) {
      var e := ListedOrDeeper(s, d, p);
    }
    if N.Lists(s[d], p, false) { ListedIsBelow(s, d, p, false); }
    if N.Lists(s[d], p, true) { ListedIsBelow(s, d, p, true); }
    if e :| N.Lists(s[d], e, true) && Below(e, p) {
      ListedIsBelow(s, d, e, true);
      BelowNests(d, e, p);
    }
  }

  lemma DirIsUnderItself(s: N.Store, d: string)
    requires d in s && s[d].isDir
    ensures d in DirsUnder(s, [d])
  {
    assert d in [d];
  }

  lemma SetsSplit(s: N.Store, d: string)
    requires d in s && s[d].isDir && N.EntryOk(s[d]) && forall p :: Splits(s, d, p)
    ensures FilesUnder(s, [d]) == KeySet(s[d].files.value) + FilesUnder(s, s[d].subdirs.value)
    ensures DirsUnder(s, [d]) == {d} + DirsUnder(s, s[d].subdirs.value)
  {
    assert d in [d];
    forall p
      ensures p in FilesUnder(s, [d]) <==> p in s[d].files.value || p in FilesUnder(s, s[d].subdirs.value)
      ensures p in DirsUnder(s, [d]) <==> p == d || p in DirsUnder(s, s[d].subdirs.value)
    {
      assert Splits(s, d, p);
    }
  }

  lemma UnderDirectory(s: N.Store, d: string)
    requires N.Tree(s) && d in s && s[d].isDir
    ensures N.EntryOk(s[d])
    ensures FilesUnder(s, [d]) == KeySet(s[d].files.value) + FilesUnder(s, s[d].subdirs.value)
    ensures DirsUnder(s, [d]) == {d} + DirsUnder(s, s[d].subdirs.value)
  {
    assert N.EntryOk(s[d]);
    forall p ensures Splits(s, d, p) { UnderDirectoryAt(s, d, p); }
    SetsSplit(s, d);
  }

  // Everything is at or below the root, and all that leads to a directory is a directory.
  lemma {:induction false} UpsAreDirs(s: N.Store, d: string)
    requires N.Tree(s) && d in s && s[d].isDir
    ensures Ups(d) <= RemoteDirs(s)
    decreases |d|
  {
    assert N.Placed(s, d);
    if d != N.ROOT { UpsAreDirs(s, Parent(d)); }
  }

  lemma {:induction false} AllBelowRoot(s: N.Store, p: string)
    requires N.Tree(s) && p in s
    ensures AtOrBelow(N.ROOT, p)
    decreases |p|
  {
    assert N.Placed(s, p);
    if p != N.ROOT {
      AllBelowRoot(s, Parent(p));
      BelowThroughParent(N.ROOT, p);
    }
  }

  lemma WholeTree(s: N.Store)
    requires N.Tree(s)
    ensures FilesUnder(s, [N.ROOT]) == RemoteFiles(s) && DirsUnder(s, [N.ROOT]) == RemoteDirs(s)
  {
    forall p | p in s ensures AtOrBelow(N.ROOT, p) { AllBelowRoot(s, p); }
  }

  // ---------- what a request adds on the server ----------

  ghost predicate Grown(s: N.Store, t: N.Store, files: set<string>, dirs: set<string>) {
    RemoteFiles(t) == RemoteFiles(s) + files && RemoteDirs(t) == RemoteDirs(s) + dirs
  }

  lemma CreateFileGrows(s: N.Store, path: string)
    requires RemoteOk(s) && IsTxt(path) && HasParent(path) && |path| - LastSlash(path) > 5
    requires Parent(path) in s && s[Parent(path)].isDir
    ensures RemoteOk(N.AfterCreateFile(s, path)) && Grown(s, N.AfterCreateFile(s, path), {path}, {})
  {
    N.CreateKeepsTree(s, path, false);
    CreatedFileIsOnlyChange(s, path);
  }

  lemma CreatedFileIsOnlyChange(s: N.Store, path: string)
    requires path in s ==> !s[path].isDir
    requires HasParent(path) && Parent(path) in s && s[Parent(path)].isDir
    ensures var t := N.AfterCreateFile(s, path);
            && t.Keys == s.Keys + {path} && !t[path].isDir && (forall p | p in s :: t[p].isDir == s[p].isDir)
            && Grown(s, t, {path}, {})
  {}

  lemma CreateDirectoryGrows(s: N.Store, path: string)
    requires RemoteOk(s) && !IsTxt(path) && HasParent(path)
    requires Parent(path) in s && s[Parent(path)].isDir
    ensures RemoteOk(N.AfterCreateDirectory(s, path)) && Grown(s, N.AfterCreateDirectory(s, path), {}, {path})
  {
    N.CreateKeepsTree(s, path, true);
    assert N.EntryOk(s[Parent(path)]);
  }

  lemma GrownTwice(s: N.Store, t: N.Store, u: N.Store, files: set<string>, dirs: set<string>,
                   more: set<string>, moreDirs: set<string>)
    requires Grown(s, t, files, dirs) && Grown(t, u, more, moreDirs)
    ensures Grown(s, u, files + more, dirs + moreDirs)
  {}

  // Sending the files of a list one by one; those the server has are left out.
  lemma GrownFileMore(s: N.Store, t: N.Store, u: N.Store, list: seq<string>, i: nat)
    requires i < |list| && Grown(s, t, KeySet(list[..i]), {})
    requires Grown(t, u, {list[i]}, {}) || (u == t && list[i] in RemoteFiles(t))
    ensures Grown(s, u, KeySet(list[..i + 1]), {})
  {
    KeySetSnoc(list, i);
  }

  lemma GrownNothing(s: N.Store)
    ensures Grown(s, s, {}, {})
  {}

  lemma GrownKeeps(s: N.Store, t: N.Store, files: set<string>, dirs: set<string>)
    requires Grown(s, t, files, dirs)
    ensures RemoteFiles(s) <= RemoteFiles(t) && RemoteDirs(s) <= RemoteDirs(t)
    ensures forall d | d in s && s[d].isDir :: d in t && t[d].isDir
  {
    forall d | d in s && s[d].isDir ensures d in t && t[d].isDir { assert d in RemoteDirs(s); }
  }

  lemma CreatedIsThere(s: N.Store, t: N.Store, dir: string)
    requires Grown(s, t, {}, {dir})
    ensures dir in t && t[dir].isDir
  {
    assert dir in RemoteDirs(t);
  }

  lemma CreatedThenSent(s: N.Store, t: N.Store, files: set<string>, dirs: set<string>, more: set<string>)
    requires Grown(s, t, {}, dirs)
    ensures forall u: N.Store | Grown(t, u, files, more) :: Grown(s, u, files, dirs + more)
  {}

  lemma BothEndsMeet(s: N.Store, t: N.Store, files: set<string>, dirs: set<string>)
    requires Grown(s, t, files, dirs) && N.ROOT in s && s[N.ROOT].isDir
    ensures RemoteFiles(t) == files + RemoteFiles(s) && RemoteDirs(t) == ({N.ROOT} + dirs) + RemoteDirs(s)
  {
    assert N.ROOT in RemoteDirs(s);
  }
}
