// Booting: the database follows the disk, then remote entries missing on disk are fetched,
// then local entries missing on the server are sent.
module Boot {
  import opened Wrappers
  import opened Paths
  import opened Database
  import opened DiskSync
  import opened BootSets
  import opened BootRecords
  import N = Namespace

  // The records of the directories on disk list exactly what is on disk.
  ghost predicate ListedAs(kv: map<string, Meta>, key: string, items: seq<Item>)
    decreases items
  {
    && key in kv && kv[key] == DirMeta(TextKeys(key, items), DirKeys(key, items))
    && (forall x | x in items && x.Directory? :: ListedAs(kv, Child(key, x.name), x.inside))
  }

  lemma {:induction false} SyncedIsListed(a: map<string, Meta>, kv: map<string, Meta>, key: string, items: seq<Item>)
    requires Synced(a, kv, key, items)
    ensures ListedAs(kv, key, items)
    decreases items
  {
    forall x | x in items && x.Directory?
      ensures ListedAs(kv, Child(key, x.name), x.inside)
    {
      SyncedIsListed(a, kv, Child(key, x.name), x.inside);
    }
  }

  lemma {:induction false} ListedDependsOnSubtree(a: map<string, Meta>, b: map<string, Meta>, key: string,
                                                  items: seq<Item>)
    requires ListedAs(a, key, items) && Agree(a, b, key)
    ensures ListedAs(b, key, items)
    decreases items
  {
    assert AtOrBelow(key, key);
    forall x | x in items && x.Directory?
      ensures ListedAs(b, Child(key, x.name), x.inside)
    {
      AgreeInChild(a, b, key, x.name);
      ListedDependsOnSubtree(a, b, Child(key, x.name), x.inside);
    }
  }

  // A change at and below one child matters only to the directory of that name.
  lemma ChangeBelowChild(a: map<string, Meta>, b: map<string, Meta>, key: string, items: seq<Item>, n: string)
    requires ListedAs(a, key, items) && WellFormed(items) && '/' !in n
    requires AgreeOutside(a, b, Child(key, n))
    requires forall x | x in items && x.Directory? && x.name == n :: ListedAs(b, Child(key, n), x.inside)
    ensures ListedAs(b, key, items) && AgreeOutside(a, b, key)
  {
    forall p | !AtOrBelow(key, p) ensures !AtOrBelow(Child(key, n), p) {
      if AtOrBelow(Child(key, n), p) { BelowChild(key, n, p); }
    }
    assert !AtOrBelow(Child(key, n), key);
    forall x | x in items && x.Directory?
      ensures ListedAs(b, Child(key, x.name), x.inside)
    {
      if x.name != n {
        AgreeInSibling(a, b, key, n, x.name);
        ListedDependsOnSubtree(a, b, Child(key, x.name), x.inside);
      }
    }
  }

  lemma AgreeOutsideBelow(a: map<string, Meta>, b: map<string, Meta>, c: map<string, Meta>, d: string, e: string)
    requires AgreeOutside(a, b, d) && AgreeOutside(b, c, e) && Below(d, e)
    ensures AgreeOutside(a, c, d)
  {
    forall p | !AtOrBelow(d, p) ensures !AtOrBelow(e, p) {
      if AtOrBelow(e, p) { BelowNests(d, e, p); }
    }
  }

  // A change of a file's record leaves the directories as they are listed.
  lemma FileChange(a: map<string, Meta>, b: map<string, Meta>, key: string, items: seq<Item>, n: string)
    requires ListedAs(a, key, items) && WellFormed(items) && PlainNames(items) && '/' !in n && IsTxt(n)
    requires AgreeOutside(a, b, Child(key, n))
    ensures ListedAs(b, key, items) && AgreeOutside(a, b, key)
  {
    ChangeBelowChild(a, b, key, items, n);
  }

  // A directory only the server has: nothing of it is on disk.
  lemma NewDirectory(known: set<string>, dir: string, items: seq<Item>, n: string)
    requires WellFormed(items) && KnownHere(known, dir, items) && '/' !in n && !IsTxt(Child(dir, n))
    requires Child(dir, n) !in DirKeys(dir, items)
    ensures NoneKnown(known, Child(dir, n))
  {
    SuffixOfChild(dir, n);
    NoneKnownBelow(known, dir, items, n);
  }

  lemma NewDirectoryChange(a: map<string, Meta>, b: map<string, Meta>, dir: string, items: seq<Item>, n: string)
    requires ListedAs(a, dir, items) && WellFormed(items) && '/' !in n && Child(dir, n) !in DirKeys(dir, items)
    requires AgreeOutside(a, b, Child(dir, n))
    ensures ListedAs(b, dir, items) && AgreeOutside(a, b, dir)
  {
    ChangeBelowChild(a, b, dir, items, n);
  }

  // A directory both have: what the walk needs of it.
  lemma DirectoryHere(kv: map<string, Meta>, files: set<string>, dirs: set<string>, known: set<string>,
                      dir: string, items: seq<Item>, n: string) returns (x: Item)
    requires ListedAs(kv, dir, items) && WellFormed(items) && PlainNames(items) && KnownHere(known, dir, items)
    requires AllText(dir, items) <= files && AllDirs(dir, items) <= dirs && Ups(dir) <= dirs
    requires '/' !in n && Child(dir, n) in DirKeys(dir, items)
    ensures x in items && x.Directory? && x.name == n
    ensures var k := Child(dir, n);
            && ListedAs(kv, k, x.inside) && WellFormed(x.inside) && PlainNames(x.inside)
            && AllText(k, x.inside) <= files && AllDirs(k, x.inside) <= dirs && Ups(k) <= dirs
            && KnownHere(known, k, x.inside) && k in known
  {
    x :| x in items && x.Directory? && Child(dir, n) == Child(dir, x.name);
    ChildIsInjective(dir, n, x.name);
    SubdirectoryIsHere(kv, files, dirs, dir, items, x);
    KnownBelowChild(known, dir, items, x);
  }

  lemma DirectoryChange(a: map<string, Meta>, b: map<string, Meta>, dir: string, items: seq<Item>, x: Item)
    requires ListedAs(a, dir, items) && WellFormed(items) && x in items && x.Directory?
    requires AgreeOutside(a, b, Child(dir, x.name)) && ListedAs(b, Child(dir, x.name), x.inside)
    ensures ListedAs(b, dir, items) && AgreeOutside(a, b, dir)
  {
    OnlyItemOfName(dir, items, x);
    ChangeBelowChild(a, b, dir, items, x.name);
  }

  lemma FileRecordIsOk(kv: map<string, Meta>, k: string, m: Meta)
    requires ListsBelow(kv) && m.FileMeta?
    ensures ListsBelow(kv[k := m]) && AgreeOutside(kv, kv[k := m], k)
  {}

  // A file of the server can be made on disk.
  lemma FetchedFileIsOk(files: set<string>, dirs: set<string>, others: set<string>, s: N.Store, k: string)
    requires RemoteOk(s) && DiskOk(files, dirs, others, s) && k in s && !s[k].isDir && HasParent(k)
    ensures |k| - LastSlash(k) > 5 && IsTxt(k) && k !in dirs + others && DiskOk(files + {k}, dirs, others, s)
  {}

  // A file the server lists for a directory on disk: its place, and whether it is on disk.
  lemma ListedFile(s: N.Store, dir: string, items: seq<Item>, k: string, known: set<string>) returns (n: string)
    requires RemoteOk(s) && dir in s && N.Lists(s[dir], k, false)
    requires WellFormed(items) && PlainNames(items) && KnownHere(known, dir, items)
    ensures '/' !in n && IsTxt(n) && k == Child(dir, n) && HasParent(k) && Parent(k) == dir
    ensures k in s && !s[k].isDir
    ensures k in known <==> k in TextKeys(dir, items)
    ensures k in TextKeys(dir, items) ==> k in AllText(dir, items)
  {
    ListedIsBelow(s, dir, k, false);
    n := ParentAndName(k);
    SuffixOfChild(dir, n);
    FileKnown(known, dir, items, n);
    TextKeysAreText(dir, items);
  }

  // A text file or a directory on disk keeps the name of its kind.
  lemma NameOfKey(key: string, items: seq<Item>, k: string) returns (n: string)
    requires k in TextKeys(key, items) || k in DirKeys(key, items)
    requires WellFormed(items) && PlainNames(items)
    ensures IsName(n) && k == Child(key, n) && HasParent(k) && Parent(k) == key
    ensures k in TextKeys(key, items) ==> IsTxt(k) && |n| > 4 && forall x | x in items && x.Directory? :: x.name != n
    ensures k in DirKeys(key, items) ==> !IsTxt(k)
  {
    var x :| x in items && (IsText(x) || x.Directory?) && k == Child(key, x.name);
    n := x.name;
    ParentOfChild(key, n);
    SuffixOfChild(key, n);
    if k in DirKeys(key, items) {
      var y :| y in items && y.Directory? && k == Child(key, y.name);
      ChildIsInjective(key, n, y.name);
    }
    if k in TextKeys(key, items) {
      var y :| y in items && IsText(y) && k == Child(key, y.name);
      ChildIsInjective(key, n, y.name);
    }
  }

  lemma {:induction false} TextOnDisk(key: string, items: seq<Item>, p: string)
    requires p in AllText(key, items) && WellFormed(items)
    ensures IsTxt(p)
    decreases items
  {
    var x := TextIsOfItem(key, items, p);
    if IsText(x) { SuffixOfChild(key, x.name); } else { TextOnDisk(Child(key, x.name), x.inside, p); }
  }

  lemma {:induction false} DirOnDisk(key: string, items: seq<Item>, p: string)
    requires p in AllDirs(key, items) && WellFormed(items) && PlainNames(items)
    ensures !IsTxt(p)
    decreases items
  {
    var x := DirIsOfItem(key, items, p);
    if p == Child(key, x.name) { SuffixOfChild(key, x.name); } else { DirOnDisk(Child(key, x.name), x.inside, p); }
  }

  // Disk and server have no entry that is a directory on one side and not on the other.
  ghost predicate DiskOk(files: set<string>, dirs: set<string>, others: set<string>, s: N.Store) {
    && (forall f | f in files :: IsTxt(f))
    && (forall d | d in dirs :: !IsTxt(d))
    && others !! s.Keys
  }

  predicate AllBelow(dir: string, keys: seq<string>) {
    forall k | k in keys :: Below(dir, k)
  }

  // What the server lists for a directory lies below it.
  lemma ListingIsBelow(s: N.Store, dir: string)
    requires N.Tree(s) && dir in s && s[dir].isDir
    ensures N.EntryOk(s[dir])
    ensures AllBelow(dir, s[dir].files.value) && AllBelow(dir, s[dir].subdirs.value)
  {
    assert N.EntryOk(s[dir]);
    forall k | k in s[dir].files.value ensures Below(dir, k) {
      assert N.Lists(s[dir], k, false);
      ListedIsBelow(s, dir, k, false);
    }
    forall k | k in s[dir].subdirs.value ensures Below(dir, k) {
      assert N.Lists(s[dir], k, true);
      ListedIsBelow(s, dir, k, true);
    }
  }

  lemma RecordIsBelow(kv: map<string, Meta>, dir: string)
    requires ListsBelow(kv)
    ensures AllBelow(dir, FilesOf(kv, dir)) && AllBelow(dir, DirectoriesOf(kv, dir))
  {}

  lemma AgreeOutsideTwice(a: map<string, Meta>, b: map<string, Meta>, c: map<string, Meta>, d: string)
    requires AgreeOutside(a, b, d) && AgreeOutside(b, c, d)
    ensures AgreeOutside(a, c, d)
  {}

  class Client {
    const db: Db
    const disk: Disk
    const remote: N.MetaServer
    const world: World

    ghost predicate Ok()
      reads db, disk, remote
    {
      && RemoteOk(remote.store) && DiskOk(disk.files, disk.dirs, disk.others, remote.store)
      && ListsBelow(db.kv)
    }

    constructor (db: Db, disk: Disk, remote: N.MetaServer, world: World)
      ensures this.db == db && this.disk == disk && this.remote == remote && this.world == world
    {
      this.db, this.disk, this.remote, this.world := db, disk, remote, world;
    }

    method FetchNewFile(k: string)
      requires Ok() && k in remote.store && !remote.store[k].isDir && HasParent(k) && Ups(Parent(k)) <= disk.dirs
      modifies db, disk
      ensures Ok() && disk.files == old(disk.files) + {k} && disk.dirs == old(disk.dirs)
      ensures db.kv == old(db.kv)[k := Fetched(world, k)] && AgreeOutside(old(db.kv), db.kv, k)
    {
      FetchedFileIsOk(disk.files, disk.dirs, disk.others, remote.store, k);
      FileRecordIsOk(db.kv, k, Fetched(world, k));
      hide N.Tree, N.NamedByKind, RemoteOk, DiskOk, ListsBelow, AgreeOutside, IsTxt;
      disk.CreateTextFile(k);
      db.kv := db.kv[k := FileMeta(world.fetched(k).0, world.fetched(k).1)];
    }

    // The contents are merged; nothing is created.
    method Conflict(k: string)
      requires ListsBelow(db.kv)
      modifies db
      ensures db.kv == old(db.kv)[k := Settled(world, k)]
      ensures AgreeOutside(old(db.kv), db.kv, k) && ListsBelow(db.kv)
    {
      db.kv := db.kv[k := FileMeta(world.settled(k).0, world.settled(k).1)];
    }

    // Fetches a directory that is not on disk, with all below it.
    method FetchDirRecursively(dir: string, ghost bound: nat, ghost known: set<string>)
      requires Ok() && dir in remote.store && remote.store[dir].isDir && NoneKnown(known, dir)
      requires forall p | p in remote.store :: |p| <= bound
      requires HasParent(dir) && Ups(Parent(dir)) <= disk.dirs
      modifies db, disk
      ensures Ok()
      ensures disk.files == old(disk.files) + FilesUnder(remote.store, [dir])
      ensures disk.dirs == old(disk.dirs) + DirsUnder(remote.store, [dir])
      ensures AgreeOutside(old(db.kv), db.kv, dir)
      ensures Pulled(world, old(db.kv), db.kv, remote.store, FilesUnder(remote.store, [dir]),
                     DirsUnder(remote.store, [dir]), known)
      decreases bound - |dir|, 1
    {
      var found, files, directories := db.LoadDirectory(dir);
      ListingIsBelow(remote.store, dir);
      RecordIsBelow(db.kv, dir);
      DirIsUnderItself(remote.store, dir);
      OwnerIsApart(remote.store, dir, known);
      hide N.Tree, N.Lists, N.EntryOk, Below, AtOrBelow, ListsBelow, AgreeOutside, DiskOk, FilesUnder,
           DirsUnder, Pulled;
      hide NoneKnown;
      ghost var before := db.kv;
      MakeDirectory(dir);
      var listing := remote.store[dir];
      FetchListing(dir, listing, bound, known);
      ghost var fetched := db.kv;
      StoreFetched(dir, files + listing.files.value, directories + listing.subdirs.value);
      AgreeOutsideTwice(before, fetched, db.kv, dir);
      PulledOwner(world, before, fetched, remote.store, FilesUnder(remote.store, [dir]),
                  DirsUnder(remote.store, listing.subdirs.value), known, dir);
    }

    method StoreFetched(dir: string, files: seq<string>, directories: seq<string>)
      requires Ok() && AllBelow(dir, files) && AllBelow(dir, directories)
      modifies db
      ensures Ok() && AgreeOutside(old(db.kv), db.kv, dir)
      ensures db.kv == old(db.kv)[dir := DirMeta(files, directories)]
    {
      db.kv := db.kv[dir := DirMeta(files, directories)];
    }

    method FetchListing(dir: string, listing: N.Entry, ghost bound: nat, ghost known: set<string>)
      requires NoneKnown(known, dir)
      requires Ok() && dir in remote.store && Ups(dir) <= disk.dirs && |dir| <= bound
      requires forall p | p in remote.store :: |p| <= bound
      requires listing == remote.store[dir] && listing.isDir && N.EntryOk(listing) && dir in disk.dirs
      modifies db, disk
      ensures Ok()
      ensures disk.files == old(disk.files) + FilesUnder(remote.store, [dir])
      ensures disk.dirs == old(disk.dirs) + DirsUnder(remote.store, [dir])
      ensures AgreeOutside(old(db.kv), db.kv, dir)
      ensures Pulled(world, old(db.kv), db.kv, remote.store, FilesUnder(remote.store, [dir]),
                     DirsUnder(remote.store, listing.subdirs.value), known)
      decreases bound - |dir|, 0, 1
    {
      hide N.Tree, Below, AtOrBelow, WellFormed, PlainNames, ListsBelow, Pulled, NoneKnown, FilesUnder,
           DirsUnder, DiskOk;
      ghost var before := db.kv;
      FetchFiles(dir, listing.files.value, known);
      ghost var middle := db.kv;
      FetchSubdirectories(dir, listing.subdirs.value, bound, known);
      UnderDirectory(remote.store, dir);
      FilesAndDirsApart(remote.store, dir, listing.files.value, listing.subdirs.value);
      PulledTwice(world, before, middle, db.kv, remote.store, KeySet(listing.files.value), {},
                  FilesUnder(remote.store, listing.subdirs.value),
                  DirsUnder(remote.store, listing.subdirs.value), known);
      assert {} + DirsUnder(remote.store, listing.subdirs.value) == DirsUnder(remote.store, listing.subdirs.value);
    }

    method MakeDirectory(dir: string)
      requires Ok() && dir in remote.store && remote.store[dir].isDir
      requires HasParent(dir) && Ups(Parent(dir)) <= disk.dirs
      modifies disk
      ensures Ok() && disk.files == old(disk.files) && disk.dirs == old(disk.dirs) + {dir} && Ups(dir) <= disk.dirs
    {
      UpsAreDirs(remote.store, dir);
      disk.EnsureDirectoryExists(dir);
    }

    method FetchFiles(dir: string, list: seq<string>, ghost known: set<string>)
      requires NoneKnown(known, dir)
      requires Ok() && dir in remote.store && Ups(dir) <= disk.dirs
      requires forall k | k in list :: N.Lists(remote.store[dir], k, false)
      modifies db, disk
      ensures Ok() && disk.files == old(disk.files) + KeySet(list) && disk.dirs == old(disk.dirs)
      ensures AgreeOutside(old(db.kv), db.kv, dir)
      ensures Pulled(world, old(db.kv), db.kv, remote.store, KeySet(list), {}, known)
    {
      PulledNothing(world, db.kv, remote.store, known);
      AllListedAreBelow(remote.store, dir, list, false);
      hide N.Lists, Below, AtOrBelow, WellFormed, PlainNames, ListsBelow, DiskOk, Pulled, NoneKnown, Ok, RemoteOk;
      assert KeySet(list[..0]) == {};
      for i := 0 to |list|
        invariant Ok() && AgreeOutside(old(db.kv), db.kv, dir)
        invariant disk.files == old(disk.files) + KeySet(list[..i]) && disk.dirs == old(disk.dirs)
        invariant Pulled(world, old(db.kv), db.kv, remote.store, KeySet(list[..i]), {}, known)
      {
        ghost var before := db.kv;
        assert list[i] in list;
        NoneKnownAt(known, dir, list[i]);
        FetchNewFile(list[i]);
        AgreeOutsideBelow(old(db.kv), before, db.kv, dir, list[i]);
        UnionOfThree(old(disk.files), KeySet(list[..i]), {list[i]});
        PulledFileMore(world, old(db.kv), before, remote.store, KeySet(list[..i]), list[i], known);
        KeySetSnoc(list, i);
      }
      assert list[..|list|] == list;
    }

    method FetchSubdirectories(dir: string, list: seq<string>, ghost bound: nat, ghost known: set<string>)
      requires NoneKnown(known, dir) && NoDuplicates(list)
      requires Ok() && dir in remote.store && Ups(dir) <= disk.dirs && |dir| <= bound
      requires forall p | p in remote.store :: |p| <= bound
      requires forall k | k in list :: N.Lists(remote.store[dir], k, true)
      modifies db, disk
      ensures Ok() && disk.files == old(disk.files) + FilesUnder(remote.store, list)
      ensures disk.dirs == old(disk.dirs) + DirsUnder(remote.store, list)
      ensures AgreeOutside(old(db.kv), db.kv, dir)
      ensures Pulled(world, old(db.kv), db.kv, remote.store, FilesUnder(remote.store, list),
                     DirsUnder(remote.store, list), known)
      decreases bound - |dir|, 0, 0
    {
      PulledNothing(world, db.kv, remote.store, known);
      UnderNothing(remote.store);
      AllListedAreBelow(remote.store, dir, list, true);
      hide N.Tree, N.Lists, Below, AtOrBelow, WellFormed, PlainNames, ListsBelow, Pulled, NoneKnown,
           FilesUnder, DirsUnder;
      hide DiskOk, Ok, RemoteOk, NoDuplicates, AgreeOutside, ListedIn;
      assert list[..0] == [];
      ghost var s := remote.store;
      for i := 0 to |list|
        invariant Ok() && AgreeOutside(old(db.kv), db.kv, dir)
        invariant disk.files == old(disk.files) + FilesUnder(remote.store, list[..i])
        invariant disk.dirs == old(disk.dirs) + DirsUnder(remote.store, list[..i])
        invariant Pulled(world, old(db.kv), db.kv, remote.store, FilesUnder(remote.store, list[..i]),
                         DirsUnder(remote.store, list[..i]), known)
      {
        ghost var before := db.kv;
        assert list[i] in list;
        NoneKnownDeeper(known, dir, list[i]);
        FetchDirRecursively(list[i], bound, known);
        AgreeOutsideBelow(old(db.kv), before, db.kv, dir, list[i]);
        UnionOfThree(old(disk.files), FilesUnder(s, list[..i]), FilesUnder(s, [list[i]]));
        UnionOfThree(old(disk.dirs), DirsUnder(s, list[..i]), DirsUnder(s, [list[i]]));
        OneMoreDirectory(world, old(db.kv), before, db.kv, remote.store, dir, list, i, known);
      }
      assert list[..|list|] == list;
    }

    // ---------- remote to local ----------

    // What the walk needs of the directory it is at: it is on disk as recorded.
    ghost predicate Here(dir: string, items: seq<Item>)
      reads db, disk
    {
      && ListedAs(db.kv, dir, items) && WellFormed(items) && PlainNames(items)
      && AllText(dir, items) <= disk.files && AllDirs(dir, items) <= disk.dirs && Ups(dir) <= disk.dirs
    }

    method RemoteToLocalDirCheck(dir: string, ghost items: seq<Item>, ghost bound: nat, ghost known: set<string>)
      requires KnownHere(known, dir, items) && dir in known
      requires Ok() && dir in remote.store && remote.store[dir].isDir && Here(dir, items)
      requires forall p | p in remote.store :: |p| <= bound
      modifies db, disk
      ensures Ok() && Here(dir, items) && AgreeOutside(old(db.kv), db.kv, dir)
      ensures disk.files == old(disk.files) + FilesUnder(remote.store, [dir])
      ensures disk.dirs == old(disk.dirs) + DirsUnder(remote.store, [dir])
      ensures Pulled(world, old(db.kv), db.kv, remote.store, FilesUnder(remote.store, [dir]),
                     DirsUnder(remote.store, [dir]), known)
      decreases bound - |dir|, 1
    {
      var found, files, directories := db.LoadDirectory(dir);
      if !found {
        return;
      }
      assert N.EntryOk(remote.store[dir]);
      hide Pulled, FilesUnder, DirsUnder, N.Tree, ListsBelow, KnownHere, WellFormed, PlainNames;
      CompareListing(dir, items, remote.store[dir], KeySet(files), KeySet(directories), bound, known);
    }

    method CompareListing(dir: string, ghost items: seq<Item>, listing: N.Entry,
                          knownFiles: set<string>, knownDirs: set<string>, ghost bound: nat, ghost known: set<string>)
      requires KnownHere(known, dir, items) && dir in known
      requires Ok() && dir in remote.store && Here(dir, items) && |dir| <= bound
      requires forall p | p in remote.store :: |p| <= bound
      requires listing == remote.store[dir] && listing.isDir && N.EntryOk(listing)
      requires knownFiles == KeySet(TextKeys(dir, items)) && knownDirs == KeySet(DirKeys(dir, items))
      modifies db, disk
      ensures Ok() && Here(dir, items) && AgreeOutside(old(db.kv), db.kv, dir)
      ensures disk.files == old(disk.files) + FilesUnder(remote.store, [dir])
      ensures disk.dirs == old(disk.dirs) + DirsUnder(remote.store, [dir])
      ensures Pulled(world, old(db.kv), db.kv, remote.store, FilesUnder(remote.store, [dir]),
                     DirsUnder(remote.store, [dir]), known)
      decreases bound - |dir|, 0, 1
    {
      assert dir in Ups(dir);
      UnderDirectory(remote.store, dir);
      assert dir in disk.dirs;
      hide N.Tree, Below, AtOrBelow, WellFormed, PlainNames, ListsBelow, ListedAs, AllText, AllDirs, DiskOk;
      hide Pulled, KnownHere, FilesUnder, DirsUnder, Ups, Here, Ok, AgreeOutside, NoDuplicates, TextKeys,
           DirKeys, RemoteOk;
      ghost var before := db.kv;
      CompareFiles(dir, items, listing.files.value, knownFiles, known);
      ghost var middle := db.kv;
      CompareSubdirectories(dir, items, listing.subdirs.value, knownDirs, bound, known);
      AgreeOutsideTwice(before, middle, db.kv, dir);
      ListingIsPulled(world, before, middle, db.kv, remote.store, dir, known);
      UnionOfThree(old(disk.files), KeySet(listing.files.value), FilesUnder(remote.store, listing.subdirs.value));
      UnionWithMember(old(disk.dirs), dir, DirsUnder(remote.store, listing.subdirs.value));
    }

    method CompareFiles(dir: string, ghost items: seq<Item>, list: seq<string>, here: set<string>,
                        ghost known: set<string>)
      requires KnownHere(known, dir, items)
      requires Ok() && dir in remote.store && Here(dir, items)
      requires forall k :: k in here <==> k in TextKeys(dir, items)
      requires forall k | k in list :: N.Lists(remote.store[dir], k, false)
      modifies db, disk
      ensures Ok() && Here(dir, items) && AgreeOutside(old(db.kv), db.kv, dir)
      ensures disk.files == old(disk.files) + KeySet(list) && disk.dirs == old(disk.dirs)
      ensures Pulled(world, old(db.kv), db.kv, remote.store, KeySet(list), {}, known)
    {
      PulledNothing(world, db.kv, remote.store, known);
      hide N.Tree, N.Lists, Below, AtOrBelow, WellFormed, PlainNames, ListsBelow, ListedAs, AllText, AllDirs,
           Ups, DiskOk, Pulled, KnownHere, TextKeys, DirKeys, Ok, Here, RemoteOk, AgreeOutside;
      assert KeySet(list[..0]) == {};
      for i := 0 to |list|
        invariant Ok() && Here(dir, items) && AgreeOutside(old(db.kv), db.kv, dir)
        invariant disk.files == old(disk.files) + KeySet(list[..i]) && disk.dirs == old(disk.dirs)
        invariant Pulled(world, old(db.kv), db.kv, remote.store, KeySet(list[..i]), {}, known)
      {
        ghost var before := db.kv;
        CompareFile(dir, items, list[i], here, known);
        AgreeOutsideTwice(old(db.kv), before, db.kv, dir);
        UnionOfThree(old(disk.files), KeySet(list[..i]), {list[i]});
        PulledFileMore(world, old(db.kv), before, remote.store, KeySet(list[..i]), list[i], known);
        KeySetSnoc(list, i);
      }
      assert list[..|list|] == list;
    }

    method CompareFile(dir: string, ghost items: seq<Item>, k: string, here: set<string>, ghost known: set<string>)
      requires KnownHere(known, dir, items)
      requires Ok() && dir in remote.store && Here(dir, items)
      requires forall x :: x in here <==> x in TextKeys(dir, items)
      requires N.Lists(remote.store[dir], k, false)
      modifies db, disk
      ensures Ok() && Here(dir, items) && AgreeOutside(old(db.kv), db.kv, dir)
      ensures disk.files == old(disk.files) + {k} && disk.dirs == old(disk.dirs)
      ensures db.kv == old(db.kv)[k := if k in known then Settled(world, k) else Fetched(world, k)]
    {
      ghost var n := ListedFile(remote.store, dir, items, k, known);
      hide N.Tree, N.Lists, KnownHere, ListedAs, WellFormed, PlainNames, TextKeys, AllText, AllDirs, AgreeOutside;
      if k !in here {
        FetchNewFile(k);
      } else {
        Conflict(k);
      }
      FileChange(old(db.kv), db.kv, dir, items, n);
    }

    method CompareSubdirectories(dir: string, ghost items: seq<Item>, list: seq<string>, here: set<string>,
                                 ghost bound: nat, ghost known: set<string>)
      requires KnownHere(known, dir, items) && NoDuplicates(list)
      requires Ok() && dir in remote.store && Here(dir, items) && |dir| <= bound
      requires forall p | p in remote.store :: |p| <= bound
      requires forall k :: k in here <==> k in DirKeys(dir, items)
      requires forall k | k in list :: N.Lists(remote.store[dir], k, true)
      modifies db, disk
      ensures Ok() && Here(dir, items) && AgreeOutside(old(db.kv), db.kv, dir)
      ensures disk.files == old(disk.files) + FilesUnder(remote.store, list)
      ensures disk.dirs == old(disk.dirs) + DirsUnder(remote.store, list)
      ensures Pulled(world, old(db.kv), db.kv, remote.store, FilesUnder(remote.store, list),
                     DirsUnder(remote.store, list), known)
      decreases bound - |dir|, 0, 0
    {
      PulledNothing(world, db.kv, remote.store, known);
      UnderNothing(remote.store);
      AllListedAreBelow(remote.store, dir, list, true);
      hide N.Tree, N.Lists, Below, AtOrBelow, WellFormed, PlainNames, ListsBelow, ListedAs, AllText, AllDirs,
           Ups, DiskOk, Pulled, KnownHere, FilesUnder, DirsUnder, DirKeys, TextKeys, AgreeOutside, NoDuplicates, Here,
           Ok, RemoteOk;
      assert list[..0] == [];
      ghost var s := remote.store;
      for i := 0 to |list|
        invariant Ok() && Here(dir, items) && AgreeOutside(old(db.kv), db.kv, dir)
        invariant disk.files == old(disk.files) + FilesUnder(remote.store, list[..i])
        invariant disk.dirs == old(disk.dirs) + DirsUnder(remote.store, list[..i])
        invariant Pulled(world, old(db.kv), db.kv, remote.store, FilesUnder(remote.store, list[..i]),
                         DirsUnder(remote.store, list[..i]), known)
      {
        var k := list[i];
        ghost var before := db.kv;
        assert k in list;
        CompareSubdirectory(dir, items, k, here, bound, known);
        AgreeOutsideTwice(old(db.kv), before, db.kv, dir);
        UnionOfThree(old(disk.files), FilesUnder(s, list[..i]), FilesUnder(s, [k]));
        UnionOfThree(old(disk.dirs), DirsUnder(s, list[..i]), DirsUnder(s, [k]));
        OneMoreDirectory(world, old(db.kv), before, db.kv, remote.store, dir, list, i, known);
      }
      assert list[..|list|] == list;
    }

    method CompareSubdirectory(dir: string, ghost items: seq<Item>, k: string, here: set<string>, ghost bound: nat,
                               ghost known: set<string>)
      requires KnownHere(known, dir, items)
      requires Ok() && Here(dir, items)
      requires k in remote.store && remote.store[k].isDir && HasParent(k) && Parent(k) == dir
      requires forall p | p in remote.store :: |p| <= bound
      requires forall x :: x in here <==> x in DirKeys(dir, items)
      modifies db, disk
      ensures Ok() && Here(dir, items) && AgreeOutside(old(db.kv), db.kv, dir)
      ensures disk.files == old(disk.files) + FilesUnder(remote.store, [k])
      ensures disk.dirs == old(disk.dirs) + DirsUnder(remote.store, [k])
      ensures Pulled(world, old(db.kv), db.kv, remote.store, FilesUnder(remote.store, [k]),
                     DirsUnder(remote.store, [k]), known)
      decreases bound - |k|, 2
    {
      ghost var n := ParentAndName(k);
      hide Pulled, FilesUnder, DirsUnder, N.Tree, AgreeOutside;
      if k !in here {
        NewDirectory(known, dir, items, n);
        hide KnownHere, WellFormed, PlainNames, DirKeys, TextKeys, ListedAs;
        FetchDirRecursively(k, bound, known);
        NewDirectoryChange(old(db.kv), db.kv, dir, items, n);
      } else {
        ghost var x := DirectoryHere(db.kv, disk.files, disk.dirs, known, dir, items, n);
        hide KnownHere, WellFormed, PlainNames, DirKeys, TextKeys, ListedAs;
        RemoteToLocalDirCheck(k, x.inside, bound, known);
        DirectoryChange(old(db.kv), db.kv, dir, items, x);
      }
    }

    // ---------- local to remote ----------

    ghost predicate Local(dir: string, items: seq<Item>)
      reads db
    {
      ListedAs(db.kv, dir, items) && WellFormed(items) && PlainNames(items) && ListsBelow(db.kv)
    }

    // The upload raises the version of the record and stores the text on disk in it.
    method UploadFile(k: string)
      requires ListsBelow(db.kv) && k in db.kv
      modifies db
      ensures Pushed(world, old(db.kv), db.kv, {k})
      ensures AgreeOutside(old(db.kv), db.kv, k) && ListsBelow(db.kv)
    {
      var version := if db.kv[k].FileMeta? then db.kv[k].version else NEW_FILE.version;
      db.kv := db.kv[k := FileMeta(NextVersion(version), world.contents(k))];
    }

    method SendDirRecursively(dir: string, ghost items: seq<Item>, ghost there: set<string>)
      requires RemoteOk(remote.store) && Local(dir, items)
      requires NoneThere(there, dir) && AllText(dir, items) <= db.kv.Keys
      requires !IsTxt(dir) && HasParent(dir) && Parent(dir) in remote.store && remote.store[Parent(dir)].isDir
      modifies db, remote
      ensures RemoteOk(remote.store) && Local(dir, items) && AgreeOutside(old(db.kv), db.kv, dir)
      ensures Grown(old(remote.store), remote.store, AllText(dir, items), {dir} + AllDirs(dir, items))
      ensures Pushed(world, old(db.kv), db.kv, AllText(dir, items) - there)
      decreases items, 2
    {
      ghost var s := remote.store;
      CreateDirectoryGrows(s, dir);
      NoneThereIsReady(there, dir, items);
      ListedHasRecord(db.kv, dir, items);
      hide N.Tree, ListsBelow, WellFormed, PlainNames, AllText, AllDirs, NoneThere, Pushed, ReadyFor, RemoteOk,
           ListedAs;
      hide N.AfterCreateDirectory;
      CreatedIsThere(s, N.AfterCreateDirectory(s, dir), dir);
      hide Grown, RemoteDirs, RemoteFiles;
      var status := remote.CreateDirectory(dir);
      var found, files, directories := db.LoadDirectory(dir);
      if !found {
        return;
      }
      CreatedThenSent(s, remote.store, AllText(dir, items), {dir}, AllDirs(dir, items));
      SendListed(dir, items, files, directories, {}, {}, there);
    }

    method LocalToRemoteDirCheck(dir: string, ghost items: seq<Item>, ghost there: set<string>)
      requires RemoteOk(remote.store) && Local(dir, items)
      requires ThereBelow(there, remote.store, dir) && AllText(dir, items) <= db.kv.Keys
      requires dir in remote.store && remote.store[dir].isDir
      modifies db, remote
      ensures RemoteOk(remote.store) && Local(dir, items) && AgreeOutside(old(db.kv), db.kv, dir)
      ensures Grown(old(remote.store), remote.store, AllText(dir, items), AllDirs(dir, items))
      ensures Pushed(world, old(db.kv), db.kv, AllText(dir, items) - there)
      decreases items, 2
    {
      var listing := remote.store[dir];
      assert N.EntryOk(listing);
      var found, files, directories := db.LoadDirectory(dir);
      if !found {
        return;
      }
      ListingIsKnown(there, remote.store, dir, items);
      hide N.Tree, ListsBelow, WellFormed, PlainNames, AllText, AllDirs, ThereBelow, Pushed, ReadyFor;
      SendListed(dir, items, files, directories, KeySet(listing.files.value), KeySet(listing.subdirs.value), there);
    }

    // Sends what a directory record lists and the server does not.
    method SendListed(dir: string, ghost items: seq<Item>, files: seq<string>, directories: seq<string>,
                      knownFiles: set<string>, knownDirs: set<string>, ghost there: set<string>)
      requires RemoteOk(remote.store) && Local(dir, items) && AllText(dir, items) <= db.kv.Keys
      requires dir in remote.store && remote.store[dir].isDir
      requires files == TextKeys(dir, items) && directories == DirKeys(dir, items)
      requires knownFiles <= RemoteFiles(remote.store) && knownDirs <= RemoteDirs(remote.store)
      requires forall k | k in files :: k in knownFiles <==> k in there
      requires ReadyFor(there, remote.store, directories, knownDirs)
      modifies db, remote
      ensures RemoteOk(remote.store) && Local(dir, items) && AgreeOutside(old(db.kv), db.kv, dir)
      ensures Grown(old(remote.store), remote.store, AllText(dir, items), AllDirs(dir, items))
      ensures Pushed(world, old(db.kv), db.kv, AllText(dir, items) - there)
      decreases items, 1
    {
      ghost var s, before := remote.store, db.kv;
      KeysAreDistinct(dir, items);
      TextKeysAreText(dir, items);
      hide N.Tree, N.Lists, WellFormed, PlainNames, ListsBelow, ListedAs, AllText, AllDirs, Pushed, ReadyFor,
           TextKeys, DirKeys;
      hide DirText, AgreeOutside;
      SendFiles(dir, items, files, knownFiles, there);
      ghost var t, middle := remote.store, db.kv;
      assert dir in RemoteDirs(t);
      ReadyAfterFiles(there, s, t, dir, items, knownDirs);
      PushedKeepsKeys(world, before, middle, KeySet(files) - there);
      SendSubdirectories(dir, items, directories, knownDirs, there);
      SentIsAll(s, t, remote.store, dir, items);
      AgreeOutsideTwice(before, middle, db.kv, dir);
      PushedAll(world, before, middle, db.kv, dir, items, there);
    }

    method SendFiles(dir: string, ghost items: seq<Item>, list: seq<string>, known: set<string>,
                     ghost there: set<string>)
      requires RemoteOk(remote.store) && Local(dir, items)
      requires dir in remote.store && remote.store[dir].isDir && known <= RemoteFiles(remote.store)
      requires forall k | k in list :: k in TextKeys(dir, items) && k in db.kv && (k in known <==> k in there)
      requires NoDuplicates(list)
      modifies db, remote
      ensures RemoteOk(remote.store) && Local(dir, items) && AgreeOutside(old(db.kv), db.kv, dir)
      ensures Grown(old(remote.store), remote.store, KeySet(list), {})
      ensures Pushed(world, old(db.kv), db.kv, KeySet(list) - there)
    {
      PushedNothing(world, db.kv);
      hide N.Tree, N.Lists, Below, AtOrBelow, WellFormed, PlainNames, ListsBelow, AllText, AllDirs, Pushed, ListedAs;
      hide TextKeys, DirKeys, NoDuplicates, AgreeOutside, RemoteOk, RemoteFiles, RemoteDirs, Local;
      assert KeySet(list[..0]) - there == {} && KeySet(list[..0]) == {};
      GrownNothing(remote.store);
      hide Grown;
      for i := 0 to |list|
        invariant RemoteOk(remote.store) && Local(dir, items) && AgreeOutside(old(db.kv), db.kv, dir)
        invariant Grown(old(remote.store), remote.store, KeySet(list[..i]), {})
        invariant Pushed(world, old(db.kv), db.kv, KeySet(list[..i]) - there)
      {
        ghost var s, before := remote.store, db.kv;
        GrownKeeps(old(remote.store), s, KeySet(list[..i]), {});
        assert list[i] in list;
        PushedKeepsKeys(world, old(db.kv), before, KeySet(list[..i]) - there);
        if list[i] !in known {
          SendFile(dir, items, list[i]);
          AgreeOutsideTwice(old(db.kv), before, db.kv, dir);
        }
        PushedFileMore(world, old(db.kv), before, db.kv, list, i, there);
        GrownFileMore(old(remote.store), s, remote.store, list, i);
      }
      assert list[..|list|] == list;
    }

    method SendFile(dir: string, ghost items: seq<Item>, k: string)
      requires RemoteOk(remote.store) && Local(dir, items) && k in db.kv
      requires dir in remote.store && remote.store[dir].isDir && k in TextKeys(dir, items)
      modifies db, remote
      ensures RemoteOk(remote.store) && Local(dir, items) && AgreeOutside(old(db.kv), db.kv, dir)
      ensures Grown(old(remote.store), remote.store, {k}, {}) && Pushed(world, old(db.kv), db.kv, {k})
    {
      hide Pushed;
      ghost var n := NameOfKey(dir, items, k);
      CreateFileGrows(remote.store, k);
      var status := remote.CreateFile(k);
      UploadFile(k);
      ChangeBelowChild(old(db.kv), db.kv, dir, items, n);
    }

    method SendSubdirectories(dir: string, ghost items: seq<Item>, list: seq<string>, known: set<string>,
                              ghost there: set<string>)
      requires RemoteOk(remote.store) && Local(dir, items) && AllText(dir, items) <= db.kv.Keys
      requires dir in remote.store && remote.store[dir].isDir && known <= RemoteDirs(remote.store)
      requires (forall k | k in list :: k in DirKeys(dir, items)) && NoDuplicates(list)
      requires ReadyFor(there, remote.store, list, known)
      modifies db, remote
      ensures RemoteOk(remote.store) && Local(dir, items) && AgreeOutside(old(db.kv), db.kv, dir)
      ensures SentDirs(old(remote.store), remote.store, dir, items, list)
      ensures Pushed(world, old(db.kv), db.kv, DirText(dir, items, list) - there)
      decreases items, 0, 1
    {
      PushedNothing(world, db.kv);
      SentNothing(remote.store, dir, items);
      hide N.Tree, N.Lists, WellFormed, PlainNames, ListsBelow, ListedAs, AllText, AllDirs, Pushed, ReadyFor, DirKeys;
      hide DirText, AgreeOutside, NoDuplicates, SentDirs, TextKeys;
      assert list[..0] == [] && list[0..] == list;
      for i := 0 to |list|
        invariant RemoteOk(remote.store) && Local(dir, items) && AgreeOutside(old(db.kv), db.kv, dir)
        invariant SentDirs(old(remote.store), remote.store, dir, items, list[..i])
        invariant AllText(dir, items) <= db.kv.Keys && ReadyFor(there, remote.store, list[i..], known)
        invariant dir in RemoteDirs(remote.store) && known <= RemoteDirs(remote.store)
        invariant Pushed(world, old(db.kv), db.kv, DirText(dir, items, list[..i]) - there)
      {
        ghost var s, before := remote.store, db.kv;
        assert list[i] == list[i..][0] && list[i] in list;
        ghost var x := SendSubdirectory(dir, items, list[i], known, there);
        SentDirsStep(old(remote.store), s, remote.store, dir, items, list[..i], x);
        AgreeOutsideTwice(old(db.kv), before, db.kv, dir);
        PushedKeepsKeys(world, before, db.kv, AllText(list[i], x.inside) - there);
        PushedDirMore(world, old(db.kv), before, db.kv, dir, items, list, i, x, there);
        ReadyForRest(there, s, remote.store, dir, items, list, i, x, known);
        TakeOneMore(list, i);
      }
      assert list[..|list|] == list;
    }

    method SendSubdirectory(dir: string, ghost items: seq<Item>, k: string, known: set<string>,
                            ghost there: set<string>)
        returns (ghost x: Item)
      requires RemoteOk(remote.store) && Local(dir, items) && AllText(dir, items) <= db.kv.Keys
      requires dir in remote.store && remote.store[dir].isDir
      requires k in DirKeys(dir, items) && (k in known ==> k in RemoteDirs(remote.store))
      requires if k in known then ThereBelow(there, remote.store, k) else NoneThere(there, k)
      modifies db, remote
      ensures RemoteOk(remote.store) && Local(dir, items) && AgreeOutside(old(db.kv), db.kv, dir)
      ensures x in items && x.Directory? && k == Child(dir, x.name)
      ensures Grown(old(remote.store), remote.store, ItemText(dir, x), ItemDirs(dir, x))
      ensures Pushed(world, old(db.kv), db.kv, AllText(k, x.inside) - there)
      decreases items, 0, 0
    {
      hide Pushed, ThereBelow, NoneThere;
      ghost var n := NameOfKey(dir, items, k);
      x :| x in items && x.Directory? && k == Child(dir, x.name);
      ItemIsPart(dir, items, x);
      if k !in known {
        SendDirRecursively(k, x.inside, there);
      } else {
        LocalToRemoteDirCheck(k, x.inside, there);
      }
      DirectoryChange(old(db.kv), db.kv, dir, items, x);
    }

    // ---------- boot ----------

    // The three passes one after the other, every request succeeding and conflicts changing
    // contents only.  Afterwards disk and server both have exactly the text files and the
    // directories that either had before, and there is a record of each: of a file only the server
    // had, what was fetched; of a file both had, what settling left; of a file only the disk had, the
    // text on disk under the version after the one that was recorded; `synced` is what the first
    // pass stored.
    method Boot(items: seq<Item>) returns (ghost synced: map<string, Meta>)
      requires WellFormed(items) && PlainNames(items) && ListsBelow(db.kv)
      requires RemoteOk(remote.store) && disk.others !! remote.store.Keys
      requires disk.files == AllText(N.ROOT, items) && disk.dirs == {N.ROOT} + AllDirs(N.ROOT, items)
      modifies db, disk, remote
      ensures disk.files == old(disk.files) + RemoteFiles(old(remote.store))
      ensures disk.dirs == old(disk.dirs) + RemoteDirs(old(remote.store))
      ensures RemoteFiles(remote.store) == disk.files && RemoteDirs(remote.store) == disk.dirs
      ensures RemoteOk(remote.store) && ListsBelow(db.kv)
      ensures Synced(old(db.kv), synced, N.ROOT, items) && ListedAs(db.kv, N.ROOT, items)
      ensures forall p | p in RemoteFiles(old(remote.store)) ::
                p in db.kv && db.kv[p] == if p in old(disk.files) then Settled(world, p) else Fetched(world, p)
      ensures forall p | p in old(disk.files) && p !in RemoteFiles(old(remote.store)) ::
                p in db.kv && db.kv[p] == FileMeta(NextVersion(VersionOf(old(db.kv), p)), world.contents(p))
      ensures forall p | p in old(disk.files) ::
                p in synced && synced[p] == if p in old(db.kv) then old(db.kv)[p] else FileMeta("0", "")
      ensures ListsFetched(synced, db.kv, old(remote.store), old(disk.dirs))
    {
      FirstPass(items);
      synced := db.kv;
      ghost var s, known := remote.store, disk.files + disk.dirs;
      ghost var bound := KeysAreBounded(s.Keys);
      WholeTree(s);
      KnownAtRoot(items);
      ThereAtRoot(s);
      ServerNamesByKind(s);
      hide N.Tree, Synced, ListedAs, ListsBelow, WellFormed, PlainNames, AllText, AllDirs, Pulled, Pushed, DiskOk,
           FilesUnder, DirsUnder, KnownHere, ThereBelow, AgreeOutside, N.NamedByKind, RemoteFiles, RemoteDirs, Grown,
           ListsFetched, Ups;
      RemoteToLocalDirCheck(N.ROOT, items, bound, known);
      ghost var pulled := db.kv;
      PulledKeepsKeys(world, synced, pulled, s, RemoteFiles(s), RemoteDirs(s), known);
      LocalToRemoteDirCheck(N.ROOT, items, RemoteFiles(s));
      BootedRecords(world, old(db.kv), synced, pulled, db.kv, s, items, known);
      FetchedRecordsList(synced, db.kv, s, old(disk.dirs));
      BothEndsMeet(s, remote.store, AllText(N.ROOT, items), AllDirs(N.ROOT, items));
    }

    // After the first pass the walk can start at the root.
    method FirstPass(items: seq<Item>)
      requires WellFormed(items) && PlainNames(items) && ListsBelow(db.kv)
      requires RemoteOk(remote.store) && disk.others !! remote.store.Keys
      requires disk.files == AllText(N.ROOT, items) && disk.dirs == {N.ROOT} + AllDirs(N.ROOT, items)
      modifies db
      ensures Synced(old(db.kv), db.kv, N.ROOT, items) && Ok() && Here(N.ROOT, items)
      ensures forall p | p in AllText(N.ROOT, items) :: p in db.kv && db.kv[p] == Recorded(old(db.kv), p)
    {
      LocalSync(db, N.ROOT, items);
      SyncedIsListed(old(db.kv), db.kv, N.ROOT, items);
      SyncedIsRecorded(old(db.kv), db.kv, N.ROOT, items);
      StartIsOk(items, disk.others, remote.store);
    }
  }

  lemma StartIsOk(items: seq<Item>, others: set<string>, s: N.Store)
    requires WellFormed(items) && PlainNames(items) && others !! s.Keys
    ensures DiskOk(AllText(N.ROOT, items), {N.ROOT} + AllDirs(N.ROOT, items), others, s)
  {
    forall f | f in AllText(N.ROOT, items) ensures IsTxt(f) { TextOnDisk(N.ROOT, items, f); }
    forall d | d in AllDirs(N.ROOT, items) ensures !IsTxt(d) { DirOnDisk(N.ROOT, items, d); }
  }

  lemma OnlyItemOfName(dir: string, items: seq<Item>, x: Item)
    requires WellFormed(items) && x in items
    ensures forall y | y in items && y.name == x.name :: y == x
  {}

  lemma ListedHasRecord(kv: map<string, Meta>, dir: string, items: seq<Item>)
    requires ListedAs(kv, dir, items)
    ensures dir in kv && FilesOf(kv, dir) == TextKeys(dir, items) && DirectoriesOf(kv, dir) == DirKeys(dir, items)
  {}

  lemma SentNothing(s: N.Store, dir: string, items: seq<Item>)
    ensures SentDirs(s, s, dir, items, [])
  {}

  // What sending the subdirectories `list` has put on the server.
  ghost predicate SentDirs(s: N.Store, t: N.Store, dir: string, items: seq<Item>, list: seq<string>) {
    && RemoteFiles(s) <= RemoteFiles(t) <= RemoteFiles(s) + AllText(dir, items)
    && RemoteDirs(s) <= RemoteDirs(t) <= RemoteDirs(s) + AllDirs(dir, items)
    && forall x | x in items && x.Directory? && Child(dir, x.name) in list ::
         ItemText(dir, x) <= RemoteFiles(t) && ItemDirs(dir, x) <= RemoteDirs(t)
  }

  lemma SentDirsStep(s: N.Store, t: N.Store, u: N.Store, dir: string, items: seq<Item>, list: seq<string>, x: Item)
    requires WellFormed(items) && SentDirs(s, t, dir, items, list) && x in items && x.Directory?
    requires Grown(t, u, ItemText(dir, x), ItemDirs(dir, x))
    ensures SentDirs(s, u, dir, items, list + [Child(dir, x.name)])
  {
    ItemIsPart(dir, items, x);
    OnlyItemOfName(dir, items, x);
    forall y | y in items && y.Directory? && Child(dir, y.name) in list + [Child(dir, x.name)]
      ensures ItemText(dir, y) <= RemoteFiles(u) && ItemDirs(dir, y) <= RemoteDirs(u)
    {
      if Child(dir, y.name) !in list { ChildIsInjective(dir, y.name, x.name); }
    }
  }

  lemma SentIsAll(s: N.Store, t: N.Store, u: N.Store, dir: string, items: seq<Item>)
    requires Grown(s, t, KeySet(TextKeys(dir, items)), {}) && SentDirs(t, u, dir, items, DirKeys(dir, items))
    ensures Grown(s, u, AllText(dir, items), AllDirs(dir, items))
  {
    forall p | p in AllText(dir, items) ensures p in RemoteFiles(u) {
      var x := TextIsOfItem(dir, items, p);
    }
    forall p | p in AllDirs(dir, items) ensures p in RemoteDirs(u) {
      var x := DirIsOfItem(dir, items, p);
    }
    forall p | p in TextKeys(dir, items) ensures p in AllText(dir, items) {
      var x :| x in items && IsText(x) && p == Child(dir, x.name);
      ItemIsPart(dir, items, x);
    }
  }

  lemma SubdirectoryIsHere(kv: map<string, Meta>, files: set<string>, dirs: set<string>,
                           dir: string, items: seq<Item>, x: Item)
    requires ListedAs(kv, dir, items) && WellFormed(items) && PlainNames(items)
    requires AllText(dir, items) <= files && AllDirs(dir, items) <= dirs && Ups(dir) <= dirs
    requires x in items && x.Directory?
    ensures var k := Child(dir, x.name);
            && ListedAs(kv, k, x.inside) && WellFormed(x.inside) && PlainNames(x.inside)
            && AllText(k, x.inside) <= files && AllDirs(k, x.inside) <= dirs && Ups(k) <= dirs
  {
    ParentOfChild(dir, x.name);
    ItemIsPart(dir, items, x);
  }
}
