// The first pass of booting: the database is brought in line with the directory on disk.
module DiskSync {
  import opened Paths
  import opened Database

  // What a directory iterator meets.
  datatype Item =
    | RegularFile(name: string)
    | Directory(name: string, inside: seq<Item>)
    | Special(name: string)

  // `extension() == ".txt"`: a name that is nothing but ".txt" has no extension.
  predicate IsText(x: Item) {
    x.RegularFile? && |x.name| > 4 && IsTxt(x.name)
  }

  ghost predicate WellFormed(items: seq<Item>) {
    && (forall x | x in items :: IsName(x.name) && (x.Directory? ==> WellFormed(x.inside)))
    && (forall i, j | 0 <= i < j < |items| :: items[i].name != items[j].name)
  }

  function TextKeys(key: string, items: seq<Item>): (r: seq<string>)
    ensures forall k :: k in r <==> exists x :: x in items && IsText(x) && k == Child(key, x.name)
  {
    if items == [] then []
    else
      var last := |items| - 1;
      var x := items[last];
      assert items == items[..last] + [x];
      TextKeys(key, items[..last]) + if IsText(x) then [Child(key, x.name)] else []
  }

  function DirKeys(key: string, items: seq<Item>): (r: seq<string>)
    ensures forall k :: k in r <==> exists x :: x in items && x.Directory? && k == Child(key, x.name)
  {
    if items == [] then []
    else
      var last := |items| - 1;
      var x := items[last];
      assert items == items[..last] + [x];
      DirKeys(key, items[..last]) + if x.Directory? then [Child(key, x.name)] else []
  }

  // The record of a text file on disk: the old one, or that of a file never seen.
  function Recorded(a: map<string, Meta>, k: string): Meta {
    if k in a then a[k] else FileMeta("0", "")
  }

  // The record of `key` lists exactly the text files and directories of `items`, those are
  // exactly the keys stored directly below it, each text file has the record it had in `a`, and
  // so on in every directory.
  ghost predicate Synced(a: map<string, Meta>, kv: map<string, Meta>, key: string, items: seq<Item>)
    decreases items
  {
    && (forall k | k in TextKeys(key, items) :: k in kv && kv[k] == Recorded(a, k))
    && key in kv && kv[key] == DirMeta(TextKeys(key, items), DirKeys(key, items))
    && (forall k :: k in Filtered(kv.Keys, key + "/") <==> k in TextKeys(key, items) || k in DirKeys(key, items))
    && (forall x | x in items && x.Directory? :: Synced(a, kv, Child(key, x.name), x.inside))
  }

  // The two maps agree at and below `d`.
  ghost predicate Agree(a: map<string, Meta>, b: map<string, Meta>, d: string) {
    forall p | AtOrBelow(d, p) :: (p in a <==> p in b) && (p in a ==> a[p] == b[p])
  }

  // The two maps agree everywhere else.
  ghost predicate AgreeOutside(a: map<string, Meta>, b: map<string, Meta>, d: string) {
    forall p | !AtOrBelow(d, p) :: (p in a <==> p in b) && (p in a ==> a[p] == b[p])
  }

  lemma AgreeInChild(a: map<string, Meta>, b: map<string, Meta>, d: string, n: string)
    requires Agree(a, b, d)
    ensures Agree(a, b, Child(d, n))
  {
    forall p | AtOrBelow(Child(d, n), p) ensures AtOrBelow(d, p) { BelowChild(d, n, p); }
  }

  lemma AgreeInSibling(a: map<string, Meta>, b: map<string, Meta>, d: string, n: string, m: string)
    requires '/' !in n && '/' !in m && n != m
    requires AgreeOutside(a, b, Child(d, n))
    ensures Agree(a, b, Child(d, m))
  {
    forall p | AtOrBelow(Child(d, m), p) ensures !AtOrBelow(Child(d, n), p) { SiblingsAreApart(d, m, n, p); }
  }

  // Whether a directory is synced depends only on what is and was stored at and below it.
  lemma {:induction false} SyncedDependsOnSubtree(a: map<string, Meta>, kv: map<string, Meta>,
                                                  b: map<string, Meta>, kw: map<string, Meta>,
                                                  key: string, items: seq<Item>)
    requires Synced(a, kv, key, items) && Agree(a, b, key) && Agree(kv, kw, key)
    ensures Synced(b, kw, key, items)
    decreases items
  {
    assert AtOrBelow(key, key);
    forall k | k in TextKeys(key, items)
      ensures k in kw && kw[k] == Recorded(b, k)
    {
      assert AtOrBelow(key, k);
    }
    forall k
      ensures k in Filtered(kw.Keys, key + "/") <==> k in TextKeys(key, items) || k in DirKeys(key, items)
    {
      assert k in Filtered(kv.Keys, key + "/") <==> k in TextKeys(key, items) || k in DirKeys(key, items);
      if DirectlyUnder(key + "/", k) { assert AtOrBelow(key, k); }
    }
    forall x | x in items && x.Directory?
      ensures Synced(b, kw, Child(key, x.name), x.inside)
    {
      AgreeInChild(a, b, key, x.name);
      AgreeInChild(kv, kw, key, x.name);
      SyncedDependsOnSubtree(a, kv, b, kw, Child(key, x.name), x.inside);
    }
  }

  // What the loop over the iterator has done after the first `i` items: nothing to the others.
  ghost predicate Listed(a: map<string, Meta>, kv: map<string, Meta>, key: string, items: seq<Item>, i: nat)
    requires i <= |items|
  {
    && (forall k | k in TextKeys(key, items[..i]) :: k in kv && kv[k] == Recorded(a, k))
    && (forall j | 0 <= j < i && items[j].Directory? :: Synced(a, kv, Child(key, items[j].name), items[j].inside))
    && (forall j | i <= j < |items| :: Agree(a, kv, Child(key, items[j].name)))
  }

  // Handling one more item leaves the subtrees of the others alone.
  lemma ListedStep(a: map<string, Meta>, kv: map<string, Meta>, kw: map<string, Meta>, key: string,
                   items: seq<Item>, i: nat)
    requires WellFormed(items) && i < |items| && Listed(a, kv, key, items, i)
    requires AgreeOutside(kv, kw, Child(key, items[i].name))
    requires var c := Child(key, items[i].name); IsText(items[i]) ==> c in kw && kw[c] == Recorded(a, c)
    requires items[i].Directory? ==> Synced(a, kw, Child(key, items[i].name), items[i].inside)
    ensures Listed(a, kw, key, items, i + 1)
  {
    hide Synced;
    assert items[..i + 1][..i] == items[..i];
    forall k | k in TextKeys(key, items[..i + 1])
      ensures k in kw && kw[k] == Recorded(a, k)
    {
      if k in TextKeys(key, items[..i]) {
        var x :| x in items[..i] && IsText(x) && k == Child(key, x.name);
        AgreeInSibling(kv, kw, key, items[i].name, x.name);
        assert AtOrBelow(Child(key, x.name), k);
      }
    }
    forall j | 0 <= j < i && items[j].Directory?
      ensures Synced(a, kw, Child(key, items[j].name), items[j].inside)
    {
      AgreeInSibling(kv, kw, key, items[i].name, items[j].name);
      SyncedDependsOnSubtree(a, kv, a, kw, Child(key, items[j].name), items[j].inside);
    }
    forall j | i < j < |items|
      ensures Agree(a, kw, Child(key, items[j].name))
    {
      AgreeInSibling(kv, kw, key, items[i].name, items[j].name);
    }
  }

  lemma AgreeOutsideUp(a: map<string, Meta>, b: map<string, Meta>, c: map<string, Meta>, d: string, n: string)
    requires AgreeOutside(a, b, d) && AgreeOutside(b, c, Child(d, n))
    ensures AgreeOutside(a, c, d)
  {
    forall p | !AtOrBelow(d, p) ensures !AtOrBelow(Child(d, n), p) {
      if AtOrBelow(Child(d, n), p) { BelowChild(d, n, p); }
    }
  }

  predicate Contains(s: string, t: string) {
    t <= s || (s != [] && Contains(s[1..], t))
  }

  // A key the scan found that is neither listed file nor listed directory.
  lemma StaleIsOther(key: string, items: seq<Item>, k: string, x: Item) returns (n: string)
    requires DirectlyUnder(key + "/", k) && k !in TextKeys(key, items) && k !in DirKeys(key, items)
    requires x in items && (IsText(x) || x.Directory?)
    ensures IsName(n) && k == Child(key, n) && n != x.name
  {
    n := k[|key| + 1..];
    assert k == key + "/" + n;
  }

  // Removing what is at and below a stale key leaves everything listed as it was.
  lemma TrimKeepsListed(a: map<string, Meta>, kv: map<string, Meta>, kw: map<string, Meta>, key: string,
                        items: seq<Item>, k: string)
    requires WellFormed(items) && Listed(a, kv, key, items, |items|) && Trimmed(kv, kw, k)
    requires DirectlyUnder(key + "/", k) && k !in TextKeys(key, items) && k !in DirKeys(key, items)
    ensures Listed(a, kw, key, items, |items|)
  {
    assert items[..|items|] == items;
    forall x | x in items && (IsText(x) || x.Directory?)
      ensures Agree(kv, kw, Child(key, x.name))
    {
      var n := StaleIsOther(key, items, k, x);
      AgreeInSibling(kv, kw, key, n, x.name);
    }
    forall t | t in TextKeys(key, items)
      ensures t in kw && kw[t] == Recorded(a, t)
    {
      var x :| x in items && IsText(x) && t == Child(key, x.name);
      assert AtOrBelow(Child(key, x.name), t);
    }
    forall j | 0 <= j < |items| && items[j].Directory?
      ensures Synced(a, kw, Child(key, items[j].name), items[j].inside)
    {
      SyncedDependsOnSubtree(a, kv, a, kw, Child(key, items[j].name), items[j].inside);
    }
  }

  // Brings the records at and below `key` in line with the directory `items`.
  method SyncDir(db: Db, key: string, items: seq<Item>)
    requires key != [] && key[|key| - 1] != '/' && WellFormed(items) && ListsBelow(db.kv)
    modifies db
    ensures Synced(old(db.kv), db.kv, key, items)
    ensures AgreeOutside(old(db.kv), db.kv, key) && ListsBelow(db.kv)
    decreases items, 1
  {
    var found, oldFiles, oldDirectories := db.LoadDirectory(key);
    var files, directories := [], [];
    for i := 0 to |items|
      invariant files == TextKeys(key, items[..i]) && directories == DirKeys(key, items[..i])
      invariant Listed(old(db.kv), db.kv, key, items, i)
      invariant AgreeOutside(old(db.kv), db.kv, key) && ListsBelow(db.kv)
    {
      hide Listed, ListsBelow, AgreeOutside, WellFormed, Synced, IsText, Child;
      ghost var before := db.kv;
      var text, directory := SyncItem(db, key, items, i, old(db.kv));
      AgreeOutsideUp(old(db.kv), before, db.kv, key, items[i].name);
      KeysSnoc(key, items, i);
      var k := Child(key, items[i].name);
      files := files + if text then [k] else [];
      directories := directories + if directory then [k] else [];
    }
    assert items[..|items|] == items;
    hide Listed, ListsBelow, AgreeOutside, WellFormed, Synced, TextKeys, DirKeys;
    StoreRecord(db, key, items, files, directories, old(db.kv));
    RemoveStale(db, key, items, files, directories, old(db.kv));
  }

  lemma KeysSnoc(key: string, items: seq<Item>, i: nat)
    requires i < |items|
    ensures var k := Child(key, items[i].name);
            && TextKeys(key, items[..i + 1]) == TextKeys(key, items[..i]) + (if IsText(items[i]) then [k] else [])
            && DirKeys(key, items[..i + 1]) == DirKeys(key, items[..i]) + (if items[i].Directory? then [k] else [])
  {
    assert items[..i + 1][..i] == items[..i];
  }

  // One round of the loop: a text file without a record gets one, a directory is gone into.
  method SyncItem(db: Db, key: string, items: seq<Item>, i: nat, ghost a: map<string, Meta>)
      returns (text: bool, directory: bool)
    requires WellFormed(items) && ListsBelow(db.kv) && i < |items| && Listed(a, db.kv, key, items, i)
    modifies db
    ensures text == IsText(items[i]) && directory == items[i].Directory?
    ensures Listed(a, db.kv, key, items, i + 1) && ListsBelow(db.kv)
    ensures AgreeOutside(old(db.kv), db.kv, Child(key, items[i].name))
    decreases items, 0
  {
    var x := items[i];
    ghost var before := db.kv;
    var k := Child(key, x.name);
    text, directory := IsText(x), x.Directory?;
    assert Agree(a, before, k) && AtOrBelow(k, k);
    if text {
      if k !in db.kv {
        db.kv := db.kv[k := NEW_FILE];
      }
    } else if directory {
      SyncDir(db, k, x.inside);
      AgreeIsMutual(a, before, k);
      AgreeWithSelf(db.kv, k);
      hide Synced, ListsBelow, Listed, WellFormed, AgreeOutside, Agree;
      SyncedDependsOnSubtree(before, db.kv, a, db.kv, k, x.inside);
    }
    ListedStep(a, before, db.kv, key, items, i);
  }

  lemma AgreeIsMutual(a: map<string, Meta>, b: map<string, Meta>, d: string)
    requires Agree(a, b, d)
    ensures Agree(b, a, d)
  {}

  lemma AgreeWithSelf(a: map<string, Meta>, d: string)
    ensures Agree(a, a, d)
  {}

  method StoreRecord(db: Db, key: string, items: seq<Item>, files: seq<string>, directories: seq<string>,
                     ghost a: map<string, Meta>)
    requires WellFormed(items) && ListsBelow(db.kv) && Listed(a, db.kv, key, items, |items|)
    requires files == TextKeys(key, items) && directories == DirKeys(key, items)
    modifies db
    ensures db.kv == old(db.kv)[key := DirMeta(files, directories)]
    ensures Listed(a, db.kv, key, items, |items|) && ListsBelow(db.kv)
  {
    ghost var before := db.kv;
    db.kv := db.kv[key := DirMeta(files, directories)];
    assert items[..|items|] == items;
    forall j | 0 <= j < |items| && items[j].Directory?
      ensures Synced(a, db.kv, Child(key, items[j].name), items[j].inside)
    {
      SyncedDependsOnSubtree(a, before, a, db.kv, Child(key, items[j].name), items[j].inside);
    }
    assert forall x: Item :: Below(key, Child(key, x.name));
  }

  // The loop over what the prefix scan finds.
  method RemoveStale(db: Db, key: string, items: seq<Item>, files: seq<string>, directories: seq<string>,
                     ghost a: map<string, Meta>)
    requires key != [] && key[|key| - 1] != '/' && WellFormed(items) && ListsBelow(db.kv)
    requires files == TextKeys(key, items) && directories == DirKeys(key, items)
    requires Listed(a, db.kv, key, items, |items|)
    requires key in db.kv && db.kv[key] == DirMeta(files, directories)
    modifies db
    ensures Synced(a, db.kv, key, items)
    ensures AgreeOutside(old(db.kv), db.kv, key) && ListsBelow(db.kv)
    ensures forall k | k in Filtered(old(db.kv).Keys, key + "/") && k !in files && k !in directories ::
              Swept(old(db.kv), db.kv, k)
  {
    hide TextKeys, DirKeys, WellFormed, Listed, Contains, Swept, Sweeping;
    var scanned := db.PrefixScan(key + if key[|key| - 1] == '/' then "" else "/");
    var rest := scanned;
    ghost var stale := set k | k in scanned && k !in files && k !in directories;
    SweepingStarts(db.kv, key, scanned, stale);
    while rest != {}
      invariant rest <= scanned
      invariant Listed(a, db.kv, key, items, |items|) && ListsBelow(db.kv)
      invariant Sweeping(old(db.kv), db.kv, key, scanned, rest, stale)
      decreases |rest|
    {
      ghost var before := db.kv;
      var k :| k in rest;
      if k !in files && k !in directories {
        RemoveOne(db, k);
        TrimKeepsListed(a, before, db.kv, key, items, k);
      }
      SweepStep(old(db.kv), before, db.kv, key, scanned, rest, stale, k);
      rest := rest - {k};
    }
    SweepingEnds(old(db.kv), db.kv, key, scanned, stale);
    ScanIsExact(a, db.kv, old(db.kv), key, items, scanned);
  }

  // A key with the suffix of a file anywhere in it is taken for a file.
  method RemoveOne(db: Db, k: string)
    requires ListsBelow(db.kv)
    modifies db
    ensures Trimmed(old(db.kv), db.kv, k) && Swept(old(db.kv), db.kv, k) && ListsBelow(db.kv)
  {
    ContainsSomewhere(k, ".txt");
    hide Contains;
    if Contains(k, ".txt") {
      db.RemoveFile(k);
    } else {
      ghost var bound := KeysAreBounded(db.kv.Keys);
      db.RemoveDirectory(k, bound);
    }
  }

  predicate OccursAt(s: string, t: string, i: nat) {
    i + |t| <= |s| && s[i..i + |t|] == t
  }

  lemma {:induction false} ContainsSomewhere(s: string, t: string)
    ensures Contains(s, t) <==> exists i :: OccursAt(s, t, i)
    decreases |s|
  {
    if t <= s { assert OccursAt(s, t, 0); }
    if s != [] {
      ContainsSomewhere(s[1..], t);
      if i: nat :| OccursAt(s[1..], t, i) { assert s[i + 1..i + 1 + |t|] == t && OccursAt(s, t, i + 1); }
      if i: nat :| OccursAt(s, t, i) {
        if i > 0 { assert s[1..][i - 1..i - 1 + |t|] == t && OccursAt(s[1..], t, i - 1); }
      }
    }
  }

  ghost predicate HasFileSuffixSomewhere(k: string) {
    exists i :: OccursAt(k, ".txt", i)
  }

  // What is left of a key that is not on disk: nothing at the key, and everything below it if it is
  // taken for a file, or else nothing of what its record listed.
  ghost predicate Swept(a: map<string, Meta>, b: map<string, Meta>, k: string) {
    && k !in b
    && if HasFileSuffixSomewhere(k) then forall p | p in a && Below(k, p) :: p in b
       else Gone(FilesOf(a, k), b) && Gone(DirectoriesOf(a, k), b)
  }

  ghost predicate Untouched(a: map<string, Meta>, b: map<string, Meta>, k: string) {
    forall p | p in a && AtOrBelow(k, p) :: p in b
  }

  ghost predicate Sweeping(a: map<string, Meta>, b: map<string, Meta>, key: string,
                           scanned: set<string>, rest: set<string>, stale: set<string>)
  {
    && (forall p | p in b :: p in a && b[p] == a[p])
    && (forall p | p in a && !Below(key, p) :: p in b)
    && (forall k | k in stale && k !in rest :: Swept(a, b, k))
    && (forall k | k in rest :: Untouched(a, b, k))
  }

  lemma SweepingStarts(a: map<string, Meta>, key: string, scanned: set<string>, stale: set<string>)
    requires stale <= scanned
    ensures Sweeping(a, a, key, scanned, scanned, stale)
  {}

  lemma SweepingEnds(a: map<string, Meta>, b: map<string, Meta>, key: string, scanned: set<string>, stale: set<string>)
    requires Sweeping(a, b, key, scanned, {}, stale)
    ensures b.Keys <= a.Keys && (forall k | k in stale :: Swept(a, b, k) && k !in b) && AgreeOutside(a, b, key)
    ensures key in a ==> key in b && b[key] == a[key]
  {
    assert !Below(key, key);
  }

  lemma ScannedIsBelow(key: string, k: string, p: string)
    requires DirectlyUnder(key + "/", k) && AtOrBelow(k, p)
    ensures Below(key, p)
  {
    var n := k[|key| + 1..];
    assert k == Child(key, n);
    BelowChild(key, n, p);
  }

  lemma ScannedAreApart(key: string, k: string, other: string, p: string)
    requires DirectlyUnder(key + "/", k) && DirectlyUnder(key + "/", other) && k != other && AtOrBelow(k, p)
    ensures !AtOrBelow(other, p) && Below(key, p)
  {
    var n, m := k[|key| + 1..], other[|key| + 1..];
    assert k == Child(key, n) && other == Child(key, m);
    SiblingsAreApart(key, n, m, p);
    BelowChild(key, n, p);
  }

  // Removing one key leaves the others of the scan alone.
  lemma SweepStep(a: map<string, Meta>, b: map<string, Meta>, c: map<string, Meta>, key: string,
                  scanned: set<string>, rest: set<string>, stale: set<string>, k: string)
    requires Sweeping(a, b, key, scanned, rest, stale) && stale <= scanned && rest <= scanned
    requires k in rest && forall x | x in scanned :: DirectlyUnder(key + "/", x)
    requires if k in stale then Trimmed(b, c, k) && Swept(b, c, k) else c == b
    ensures Sweeping(a, c, key, scanned, rest - {k}, stale)
  {
    if k in stale {
      SweptHere(a, b, c, k);
      forall x | x in scanned && x != k
        ensures x in rest ==> Untouched(a, c, x)
        ensures x in stale && x !in rest ==> Swept(a, c, x)
      {
        SweptElsewhere(a, b, c, key, k, x);
      }
      forall p | p in a && !Below(key, p)
        ensures p in c
      {
        if AtOrBelow(k, p) { ScannedIsBelow(key, k, p); }
      }
      hide Swept, Untouched;
    }
  }

  lemma SweptHere(a: map<string, Meta>, b: map<string, Meta>, c: map<string, Meta>, k: string)
    requires (forall p | p in b :: p in a && b[p] == a[p]) && Untouched(a, b, k) && Trimmed(b, c, k) && Swept(b, c, k)
    ensures Swept(a, c, k)
  {
    assert AtOrBelow(k, k);
    assert FilesOf(a, k) == FilesOf(b, k) && DirectoriesOf(a, k) == DirectoriesOf(b, k);
  }

  lemma SweptElsewhere(a: map<string, Meta>, b: map<string, Meta>, c: map<string, Meta>, key: string,
                       k: string, x: string)
    requires DirectlyUnder(key + "/", k) && DirectlyUnder(key + "/", x) && x != k && Trimmed(b, c, k)
    ensures Untouched(a, b, x) ==> Untouched(a, c, x)
    ensures Swept(a, b, x) ==> Swept(a, c, x)
  {
    forall p | p in b && AtOrBelow(x, p)
      ensures p in c
    {
      if AtOrBelow(k, p) { ScannedAreApart(key, k, x, p); }
    }
  }

  lemma ScanIsExact(a: map<string, Meta>, kv: map<string, Meta>, before: map<string, Meta>, key: string,
                    items: seq<Item>, scanned: set<string>)
    requires WellFormed(items) && Listed(a, kv, key, items, |items|)
    requires scanned == Filtered(before.Keys, key + "/") && kv.Keys <= before.Keys
    requires key in kv && kv[key] == DirMeta(TextKeys(key, items), DirKeys(key, items))
    requires forall k | k in scanned && k !in TextKeys(key, items) && k !in DirKeys(key, items) :: k !in kv
    ensures Synced(a, kv, key, items)
  {
    assert items[..|items|] == items;
    forall k
      ensures k in Filtered(kv.Keys, key + "/") <==> k in TextKeys(key, items) || k in DirKeys(key, items)
    {
      if k in TextKeys(key, items) || k in DirKeys(key, items) {
        var x :| x in items && k == Child(key, x.name) && (IsText(x) || x.Directory?);
        assert k[|key + "/"|..] == x.name;
        if k !in TextKeys(key, items) { assert Synced(a, kv, Child(key, x.name), x.inside); }
      }
    }
  }

  // `localSync`: from any old records whose lists stay below their directories, every
  // directory on disk ends up listed exactly as it is.
  method LocalSync(db: Db, root: string, items: seq<Item>)
    requires root != [] && root[|root| - 1] != '/' && WellFormed(items) && ListsBelow(db.kv)
    modifies db
    ensures Synced(old(db.kv), db.kv, root, items)
    ensures AgreeOutside(old(db.kv), db.kv, root) && ListsBelow(db.kv)
  {
    SyncDir(db, root, items);
  }
}
