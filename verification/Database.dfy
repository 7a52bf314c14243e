// The client's metadata database: a map whose iterator visits the keys in byte order.
module Database {
  import opened Paths

  datatype Meta =
    | FileMeta(version: string, content: string)
    | DirMeta(files: seq<string>, directories: seq<string>)

  // What `File_Metadata(name)` starts from.
  const NEW_FILE := FileMeta("0", "")

  // ---------- byte order ----------

  predicate Leq(a: string, b: string) {
    a == [] || (b != [] && (a[0] < b[0] || (a[0] == b[0] && Leq(a[1..], b[1..]))))
  }

  lemma {:induction false} LeqTransitive(a: string, b: string, c: string)
    requires Leq(a, b) && Leq(b, c)
    ensures Leq(a, c)
  {
    if a != [] && a[0] == b[0] == c[0] {
      LeqTransitive(a[1..], b[1..], c[1..]);
    }
  }

  lemma {:induction false} LeqTotal(a: string, b: string)
    ensures Leq(a, b) || Leq(b, a)
  {
    if a != [] && b != [] && a[0] == b[0] {
      LeqTotal(a[1..], b[1..]);
    }
  }

  // A key that begins with the prefix is not before it.
  lemma {:induction false} PrefixIsLeq(prefix: string, key: string)
    requires prefix <= key
    ensures Leq(prefix, key)
  {
    if prefix != [] {
      assert prefix[1..] <= key[1..];
      PrefixIsLeq(prefix[1..], key[1..]);
    }
  }

  // From the first key at or after the prefix that does not begin with it, none does.
  lemma {:induction false} PrefixesAreTogether(prefix: string, a: string, b: string)
    requires Leq(prefix, a) && Leq(a, b) && prefix <= b
    ensures prefix <= a
  {
    if prefix != [] {
      assert prefix[0] == b[0] == a[0];
      assert prefix[1..] <= b[1..];
      PrefixesAreTogether(prefix[1..], a[1..], b[1..]);
    }
  }

  ghost predicate Sorted(keys: seq<string>) {
    forall i, j | 0 <= i <= j < |keys| :: Leq(keys[i], keys[j])
  }

  // ---------- the iterator ----------

  // `Seek`: the first position at or after the target.
  method Seek(keys: seq<string>, target: string) returns (at: nat)
    requires Sorted(keys)
    ensures at <= |keys|
    ensures forall i | 0 <= i < at :: !Leq(target, keys[i])
    ensures at < |keys| ==> Leq(target, keys[at])
  {
    at := 0;
    while at < |keys| && !Leq(target, keys[at])
      invariant at <= |keys|
      invariant forall i | 0 <= i < at :: !Leq(target, keys[i])
    {
      at := at + 1;
    }
  }

  function Insert(keys: seq<string>, k: string): (r: seq<string>)
    ensures forall x :: x in r <==> x == k || x in keys
    ensures |r| == |keys| + 1
  {
    if keys == [] then [k]
    else if Leq(k, keys[0]) then [k] + keys
    else
      assert keys == [keys[0]] + keys[1..];
      [keys[0]] + Insert(keys[1..], k)
  }

  lemma {:induction false} InsertSorts(keys: seq<string>, k: string)
    requires Sorted(keys)
    ensures Sorted(Insert(keys, k))
  {
    if keys != [] && Leq(k, keys[0]) {
      forall i | 0 <= i < |keys| ensures Leq(k, keys[i]) { LeqTransitive(k, keys[0], keys[i]); }
      LeqTotal(k, k);
    } else if keys != [] {
      InsertSorts(keys[1..], k);
      LeqTotal(k, keys[0]);
      var rest := Insert(keys[1..], k);
      forall i | 0 <= i < |rest| ensures Leq(keys[0], rest[i]) { assert rest[i] in rest; }
      LeqTotal(keys[0], keys[0]);
    } else {
      LeqTotal(k, k);
    }
  }

  // ---------- the prefix scan ----------

  // The prefix followed by a name that is not empty and has no slash.
  predicate DirectlyUnder(prefix: string, key: string) {
    prefix <= key && |prefix| < |key| && '/' !in key[|prefix|..]
  }

  // The same by filtering a whole set of keys.
  function Filtered(keys: set<string>, prefix: string): set<string> {
    set k | k in keys && DirectlyUnder(prefix, k)
  }

  // Seek, then go on until the first key that does not begin with the prefix.
  method ScanSorted(keys: seq<string>, prefix: string) returns (result: set<string>)
    requires Sorted(keys)
    ensures result == Filtered((set k | k in keys), prefix)
  {
    result := {};
    var start := Seek(keys, prefix);
    forall i | 0 <= i < start ensures !(prefix <= keys[i]) {
      if prefix <= keys[i] { PrefixIsLeq(prefix, keys[i]); }
    }
    var at := start;
    while at < |keys|
      invariant start <= at <= |keys|
      invariant result == set k | k in keys[..at] && DirectlyUnder(prefix, k)
    {
      var key := keys[at];
      if !(prefix <= key) {
        LeqTransitive(prefix, keys[start], key);
        forall i | at <= i < |keys| ensures !(prefix <= keys[i]) {
          if prefix <= keys[i] { PrefixesAreTogether(prefix, key, keys[i]); }
        }
        break;
      }
      assert keys[..at + 1] == keys[..at] + [key];
      var remainder := key[|prefix|..];
      if remainder != [] && '/' !in remainder {
        result := result + {key};
      }
      at := at + 1;
    }
    assert forall k | k in keys && DirectlyUnder(prefix, k) :: k in keys[..at];
  }

  class Db {
    var kv: map<string, Meta>

    constructor ()
      ensures kv == map[]
    {
      kv := map[];
    }

    // What the iterator goes through.
    method SortedKeys() returns (keys: seq<string>)
      ensures Sorted(keys) && (set k | k in keys) == kv.Keys
    {
      keys := [];
      var rest := kv.Keys;
      while rest != {}
        invariant Sorted(keys)
        invariant forall k :: k in keys <==> k in kv.Keys && k !in rest
        invariant rest <= kv.Keys
        decreases |rest|
      {
        var k :| k in rest;
        InsertSorts(keys, k);
        keys := Insert(keys, k);
        rest := rest - {k};
      }
    }

    method PrefixScan(prefix: string) returns (result: set<string>)
      ensures result == Filtered(kv.Keys, prefix)
    {
      var keys := SortedKeys();
      result := ScanSorted(keys, prefix);
    }

    // A file record read as a directory has no lists.
    method LoadDirectory(key: string) returns (found: bool, files: seq<string>, directories: seq<string>)
      ensures found == (key in kv)
      ensures files == FilesOf(kv, key) && directories == DirectoriesOf(kv, key)
    {
      files, directories := [], [];
      found := key in kv;
      if found && kv[key].DirMeta? {
        files, directories := kv[key].files, kv[key].directories;
      }
    }

    method RemoveFile(key: string)
      modifies this
      ensures kv == old(kv) - {key}
    {
      kv := kv - {key};
    }

    // Removes the files a directory lists, then the directories, then its own record.  Lists
    // name only what lies below, so the recursion ends: no key is longer than `bound`.
    method RemoveDirectory(key: string, ghost bound: nat)
      requires ListsBelow(kv) && forall k | k in kv :: |k| <= bound
      modifies this
      ensures Trimmed(old(kv), kv, key) && key !in kv && ListsBelow(kv)
      ensures Gone(FilesOf(old(kv), key), kv) && Gone(DirectoriesOf(old(kv), key), kv)
      ensures FilesAreLeaves(old(kv)) ==> Closed(old(kv), kv)
      ensures key !in old(kv) ==> kv == old(kv)
      ensures ListedTwice(old(kv), key) ==> Minus(old(kv), kv, FilesOf(old(kv), key) + [key])
      decreases if |key| <= bound then bound - |key| + 1 else 0
    {
      var found, files, directories := LoadDirectory(key);
      if !found {
        return;
      }
      for i := 0 to |files|
        invariant Trimmed(old(kv), kv, key) && ListsBelow(kv)
        invariant Gone(files[..i], kv)
        invariant FilesAreLeaves(old(kv)) ==> Closed(old(kv), kv)
        invariant Minus(old(kv), kv, files[..i])
      {
        ghost var before := kv;
        assert Below(key, files[i]);
        RemoveFile(files[i]);
        if FilesAreLeaves(old(kv)) { LeafStaysClosed(old(kv), before, key, files[i]); }
        TrimmedWithout(old(kv), before, key, files[i]);
        GoneOneMore(files, i, before, kv);
        MinusOneMore(old(kv), before, files, i);
        hide *;
      }
      for i := 0 to |directories|
        invariant Trimmed(old(kv), kv, key) && ListsBelow(kv)
        invariant Gone(files, kv) && Gone(directories[..i], kv)
        invariant FilesAreLeaves(old(kv)) ==> Closed(old(kv), kv)
        invariant ListedTwice(old(kv), key) ==> Minus(old(kv), kv, files)
      {
        ghost var before := kv;
        assert ListedTwice(old(kv), key) ==> directories[i] in files;
        assert Below(key, directories[i]);
        RemoveDirectory(directories[i], bound);
        if FilesAreLeaves(old(kv)) {
          LeavesStay(old(kv), before, key);
          ClosedTwice(old(kv), before, kv, key);
        }
        TrimmedBelow(old(kv), before, kv, key, directories[i]);
        GoneStays(files, before, kv);
        GoneOneMore(directories, i, before, kv);
        hide *;
      }
      TrimmedWithout(old(kv), kv, key, key);
      GoneStays(files, kv, kv - {key});
      GoneStays(directories, kv, kv - {key});
      assert files[..|files|] == files && directories[..|directories|] == directories;
      if FilesAreLeaves(old(kv)) { OwnerStaysClosed(old(kv), kv, key); }
      if ListedTwice(old(kv), key) { MinusSnoc(old(kv), kv, files, key); }
      hide Minus, ListedTwice, FilesAreLeaves, Closed;
      kv := kv - {key};
    }
  }

  // ---------- stored lists ----------

  function FilesOf(kv: map<string, Meta>, key: string): seq<string> {
    if key in kv && kv[key].DirMeta? then kv[key].files else []
  }

  function DirectoriesOf(kv: map<string, Meta>, key: string): seq<string> {
    if key in kv && kv[key].DirMeta? then kv[key].directories else []
  }

  // Every stored list names only paths below its own directory.
  ghost predicate ListsBelow(kv: map<string, Meta>) {
    && (forall d, p | d in kv && p in FilesOf(kv, d) :: Below(d, p))
    && (forall d, p | d in kv && p in DirectoriesOf(kv, d) :: Below(d, p))
  }

  // Nothing was added or changed, and nothing was removed except at or below `d`.
  ghost predicate Trimmed(a: map<string, Meta>, b: map<string, Meta>, d: string) {
    && (forall p | p in b :: p in a && b[p] == a[p])
    && (forall p | p in a && !AtOrBelow(d, p) :: p in b)
  }

  ghost predicate Gone(keys: seq<string>, kv: map<string, Meta>) {
    forall k | k in keys :: k !in kv
  }

  // What is listed as a file has no lists of its own.
  ghost predicate FilesAreLeaves(kv: map<string, Meta>) {
    forall d, p | d in kv && p in FilesOf(kv, d) :: FilesOf(kv, p) == [] && DirectoriesOf(kv, p) == []
  }

  // All that went is the keys.
  ghost predicate Minus(a: map<string, Meta>, b: map<string, Meta>, keys: seq<string>) {
    b == a - set k | k in keys
  }

  lemma MinusSnoc(a: map<string, Meta>, b: map<string, Meta>, keys: seq<string>, k: string)
    requires Minus(a, b, keys)
    ensures Minus(a, b - {k}, keys + [k])
  {}

  lemma MinusOneMore(a: map<string, Meta>, b: map<string, Meta>, keys: seq<string>, i: nat)
    requires i < |keys| && Minus(a, b, keys[..i])
    ensures Minus(a, b - {keys[i]}, keys[..i + 1])
  {
    assert keys[..i + 1] == keys[..i] + [keys[i]];
  }

  // Every directory it lists is listed as a file too.
  predicate ListedTwice(kv: map<string, Meta>, key: string) {
    key in kv && forall d | d in DirectoriesOf(kv, key) :: d in FilesOf(kv, key)
  }

  // A directory that is listed as a file too loses its record before it is gone into, so that what
  // it lists stays.
  method ListedTwiceStays(db: Db, d: string, e: string, f: string)
    requires Below(d, e) && Below(e, f)
    requires db.kv == map[d := DirMeta([e], [e])][e := DirMeta([f], [])][f := NEW_FILE]
    modifies db
    ensures d !in db.kv && e !in db.kv && f in db.kv
  {
    assert |d| < |e| < |f|;
    db.RemoveDirectory(d, |f|);
  }

  // With a record everything it lists is gone.
  ghost predicate Closed(a: map<string, Meta>, b: map<string, Meta>) {
    forall d | d in a && d !in b :: Gone(FilesOf(a, d), b) && Gone(DirectoriesOf(a, d), b)
  }

  lemma LeafStaysClosed(a: map<string, Meta>, b: map<string, Meta>, key: string, p: string)
    requires FilesAreLeaves(a) && Closed(a, b) && key in a && p in FilesOf(a, key) && b.Keys <= a.Keys
    ensures Closed(a, b - {p})
  {}

  lemma LeavesStay(a: map<string, Meta>, b: map<string, Meta>, key: string)
    requires FilesAreLeaves(a) && Trimmed(a, b, key)
    ensures FilesAreLeaves(b)
  {
    forall d, p | d in b && p in FilesOf(b, d)
      ensures FilesOf(b, p) == [] && DirectoriesOf(b, p) == []
    {
      assert d in a && p in FilesOf(a, d);
    }
  }

  lemma ClosedTwice(a: map<string, Meta>, b: map<string, Meta>, c: map<string, Meta>, key: string)
    requires Closed(a, b) && Trimmed(a, b, key) && Closed(b, c)
    requires forall k | k in c :: k in b
    ensures Closed(a, c)
  {
    forall d | d in a && d !in c
      ensures Gone(FilesOf(a, d), c) && Gone(DirectoriesOf(a, d), c)
    {
      if d in b { assert FilesOf(a, d) == FilesOf(b, d) && DirectoriesOf(a, d) == DirectoriesOf(b, d); }
    }
  }

  lemma OwnerStaysClosed(a: map<string, Meta>, b: map<string, Meta>, key: string)
    requires Closed(a, b) && Gone(FilesOf(a, key), b) && Gone(DirectoriesOf(a, key), b)
    ensures Closed(a, b - {key})
  {}

  // Each key after the first is listed by the one before it.
  ghost predicate ListedChain(kv: map<string, Meta>, chain: seq<string>) {
    var last := |chain| - 1;
    && chain != []
    && (last > 0 ==>
          && ListedChain(kv, chain[..last]) && chain[last - 1] in kv
          && (chain[last] in FilesOf(kv, chain[last - 1]) || chain[last] in DirectoriesOf(kv, chain[last - 1])))
  }

  // So when a record is gone, everything that stored lists lead to from it is gone.
  lemma {:induction false} ReachableIsGone(a: map<string, Meta>, b: map<string, Meta>, chain: seq<string>)
    requires Closed(a, b) && ListedChain(a, chain) && chain[0] !in b
    ensures chain[|chain| - 1] !in b
  {
    var last := |chain| - 1;
    if last > 0 { ReachableIsGone(a, b, chain[..last]); }
  }

  lemma GoneStays(keys: seq<string>, a: map<string, Meta>, b: map<string, Meta>)
    requires Gone(keys, a) && forall k | k in b :: k in a
    ensures Gone(keys, b)
  {}

  lemma GoneOneMore(keys: seq<string>, i: nat, a: map<string, Meta>, b: map<string, Meta>)
    requires i < |keys| && Gone(keys[..i], a) && keys[i] !in b && forall k | k in b :: k in a
    ensures Gone(keys[..i + 1], b)
  {
    assert keys[..i + 1] == keys[..i] + [keys[i]];
  }

  lemma TrimmedWithout(a: map<string, Meta>, b: map<string, Meta>, d: string, k: string)
    requires Trimmed(a, b, d) && AtOrBelow(d, k) && ListsBelow(b)
    ensures Trimmed(a, b - {k}, d) && ListsBelow(b - {k})
  {}

  lemma TrimmedBelow(a: map<string, Meta>, b: map<string, Meta>, c: map<string, Meta>, d: string, e: string)
    requires Trimmed(a, b, d) && Trimmed(b, c, e) && Below(d, e)
    ensures Trimmed(a, c, d)
  {
    forall p | p in a && !AtOrBelow(d, p)
      ensures p in c
    {
      if AtOrBelow(e, p) {
        BelowNests(d, e, p);
      }
    }
  }

  lemma {:induction false} KeysAreBounded(keys: set<string>) returns (bound: nat)
    ensures forall k | k in keys :: |k| <= bound
  {
    if keys == {} {
      bound := 0;
    } else {
      var k :| k in keys;
      var b := KeysAreBounded(keys - {k});
      bound := if b < |k| then |k| else b;
      assert forall x | x in keys :: x == k || x in keys - {k};
    }
  }
}
