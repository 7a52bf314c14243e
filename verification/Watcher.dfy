// The directory watcher: which directory each watch descriptor stands for, the snapshot of the
// tree, and the events reported when a directory is moved.
module Watcher {
  import opened Wrappers

  datatype Kind = Created | Deleted | Modified | MovedFrom | MovedTo

  datatype FileType = File | Directory

  datatype FileEvent = FileEvent(kind: Kind, path: string, fileType: FileType)

  // A watch descriptor.
  datatype Descriptor = Descriptor(number: int)

  // ---------- paths ----------

  predicate EndsInSlash(p: string) {
    p != [] && p[|p| - 1] == '/'
  }

  predicate IsDescendant(base: string, path: string)
    requires base != []
  {
    path == base || (if EndsInSlash(base) then base else base + "/") <= path
  }

  function Depth(path: string): nat {
    if path == [] then 0 else Depth(path[..|path| - 1]) + if path[|path| - 1] == '/' then 1 else 0
  }

  // A directory joined with a name from an event, which is empty when the event carries none.
  function Join(dir: string, name: string): string {
    if dir == [] || EndsInSlash(dir) then dir + name else dir + "/" + name
  }

  lemma {:induction false} DepthOfConcat(a: string, b: string)
    ensures Depth(a + b) == Depth(a) + Depth(b)
  {
    if b == [] {
      assert a + b == a;
    } else {
      DepthOfConcat(a, b[..|b| - 1]);
      assert (a + b)[..|a + b| - 1] == a + b[..|b| - 1];
    }
  }

  // What is below a directory is deeper, unless the directory is written with a slash at its end.
  lemma {:induction false} BelowIsDeeper(base: string, path: string)
    requires base != [] && !EndsInSlash(base) && IsDescendant(base, path) && path != base
    ensures Depth(path) > Depth(base)
  {
    assert path == base + "/" + path[|base| + 1..];
    DepthOfConcat(base, "/");
    DepthOfConcat(base + "/", path[|base| + 1..]);
    assert "/"[..0] == "" && Depth("/") == 1;
  }

  // The name in an event about an entry of a watched directory.
  predicate IsEntryName(name: string) {
    name != [] && '/' !in name
  }

  // A joined path ends in a slash exactly if the name is missing and there was a directory.
  lemma JoinEndsInSlash(dir: string, name: string)
    requires '/' !in name
    ensures EndsInSlash(Join(dir, name)) <==> name == [] && dir != []
    ensures name != [] ==> Join(dir, name) != []
  {
    if name != [] { assert name[|name| - 1] in name; }
  }

  // What follows the last slash.
  function LastName(path: string): string {
    if path == [] || path[|path| - 1] == '/' then [] else LastName(path[..|path| - 1]) + [path[|path| - 1]]
  }

  lemma {:induction false} LastNameOfConcat(dir: string, name: string)
    requires '/' !in name && (dir == [] || EndsInSlash(dir))
    ensures LastName(dir + name) == name
    decreases |name|
  {
    if name == [] {
      assert dir + name == dir;
    } else {
      var k := |name| - 1;
      LastNameOfConcat(dir, name[..k]);
      assert (dir + name)[..|dir + name| - 1] == dir + name[..k];
      assert name[k] in name && name == name[..k] + [name[k]];
    }
  }

  // The path of an entry lies below the watched directory, ends in the name of the entry, and has
  // exactly one slash between the two.
  lemma JoinedPath(dir: string, name: string)
    requires IsEntryName(name)
    ensures var path := Join(dir, name);
            && (dir == [] || EndsInSlash(dir) ==> path == dir + name)
            && (dir != [] && !EndsInSlash(dir) ==> path == dir + "/" + name)
            && (dir != [] ==> IsDescendant(dir, path)) && path != dir && LastName(path) == name
  {
    var before := if dir == [] || EndsInSlash(dir) then dir else dir + "/";
    assert Join(dir, name) == before + name;
    LastNameOfConcat(before, name);
    assert |Join(dir, name)| > |dir|;
  }

  // ---------- relocation ----------

  // The condition of the relocation loop.
  predicate Moves(oldPath: string, path: string) {
    path == oldPath || (|path| > |oldPath| && oldPath <= path && path[|oldPath|] == '/')
  }

  function Relocate(oldPath: string, newPath: string, path: string): string {
    if Moves(oldPath, path) then newPath + path[|oldPath|..] else path
  }

  function Relocated(watches: map<Descriptor, string>, oldPath: string, newPath: string): (r: map<Descriptor, string>)
    ensures r.Keys == watches.Keys
  {
    map wd | wd in watches :: Relocate(oldPath, newPath, watches[wd])
  }

  // The loop agrees with `is_descendant` on every path exactly if the old path does not end in a slash.
  lemma LoopMovesTheSubtree(oldPath: string)
    requires oldPath != []
    ensures (forall p :: Moves(oldPath, p) <==> IsDescendant(oldPath, p)) <==> !EndsInSlash(oldPath)
  {
    if EndsInSlash(oldPath) {
      var p := oldPath + "x";
      assert p[|oldPath|] == 'x';
      assert IsDescendant(oldPath, p) && !Moves(oldPath, p);
    } else {
      forall p
        ensures Moves(oldPath, p) <==> IsDescendant(oldPath, p)
      {
        PrefixWithSlash(oldPath, p);
      }
    }
  }

  lemma PrefixWithSlash(base: string, path: string)
    ensures base + "/" <= path <==> |path| > |base| && base <= path && path[|base|] == '/'
  {
    var full := base + "/";
    assert full[|base|] == '/' && base <= full;
    if |path| > |base| && base <= path { assert path[..|base| + 1] == base + [path[|base|]]; }
  }

  // A path at or below a directory is the directory followed by nothing or by a slash.
  predicate IsSuffix(suffix: string) {
    suffix == [] || suffix[0] == '/'
  }

  lemma SuffixOfDescendant(base: string, path: string)
    requires base != [] && !EndsInSlash(base)
    ensures IsDescendant(base, path) <==> base <= path && IsSuffix(path[|base|..])
  {
    LoopMovesTheSubtree(base);
    assert Moves(base, path) <==> IsDescendant(base, path);
  }

  lemma PutBelow(base: string, suffix: string)
    requires base != [] && !EndsInSlash(base) && IsSuffix(suffix)
    ensures IsDescendant(base, base + suffix) && (base + suffix)[|base|..] == suffix
  {
    SuffixOfDescendant(base, base + suffix);
  }

  // Exactly the watches at or below the old path move, to the same suffix under the new path.
  lemma RelocatesTheSubtree(watches: map<Descriptor, string>, oldPath: string, newPath: string, wd: Descriptor)
    requires oldPath != [] && newPath != [] && !EndsInSlash(oldPath) && !EndsInSlash(newPath) && wd in watches
    ensures var p, q := watches[wd], Relocated(watches, oldPath, newPath)[wd];
            && (IsDescendant(oldPath, p) ==>
                oldPath <= p && q == newPath + p[|oldPath|..] && IsDescendant(newPath, q))
            && (!IsDescendant(oldPath, p) ==> q == p)
  {
    var p := watches[wd];
    LoopMovesTheSubtree(oldPath);
    assert Moves(oldPath, p) <==> IsDescendant(oldPath, p);
    if IsDescendant(oldPath, p) {
      SuffixOfDescendant(oldPath, p);
      PutBelow(newPath, p[|oldPath|..]);
    }
  }

  predicate Apart(a: string, b: string)
    requires a != [] && b != []
  {
    !IsDescendant(a, b) && !IsDescendant(b, a)
  }

  // Two directories above one path lie one below the other.
  lemma AncestorsAreNested(a: string, b: string, path: string)
    requires a != [] && b != [] && !EndsInSlash(a) && !EndsInSlash(b)
    requires IsDescendant(a, path) && IsDescendant(b, path)
    ensures !Apart(a, b)
  {
    SuffixOfDescendant(a, path);
    SuffixOfDescendant(b, path);
    SuffixOfDescendant(a, b);
    SuffixOfDescendant(b, a);
    if |a| <= |b| {
      assert a == path[..|a|] && b == path[..|b|];
    } else {
      assert a == path[..|a|] && b == path[..|b|];
    }
  }

  // No watch is left at or below the old path.
  lemma NoneLeftBehind(watches: map<Descriptor, string>, oldPath: string, newPath: string, wd: Descriptor)
    requires oldPath != [] && newPath != [] && !EndsInSlash(oldPath) && !EndsInSlash(newPath)
    requires Apart(oldPath, newPath) && wd in watches
    ensures !IsDescendant(oldPath, Relocated(watches, oldPath, newPath)[wd])
  {
    RelocatesTheSubtree(watches, oldPath, newPath, wd);
    var q := Relocated(watches, oldPath, newPath)[wd];
    if IsDescendant(oldPath, q) { AncestorsAreNested(oldPath, newPath, q); }
  }

  // Moving back restores one watch exactly if it was below the old path or not below the new one.
  lemma MovedBackOne(p: string, oldPath: string, newPath: string)
    requires oldPath != [] && newPath != [] && !EndsInSlash(oldPath) && !EndsInSlash(newPath) && oldPath != newPath
    ensures Relocate(newPath, oldPath, Relocate(oldPath, newPath, p)) == p <==>
            (IsDescendant(newPath, p) ==> IsDescendant(oldPath, p))
  {
    var zero := Descriptor(0);
    var m := map[zero := p];
    var there := Relocated(m, oldPath, newPath);
    RelocatesTheSubtree(m, oldPath, newPath, zero);
    RelocatesTheSubtree(there, newPath, oldPath, zero);
    if IsDescendant(oldPath, p) {
      assert there[zero][|newPath|..] == p[|oldPath|..];
      assert p == oldPath + p[|oldPath|..];
    } else if IsDescendant(newPath, p) {
      assert p == newPath + p[|newPath|..];
      CancelSuffix(oldPath, newPath, p[|newPath|..]);
    }
  }

  lemma CancelSuffix(a: string, b: string, suffix: string)
    ensures a + suffix == b + suffix ==> a == b
  {
    if a + suffix == b + suffix {
      assert |a| == |b|;
      assert a == (a + suffix)[..|a|] == (b + suffix)[..|b|] == b;
    }
  }

  // Moving a directory and moving it back restores the watches exactly if every watch at or
  // below the new path was also at or below the old one; in particular if there was none.
  lemma MovedBackExactly(watches: map<Descriptor, string>, oldPath: string, newPath: string)
    requires oldPath != [] && newPath != [] && !EndsInSlash(oldPath) && !EndsInSlash(newPath) && oldPath != newPath
    ensures Relocated(Relocated(watches, oldPath, newPath), newPath, oldPath) == watches <==>
            forall wd | wd in watches :: IsDescendant(newPath, watches[wd]) ==> IsDescendant(oldPath, watches[wd])
  {
    var back := Relocated(Relocated(watches, oldPath, newPath), newPath, oldPath);
    forall wd | wd in watches
      ensures back[wd] == watches[wd] <==>
              (IsDescendant(newPath, watches[wd]) ==> IsDescendant(oldPath, watches[wd]))
    {
      MovedBackOne(watches[wd], oldPath, newPath);
    }
    assert back.Keys == watches.Keys;
    if forall wd | wd in watches :: back[wd] == watches[wd] {
      assert back == watches;
    }
  }

  // A move as the events tell it: an entry of one directory becomes an entry of another.  Exactly
  // the watches at or below it follow, to the same suffix, and none is left behind unless one of
  // the two paths lies below the other.
  lemma MoveRelocatesTheSubtree(watches: map<Descriptor, string>, oldDir: string, oldName: string,
                                newDir: string, newName: string, wd: Descriptor)
    requires IsEntryName(oldName) && IsEntryName(newName) && wd in watches
    ensures var oldPath, newPath := Join(oldDir, oldName), Join(newDir, newName);
            && oldPath != [] && newPath != []
            && var p, q := watches[wd], Relocated(watches, oldPath, newPath)[wd];
            && (IsDescendant(oldPath, p) ==>
                oldPath <= p && q == newPath + p[|oldPath|..] && IsDescendant(newPath, q))
            && (!IsDescendant(oldPath, p) ==> q == p)
            && (Apart(oldPath, newPath) ==> !IsDescendant(oldPath, q))
  {
    var oldPath, newPath := Join(oldDir, oldName), Join(newDir, newName);
    JoinEndsInSlash(oldDir, oldName);
    JoinEndsInSlash(newDir, newName);
    RelocatesTheSubtree(watches, oldPath, newPath, wd);
    if Apart(oldPath, newPath) { NoneLeftBehind(watches, oldPath, newPath, wd); }
  }

  // The move back restores the watches exactly if every watch at or below the new path was at or
  // below the old one.
  lemma MoveBackRestores(watches: map<Descriptor, string>, oldDir: string, oldName: string,
                         newDir: string, newName: string)
    requires IsEntryName(oldName) && IsEntryName(newName) && Join(oldDir, oldName) != Join(newDir, newName)
    ensures var oldPath, newPath := Join(oldDir, oldName), Join(newDir, newName);
            && oldPath != [] && newPath != []
            && (Relocated(Relocated(watches, oldPath, newPath), newPath, oldPath) == watches <==>
                forall wd | wd in watches ::
                  IsDescendant(newPath, watches[wd]) ==> IsDescendant(oldPath, watches[wd]))
  {
    JoinEndsInSlash(oldDir, oldName);
    JoinEndsInSlash(newDir, newName);
    MovedBackExactly(watches, Join(oldDir, oldName), Join(newDir, newName));
  }

  // ---------- the snapshot ----------

  function Subtree(snapshot: set<string>, base: string): set<string>
    requires base != []
  {
    set p | p in snapshot && IsDescendant(base, p)
  }

  // What the walk of a moved directory finds: everything that was below it, without itself.
  function Found(snapshot: set<string>, oldPath: string, newPath: string): set<string>
    requires oldPath != []
  {
    set p | p in Subtree(snapshot, oldPath) && p != oldPath :: Relocate(oldPath, newPath, p)
  }

  // After both halves of a move the snapshot is the moved snapshot, but without the moved
  // directory itself.
  lemma MovedSnapshotLacksItsBase(snapshot: set<string>, oldPath: string, newPath: string)
    requires oldPath != [] && !EndsInSlash(oldPath)
    requires newPath in snapshot ==> IsDescendant(oldPath, newPath)
    ensures var after := snapshot - Subtree(snapshot, oldPath) + Found(snapshot, oldPath, newPath);
            && newPath !in after
            && after + (if oldPath in snapshot then {newPath} else {}) ==
               set p | p in snapshot :: Relocate(oldPath, newPath, p)
  {
    LoopMovesTheSubtree(oldPath);
    assert forall p :: Moves(oldPath, p) <==> IsDescendant(oldPath, p);
    var after := snapshot - Subtree(snapshot, oldPath) + Found(snapshot, oldPath, newPath);
    var moved := set p | p in snapshot :: Relocate(oldPath, newPath, p);
    forall p | p in snapshot
      ensures Relocate(oldPath, newPath, p) in after || (p == oldPath && Relocate(oldPath, newPath, p) == newPath)
    {
      if IsDescendant(oldPath, p) && p != oldPath {
        assert Relocate(oldPath, newPath, p) in Found(snapshot, oldPath, newPath);
      }
    }
    forall q | q in after
      ensures q in moved && q != newPath
    {
      if q in Found(snapshot, oldPath, newPath) {
        var p :| p in Subtree(snapshot, oldPath) && p != oldPath && q == Relocate(oldPath, newPath, p);
        assert |p| > |oldPath|;
      } else {
        assert q == Relocate(oldPath, newPath, q);
      }
    }
    if oldPath in snapshot { assert newPath == Relocate(oldPath, newPath, oldPath); }
  }

  // ---------- reporting ----------

  // No path comes after a directory above it.
  ghost predicate ChildrenFirst(order: seq<string>) {
    forall i, j | 0 <= i < j < |order| && order[i] != [] && !EndsInSlash(order[i]) ::
      order[i] == order[j] || !IsDescendant(order[i], order[j])
  }

  predicate DeepestFirst(order: seq<string>) {
    forall i, j | 0 <= i < j < |order| :: Depth(order[i]) >= Depth(order[j])
  }

  lemma DescendantIsLonger(base: string, path: string)
    requires base != []
    ensures IsDescendant(base, path) ==> path == base || |path| > |base|
  {}

  lemma DeepestFirstIsChildrenFirst(order: seq<string>, base: string)
    requires DeepestFirst(order) && forall p | p in order :: base != [] && IsDescendant(base, p)
    ensures ChildrenFirst(order) && ChildrenFirst(order + [base])
  {
    forall i, j | 0 <= i < j < |order| && order[i] != [] && !EndsInSlash(order[i])
      ensures order[i] == order[j] || !IsDescendant(order[i], order[j])
    {
      if order[i] != order[j] && IsDescendant(order[i], order[j]) { BelowIsDeeper(order[i], order[j]); }
    }
    forall i | 0 <= i < |order| && order[i] != [] && !EndsInSlash(order[i])
      ensures order[i] == base || !IsDescendant(order[i], base)
    {
      assert order[i] in order;
      DescendantIsLonger(base, order[i]);
      DescendantIsLonger(order[i], base);
    }
  }

  // What reporting `es` adds to the queue when `known` was reported before.
  function News(known: set<FileEvent>, es: seq<FileEvent>): seq<FileEvent> {
    if es == [] then []
    else
      var k := |es| - 1;
      News(known, es[..k]) + if es[k] in known || es[k] in es[..k] then [] else [es[k]]
  }

  function Events(kind: Kind, paths: seq<string>, isDirectory: string -> bool): (es: seq<FileEvent>)
    ensures |es| == |paths|
    ensures forall i | 0 <= i < |paths| ::
              es[i].kind == kind && es[i].path == paths[i] && (es[i].fileType.Directory? <==> isDirectory(paths[i]))
  {
    seq(|paths|, i requires 0 <= i < |paths| =>
      FileEvent(kind, paths[i], if isDirectory(paths[i]) then Directory else File))
  }

  function Members<T>(s: seq<T>): set<T> {
    set x | x in s
  }

  // The event about one of these paths, or about the directory that moved.
  predicate IsAbout(e: FileEvent, kind: Kind, paths: set<string>, base: string, isDirectory: string -> bool) {
    && e.kind == kind
    && ((e.path in paths && (e.fileType.Directory? <==> isDirectory(e.path))) ||
        (e.path == base && e.fileType.Directory?))
  }

  lemma EventsAreAbout(kind: Kind, paths: seq<string>, base: string, isDirectory: string -> bool)
    ensures forall e :: IsAbout(e, kind, Members(paths), base, isDirectory) <==>
              e in Events(kind, paths, isDirectory) || e == FileEvent(kind, base, Directory)
  {
    var es := Events(kind, paths, isDirectory);
    forall e | IsAbout(e, kind, Members(paths), base, isDirectory)
      ensures e in es || e == FileEvent(kind, base, Directory)
    {
      if !(e.path == base && e.fileType.Directory?) {
        var i :| 0 <= i < |paths| && paths[i] == e.path;
        assert es[i] == e;
      }
    }
    forall e | e in es
      ensures IsAbout(e, kind, Members(paths), base, isDirectory)
    {
      var i :| 0 <= i < |es| && es[i] == e;
      assert paths[i] in paths;
    }
  }

  lemma NewsSnoc(known: set<FileEvent>, es: seq<FileEvent>, e: FileEvent)
    ensures News(known, es + [e]) == News(known, es) + if e in known || e in es then [] else [e]
    ensures Members(es + [e]) == Members(es) + {e}
  {
    assert (es + [e])[..|es|] == es;
  }

  // Every event is reported once, and nothing but what was to be reported.
  lemma {:induction false} NewsIsNew(known: set<FileEvent>, es: seq<FileEvent>)
    ensures forall e :: e in News(known, es) <==> e in es && e !in known
    ensures NoDuplicates(News(known, es))
  {
    if es != [] {
      var k := |es| - 1;
      NewsIsNew(known, es[..k]);
      assert es == es[..k] + [es[k]];
    }
  }

  // Sorting for the report: deepest first.
  method SortByDepth(paths: seq<string>) returns (r: seq<string>)
    requires NoDuplicates(paths)
    ensures NoDuplicates(r) && Members(r) == Members(paths) && DeepestFirst(r)
  {
    r := [];
    for i := 0 to |paths|
      invariant NoDuplicates(r) && Members(r) == Members(paths[..i]) && DeepestFirst(r)
    {
      assert paths[i] !in paths[..i] && paths[i] !in Members(r);
      r := InsertByDepth(r, paths[i]);
      assert paths[..i + 1] == paths[..i] + [paths[i]];
    }
    assert paths[..|paths|] == paths;
  }

  method InsertByDepth(s: seq<string>, p: string) returns (r: seq<string>)
    requires DeepestFirst(s) && NoDuplicates(s) && p !in s
    ensures NoDuplicates(r) && Members(r) == Members(s) + {p} && DeepestFirst(r)
  {
    hide Depth, DeepestFirst;
    var j := 0;
    while j < |s| && Depth(s[j]) >= Depth(p)
      invariant j <= |s| && forall k | 0 <= k < j :: Depth(s[k]) >= Depth(p)
    {
      j := j + 1;
    }
    InsertKeepsOrder(s, j, p);
    r := s[..j] + [p] + s[j..];
    assert s == s[..j] + s[j..];
  }

  lemma InsertKeepsOrder(s: seq<string>, j: nat, p: string)
    requires j <= |s| && DeepestFirst(s)
    requires forall k | 0 <= k < j :: Depth(s[k]) >= Depth(p)
    requires j < |s| ==> Depth(s[j]) < Depth(p)
    ensures DeepestFirst(s[..j] + [p] + s[j..])
  {
    hide Depth;
  }

  method SplitBase(entries: seq<string>, base: string) returns (children: seq<string>, reported: bool)
    requires NoDuplicates(entries)
    ensures NoDuplicates(children) && forall p :: p in children <==> p in entries && p != base
    ensures reported <==> base in entries
  {
    children, reported := [], false;
    for i := 0 to |entries|
      invariant NoDuplicates(children) && forall p :: p in children <==> p in entries[..i] && p != base
      invariant reported <==> base in entries[..i]
    {
      assert entries[..i + 1] == entries[..i] + [entries[i]] && entries[i] !in entries[..i];
      if entries[i] == base {
        reported := true;
      } else {
        children := children + [entries[i]];
      }
    }
    assert entries[..|entries|] == entries;
  }

  // The base apart from its descendants, and those deepest first.
  method ChildrenDeepestFirst(entries: seq<string>, base: string) returns (children: seq<string>, reported: bool)
    requires base != [] && NoDuplicates(entries) && forall p | p in entries :: IsDescendant(base, p)
    ensures NoDuplicates(children) && Members(children) == Members(entries) - {base}
    ensures ChildrenFirst(children + [base])
    ensures reported <==> base in entries
  {
    hide NoDuplicates, DeepestFirst, ChildrenFirst, IsDescendant;
    var split;
    split, reported := SplitBase(entries, base);
    children := SortByDepth(split);
    forall p | p in children
      ensures p in entries
    {
      assert p in Members(children) && p in Members(split);
    }
    DeepestFirstIsChildrenFirst(children, base);
  }

  function LookedUp(watches: map<Descriptor, string>, wd: Descriptor): map<Descriptor, string> {
    if wd in watches then watches else watches[wd := ""]
  }

  class DirectoryWatcher {
    var wdToPath: map<Descriptor, string>
    var moveCookies: map<int, string>
    var snapshot: set<string>
    var eventQueue: seq<FileEvent>
    var eventMap: set<FileEvent>

    // A remembered path is that of an entry: it is not empty and does not end in a slash.
    ghost predicate Valid()
      reads this
    {
      forall c | c in moveCookies :: moveCookies[c] != [] && !EndsInSlash(moveCookies[c])
    }

    constructor (wdToPath: map<Descriptor, string>, snapshot: set<string>)
      ensures Valid() && this.wdToPath == wdToPath && this.snapshot == snapshot
      ensures moveCookies == map[] && eventQueue == [] && eventMap == {}
    {
      this.wdToPath, this.snapshot := wdToPath, snapshot;
      moveCookies, eventQueue, eventMap := map[], [], {};
    }

    method Report(e: FileEvent)
      modifies this`eventQueue, this`eventMap
      ensures eventQueue == old(eventQueue) + if e in old(eventMap) then [] else [e]
      ensures eventMap == old(eventMap) + {e}
    {
      if e !in eventMap {
        eventQueue := eventQueue + [e];
        eventMap := eventMap + {e};
      }
    }

    method ReportAll(es: seq<FileEvent>)
      modifies this`eventQueue, this`eventMap
      ensures eventQueue == old(eventQueue) + News(old(eventMap), es)
      ensures eventMap == old(eventMap) + Members(es)
    {
      for i := 0 to |es|
        invariant eventQueue == old(eventQueue) + News(old(eventMap), es[..i])
        invariant eventMap == old(eventMap) + Members(es[..i])
      {
        Report(es[i]);
        assert es[..i + 1] == es[..i] + [es[i]] && es[..i + 1][..i] == es[..i];
      }
      assert es[..|es|] == es;
    }

    // The paths at or below a directory, in the order of the set.
    method GetSnapshotEntries(base: string) returns (result: seq<string>)
      requires base != []
      ensures NoDuplicates(result) && Members(result) == Subtree(snapshot, base)
      ensures forall p | p in result :: IsDescendant(base, p)
    {
      result := [];
      var rest := snapshot;
      while rest != {}
        invariant rest <= snapshot && NoDuplicates(result)
        invariant forall p :: p in result <==> p in snapshot - rest && IsDescendant(base, p)
        decreases |rest|
      {
        var p :| p in rest;
        rest := rest - {p};
        if IsDescendant(base, p) {
          result := result + [p];
        }
      }
    }

    method RelocateOne(wd: Descriptor, oldPath: string, newPath: string)
      requires wd in wdToPath
      modifies this`wdToPath
      ensures wdToPath == old(wdToPath)[wd := Relocate(oldPath, newPath, old(wdToPath)[wd])]
    {
      var path := wdToPath[wd];
      if path == oldPath {
        wdToPath := wdToPath[wd := newPath];
        assert path[|oldPath|..] == [] && newPath + [] == newPath;
      } else if |path| > |oldPath| && oldPath <= path && path[|oldPath|] == '/' {
        wdToPath := wdToPath[wd := newPath + path[|oldPath|..]];
      }
    }

    // The loop over the watch map.
    method RelocateWatches(oldPath: string, newPath: string)
      modifies this`wdToPath
      ensures wdToPath == Relocated(old(wdToPath), oldPath, newPath)
    {
      hide Relocate;
      ghost var before := wdToPath;
      var rest := wdToPath.Keys;
      while rest != {}
        invariant rest <= wdToPath.Keys
        invariant wdToPath.Keys == before.Keys
        invariant forall wd | wd in before :: wdToPath[wd] ==
                    if wd in rest then before[wd] else Relocate(oldPath, newPath, before[wd])
        decreases |rest|
      {
        var wd :| wd in rest;
        RelocateOne(wd, oldPath, newPath);
        rest := rest - {wd};
      }
    }

    // `wd_to_path[event->wd]` joined with the name: looking a descriptor up adds it when it is missing.
    method PathOfEvent(wd: Descriptor, name: string) returns (path: string)
      modifies this`wdToPath
      ensures wdToPath == LookedUp(old(wdToPath), wd)
      ensures path == Join(wdToPath[wd], name)
    {
      if wd !in wdToPath {
        wdToPath := wdToPath[wd := ""];
      }
      path := Join(wdToPath[wd], name);
    }

    // A directory leaves: what the snapshot and the queue see of it.
    method ReportMovedFrom(path: string, isDirectory: string -> bool) returns (ghost order: seq<string>)
      requires path != []
      modifies this`snapshot, this`eventQueue, this`eventMap
      ensures snapshot == old(snapshot) - Subtree(old(snapshot), path)
      ensures NoDuplicates(order) && Members(order) == Subtree(old(snapshot), path) - {path}
      ensures ChildrenFirst(order + [path])
      ensures var es := Events(MovedFrom, order, isDirectory) + [FileEvent(MovedFrom, path, Directory)];
              && eventQueue == old(eventQueue) + News(old(eventMap), es)
              && eventMap == old(eventMap) + Members(es)
    {
      hide Subtree, NoDuplicates, ChildrenFirst, News, IsDescendant;
      var allEntries := GetSnapshotEntries(path);
      snapshot := snapshot - Members(allEntries);
      var children, baseReported := ChildrenDeepestFirst(allEntries, path);
      order := children;
      var es := Events(MovedFrom, children, isDirectory);
      ReportAll(es);
      NewsSnoc(old(eventMap), es, FileEvent(MovedFrom, path, Directory));
      if baseReported {
        Report(FileEvent(MovedFrom, path, Directory));
      }
      Report(FileEvent(MovedFrom, path, Directory));
    }

    // The first half of a move.  `isDirectory` is what the file system says while events are made.
    method OnDirectoryMovedFrom(wd: Descriptor, name: string, cookie: int, isDirectory: string -> bool)
        returns (path: string, ghost order: seq<string>)
      requires Valid() && IsEntryName(name) && cookie != 0
      modifies this
      ensures Valid() && wdToPath == LookedUp(old(wdToPath), wd)
      ensures path == Join(wdToPath[wd], name) != []
      ensures var dir := wdToPath[wd];
              && (dir != [] && !EndsInSlash(dir) ==> path == dir + "/" + name)
              && (dir != [] ==> IsDescendant(dir, path)) && path != dir && LastName(path) == name
      ensures snapshot == old(snapshot) - Subtree(old(snapshot), path)
      ensures moveCookies == old(moveCookies)[cookie := path]
      ensures NoDuplicates(order) && Members(order) == Subtree(old(snapshot), path) - {path}
      ensures ChildrenFirst(order + [path])
      ensures var es := Events(MovedFrom, order, isDirectory) + [FileEvent(MovedFrom, path, Directory)];
              && eventQueue == old(eventQueue) + News(old(eventMap), es)
              && eventMap == old(eventMap) + Members(es)
      ensures forall e :: e in eventMap <==>
                e in old(eventMap) || IsAbout(e, MovedFrom, Subtree(old(snapshot), path) - {path}, path, isDirectory)
    {
      path := PathOfEvent(wd, name);
      JoinEndsInSlash(wdToPath[wd], name);
      JoinedPath(wdToPath[wd], name);
      hide Subtree, NoDuplicates, ChildrenFirst, News, IsDescendant, Join, EndsInSlash;
      order := ReportMovedFrom(path, isDirectory);
      EventsAreAbout(MovedFrom, order, path, isDirectory);
      moveCookies := moveCookies[cookie := path];
    }

    // The directory arrives; `tree` is what walking it yields before the walk ends or fails.
    method OnDirectoryMovedTo(wd: Descriptor, name: string, cookie: int, tree: seq<string>, isDirectory: string -> bool)
        returns (newPath: string)
      requires Valid() && IsEntryName(name) && cookie != 0 && cookie in moveCookies
      modifies this
      ensures var watches := LookedUp(old(wdToPath), wd); var oldPath := old(moveCookies)[cookie];
              && newPath == Join(watches[wd], name) != []
              && (var dir := watches[wd];
                  && (dir != [] && !EndsInSlash(dir) ==> newPath == dir + "/" + name)
                  && (dir != [] ==> IsDescendant(dir, newPath)) && newPath != dir && LastName(newPath) == name)
              && wdToPath == Relocated(watches, oldPath, newPath)
              && oldPath != []
              && forall d | d in watches ::
                   if IsDescendant(oldPath, watches[d])
                   then oldPath <= watches[d] && wdToPath[d] == newPath + watches[d][|oldPath|..]
                   else wdToPath[d] == watches[d]
      ensures Valid() && snapshot == old(snapshot) + Members(tree)
      ensures moveCookies == old(moveCookies) - {cookie}
      ensures var es := [FileEvent(MovedTo, newPath, Directory)] + Events(MovedTo, tree, isDirectory);
              && eventQueue == old(eventQueue) + News(old(eventMap), es)
              && eventMap == old(eventMap) + Members(es)
      ensures forall e :: e in eventMap <==>
                e in old(eventMap) || IsAbout(e, MovedTo, Members(tree), newPath, isDirectory)
    {
      newPath := PathOfEvent(wd, name);
      JoinEndsInSlash(wdToPath[wd], name);
      JoinedPath(wdToPath[wd], name);
      ghost var watches := wdToPath;
      var oldPath := moveCookies[cookie];
      RelocateWatches(oldPath, newPath);
      forall d | d in watches
        ensures if IsDescendant(oldPath, watches[d])
                then oldPath <= watches[d] && wdToPath[d] == newPath + watches[d][|oldPath|..]
                else wdToPath[d] == watches[d]
      {
        RelocatesTheSubtree(watches, oldPath, newPath, d);
      }
      hide IsDescendant, Relocated, Join, EndsInSlash, News;
      var es := [FileEvent(MovedTo, newPath, Directory)] + Events(MovedTo, tree, isDirectory);
      EventsAreAbout(MovedTo, tree, newPath, isDirectory);
      ReportAll(es);
      snapshot := snapshot + Members(tree);
      moveCookies := moveCookies - {cookie};
    }
  }
}
