// The directory tree the metadata server keeps as entries keyed by path.
module Namespace {
  import opened Wrappers
  import opened Paths

  // The signup server stores an empty directory under this name.
  const ROOT := "dropbox"

  // One stored entry of one user.  A field the JSON object lacks, or holds as null, is None.
  datatype Entry = Entry(isDir: bool, subdirs: Option<seq<string>>, files: Option<seq<string>>)

  type Store = map<string, Entry>

  const EMPTY_DIR := Entry(true, Some([]), Some([]))
  const NEW_FILE := Entry(false, None, None)

  datatype Request =
    | CreateDirectory(path: string)
    | CreateFile(path: string)
    | Delete(path: string)

  // `erase(remove(...))`: every occurrence goes.
  function Without(list: seq<string>, x: string): (r: seq<string>)
    ensures forall y :: y in r <==> y in list && y != x
    ensures NoDuplicates(list) ==> NoDuplicates(r)
  {
    if list == [] then []
    else
      var k := |list| - 1;
      var r := Without(list[..k], x);
      assert list == list[..k] + [list[k]];
      assert NoDuplicates(list) ==> list[k] !in list[..k];
      if list[k] == x then r else r + [list[k]]
  }

  function Added(list: Option<seq<string>>, x: string): Option<seq<string>> {
    Some((if list.Some? then list.value else []) + [x])
  }

  function Removed(list: Option<seq<string>>, x: string): Option<seq<string>> {
    if list.Some? then Some(Without(list.value, x)) else None
  }

  // ---------- the handlers on the stored map ----------

  predicate Creates(s: Store, path: string) {
    path !in s && HasParent(path) && Parent(path) in s
  }

  // When the parent has no list of subdirectories the new entry stays, unlisted.
  function AfterCreateDirectory(s: Store, path: string): Store {
    if !Creates(s, path) then s
    else
      var p := Parent(path);
      var t := s[path := EMPTY_DIR];
      if s[p].subdirs.None? then t else t[p := s[p].(subdirs := Added(s[p].subdirs, path))]
  }

  function AfterCreateFile(s: Store, path: string): Store {
    if !Creates(s, path) then s
    else
      var p := Parent(path);
      s[path := NEW_FILE][p := s[p].(files := Added(s[p].files, path))]
  }

  // Which list of the parent is cleaned is decided by the name alone.
  function AfterDelete(s: Store, path: string): Store {
    if path !in s then s
    else
      var t := s - {path};
      var p := if HasParent(path) then Parent(path) else path;
      if p !in t then t
      else if IsTxt(path) then t[p := t[p].(files := Removed(t[p].files, path))]
      else t[p := t[p].(subdirs := Removed(t[p].subdirs, path))]
  }

  function Next(s: Store, r: Request): Store {
    match r
    case CreateDirectory(path) => AfterCreateDirectory(s, path)
    case CreateFile(path) => AfterCreateFile(s, path)
    case Delete(path) => AfterDelete(s, path)
  }

  // The server object: each handler reads an entry, changes its lists and writes it back.
  class MetaServer {
    var store: Store

    constructor ()
      ensures store == map[ROOT := EMPTY_DIR]
      ensures Tree(store)
    {
      store := map[ROOT := EMPTY_DIR];
    }

    method CreateDirectory(path: string) returns (status: int)
      modifies this
      ensures store == AfterCreateDirectory(old(store), path)
      ensures status in {200, 400, 404, 500}
      ensures status == 200 <==> Creates(old(store), path) && old(store)[Parent(path)].subdirs.Some?
      ensures status == 400 <==> path in old(store) || !HasParent(path)
      ensures status == 404 <==> path !in old(store) && HasParent(path) && Parent(path) !in old(store)
    {
      if path in store {
        return 400;
      }
      if LastSlash(path) < 0 {
        return 400;
      }
      var parent := Parent(path);
      if parent !in store {
        return 404;
      }
      var meta := store[parent];
      store := store[path := EMPTY_DIR];
      if meta.subdirs.None? {
        return 500;
      }
      meta := meta.(subdirs := Some(meta.subdirs.value + [path]));
      store := store[parent := meta];
      return 200;
    }

    method CreateFile(path: string) returns (status: int)
      modifies this
      ensures store == AfterCreateFile(old(store), path)
      ensures status in {200, 400, 404}
      ensures status == 200 <==> path in old(store) || Creates(old(store), path)
      ensures status == 400 <==> path !in old(store) && !HasParent(path)
    {
      if path in store {
        return 200;
      }
      if LastSlash(path) < 0 {
        return 400;
      }
      var parent := Parent(path);
      if parent !in store {
        return 404;
      }
      var meta := store[parent];
      meta := meta.(files := Some((if meta.files.Some? then meta.files.value else []) + [path]));
      store := store[path := NEW_FILE];
      store := store[parent := meta];
      return 200;
    }

    method DeletePath(path: string) returns (status: int)
      modifies this
      ensures store == AfterDelete(old(store), path)
      ensures status in {200, 404} && (status == 404 <==> path !in old(store))
    {
      var parent := if LastSlash(path) >= 0 then path[..LastSlash(path)] else path;
      if path !in store {
        return 404;
      }
      store := store - {path};
      if parent in store {
        var meta := store[parent];
        if IsTxt(path) && meta.files.Some? {
          meta := meta.(files := Some(Without(meta.files.value, path)));
        } else if !IsTxt(path) && meta.subdirs.Some? {
          meta := meta.(subdirs := Some(Without(meta.subdirs.value, path)));
        }
        store := store[parent := meta];
      }
      return 200;
    }
  }

  // ---------- what a well-formed store is ----------

  ghost predicate EntryOk(e: Entry) {
    if e.isDir
    then e.subdirs.Some? && e.files.Some? && NoDuplicates(e.subdirs.value) && NoDuplicates(e.files.value)
    else e.subdirs.None? && e.files.None?
  }

  predicate Lists(e: Entry, p: string, isDir: bool) {
    if isDir then e.subdirs.Some? && p in e.subdirs.value else e.files.Some? && p in e.files.value
  }

  // The parent of every entry but the root is a stored directory that lists it in the list
  // for its kind, once since lists have no duplicates.
  ghost predicate Placed(s: Store, p: string)
    requires p in s
  {
    p == ROOT ||
    (HasParent(p) && Parent(p) in s && s[Parent(p)].isDir && Lists(s[Parent(p)], p, s[p].isDir))
  }

  // Everything a directory lists is stored, of that kind, and has the directory as its parent.
  ghost predicate NothingMissing(s: Store, d: string)
    requires d in s
  {
    forall p, isDir | Lists(s[d], p, isDir) ::
      p in s && p != ROOT && s[p].isDir == isDir && HasParent(p) && Parent(p) == d
  }

  ghost predicate Tree(s: Store) {
    && ROOT in s && s[ROOT].isDir
    && (forall p {:trigger EntryOk(s[p])} | p in s :: EntryOk(s[p]))
    && (forall p {:trigger Placed(s, p)} | p in s :: Placed(s, p))
    && (forall d {:trigger NothingMissing(s, d)} | d in s :: NothingMissing(s, d))
  }

  // ---------- which requests keep it: exactly these ----------

  predicate Childless(e: Entry) {
    e.subdirs in {None, Some([])} && e.files in {None, Some([])}
  }

  predicate Keeps(s: Store, r: Request) {
    match r
    case CreateDirectory(path) => Creates(s, path) ==> s[Parent(path)].isDir
    case CreateFile(path) => Creates(s, path) ==> s[Parent(path)].isDir
    case Delete(path) => path in s ==> path != ROOT && Childless(s[path]) && IsTxt(path) == !s[path].isDir
  }

  // How creating and deleting change what an entry lists.
  lemma CreateLists(s: Store, path: string, isDir: bool, d: string, p: string, kind: bool)
    requires Tree(s) && Creates(s, path) && s[Parent(path)].isDir
    ensures var t := if isDir then AfterCreateDirectory(s, path) else AfterCreateFile(s, path);
            && (d in t <==> d in s || d == path)
            && (d in s ==> (Lists(t[d], p, kind) <==>
                            Lists(s[d], p, kind) || (d == Parent(path) && p == path && kind == isDir)))
            && !Lists(t[path], p, kind)
  {
    assert EntryOk(s[Parent(path)]);
  }

  lemma CreateKeepsEntry(s: Store, path: string, isDir: bool, p: string)
    requires Tree(s) && Creates(s, path) && s[Parent(path)].isDir && (p in s || p == path)
    ensures var t := if isDir then AfterCreateDirectory(s, path) else AfterCreateFile(s, path);
            p in t && EntryOk(t[p]) && (p in s ==> t[p].isDir == s[p].isDir) && (p == path ==> t[p].isDir == isDir)
  {
    assert EntryOk(s[Parent(path)]);
    assert !Lists(s[Parent(path)], path, isDir) by { assert NothingMissing(s, Parent(path)); }
    if p in s { assert EntryOk(s[p]); }
  }

  lemma CreateKeepsPlaced(s: Store, path: string, isDir: bool, p: string)
    requires Tree(s) && Creates(s, path) && s[Parent(path)].isDir && (p in s || p == path)
    ensures var t := if isDir then AfterCreateDirectory(s, path) else AfterCreateFile(s, path);
            p in t && Placed(t, p)
  {
    CreateKeepsEntry(s, path, isDir, p);
    if p in s { assert Placed(s, p); }
    if p != ROOT {
      CreateKeepsEntry(s, path, isDir, Parent(p));
      CreateLists(s, path, isDir, Parent(p), p, if p in s then s[p].isDir else isDir);
    }
  }

  lemma CreateKeepsTree(s: Store, path: string, isDir: bool)
    requires Tree(s)
    requires Creates(s, path) ==> s[Parent(path)].isDir
    ensures Tree(if isDir then AfterCreateDirectory(s, path) else AfterCreateFile(s, path))
  {
    if Creates(s, path) {
      var t := if isDir then AfterCreateDirectory(s, path) else AfterCreateFile(s, path);
      forall p | p in t
        ensures EntryOk(t[p]) && Placed(t, p)
      {
        CreateLists(s, path, isDir, p, p, true);
        CreateKeepsEntry(s, path, isDir, p);
        CreateKeepsPlaced(s, path, isDir, p);
      }
      forall d | d in t
        ensures NothingMissing(t, d)
      {
        forall p, kind | Lists(t[d], p, kind)
          ensures p in t && p != ROOT && t[p].isDir == kind && HasParent(p) && Parent(p) == d
        {
          CreateLists(s, path, isDir, d, p, kind);
          if d in s { assert NothingMissing(s, d); }
        }
      }
    }
  }

  lemma DeleteLists(s: Store, path: string, d: string, p: string, kind: bool)
    requires Tree(s) && path in s && path != ROOT && IsTxt(path) == !s[path].isDir
    ensures var t := AfterDelete(s, path);
            && (d in t <==> d in s && d != path)
            && (d in t ==> t[d].isDir == s[d].isDir && (Lists(t[d], p, kind) <==> Lists(s[d], p, kind) && p != path))
  {
    assert Placed(s, path);
    if d in s {
      assert NothingMissing(s, d);
      assert Lists(s[d], path, true) ==> d == Parent(path) && s[path].isDir;
      assert Lists(s[d], path, false) ==> d == Parent(path) && !s[path].isDir;
    }
  }

  lemma DeleteKeepsEntry(s: Store, path: string, p: string)
    requires path in s && p in s && p != path && EntryOk(s[p])
    ensures var t := AfterDelete(s, path); p in t && EntryOk(t[p])
  {}

  lemma NoneBelowChildless(s: Store, path: string, p: string)
    requires Tree(s) && path in s && Childless(s[path]) && p in s && p != ROOT
    ensures HasParent(p) && Parent(p) in s && Parent(p) != path
  {
    assert Placed(s, p);
  }

  lemma DeleteKeepsPlaced(s: Store, path: string, p: string)
    requires Tree(s) && path in s && Keeps(s, Delete(path)) && p in s && p != path
    ensures var t := AfterDelete(s, path); p in t && EntryOk(t[p]) && Placed(t, p)
  {
    assert EntryOk(s[p]) && Placed(s, p) && EntryOk(s[path]);
    DeleteKeepsEntry(s, path, p);
    DeleteLists(s, path, p, p, true);
    if p != ROOT {
      NoneBelowChildless(s, path, p);
      DeleteLists(s, path, Parent(p), p, s[p].isDir);
    }
    hide AfterDelete, Tree, EntryOk, Without, NoDuplicates;
  }

  lemma DeleteKeepsTree(s: Store, path: string)
    requires Tree(s) && Keeps(s, Delete(path))
    ensures Tree(AfterDelete(s, path))
  {
    if path in s {
      var t := AfterDelete(s, path);
      DeleteLists(s, path, ROOT, ROOT, true);
      forall p | p in t
        ensures EntryOk(t[p]) && Placed(t, p)
      {
        DeleteLists(s, path, p, p, true);
        DeleteKeepsPlaced(s, path, p);
      }
      forall d | d in t
        ensures NothingMissing(t, d)
      {
        forall p, kind | Lists(t[d], p, kind)
          ensures p in t && p != ROOT && t[p].isDir == kind && HasParent(p) && Parent(p) == d
        {
          DeleteLists(s, path, d, p, kind);
          DeleteLists(s, path, p, p, kind);
          assert NothingMissing(s, d);
        }
      }
    }
  }

  // Creating below a file leaves an entry whose parent is no directory.
  lemma CreateBelowFileBreaksTree(s: Store, path: string, isDir: bool)
    requires Tree(s) && Creates(s, path) && !s[Parent(path)].isDir
    ensures !Tree(if isDir then AfterCreateDirectory(s, path) else AfterCreateFile(s, path))
  {
    var t := if isDir then AfterCreateDirectory(s, path) else AfterCreateFile(s, path);
    assert !Placed(t, path);
  }

  // Deleting the root, a directory with children, or an entry whose name says the other kind
  // leaves an entry without parent or a listed path without entry.
  lemma BadDeleteBreaksTree(s: Store, path: string)
    requires Tree(s) && !Keeps(s, Delete(path))
    ensures !Tree(AfterDelete(s, path))
  {
    var t := AfterDelete(s, path);
    if path != ROOT {
      var e := s[path];
      assert EntryOk(e) && NothingMissing(s, path) && Placed(s, path);
      if !Childless(e) {
        var isDir := e.subdirs.value != [];
        var p := if isDir then e.subdirs.value[0] else e.files.value[0];
        assert Lists(e, p, isDir);
        assert !Placed(t, p);
      } else {
        assert Lists(t[Parent(path)], path, e.isDir);
        assert !NothingMissing(t, Parent(path));
      }
    }
  }

  // A request keeps the tree if and only if it creates below a directory, or deletes a file or
  // an empty directory other than the root whose name has the suffix of its kind.
  lemma KeptExactly(s: Store, r: Request)
    requires Tree(s)
    ensures Tree(Next(s, r)) <==> Keeps(s, r)
  {
    match r
    case CreateDirectory(path) =>
      if Keeps(s, r) { CreateKeepsTree(s, path, true); } else { CreateBelowFileBreaksTree(s, path, true); }
    case CreateFile(path) =>
      if Keeps(s, r) { CreateKeepsTree(s, path, false); } else { CreateBelowFileBreaksTree(s, path, false); }
    case Delete(path) =>
      if Keeps(s, r) { DeleteKeepsTree(s, path); } else { BadDeleteBreaksTree(s, path); }
  }

  // ---------- what a request does to a tree: the paths and their kinds say it all ----------

  // The stored paths and whether each is a directory.
  function Kinds(s: Store): map<string, bool> {
    map p | p in s :: s[p].isDir
  }

  // The same requests on paths and kinds alone.
  function NextKinds(kinds: map<string, bool>, r: Request): map<string, bool> {
    match r
    case Delete(path) => kinds - {path}
    case _ =>
      if r.path in kinds || !HasParent(r.path) || Parent(r.path) !in kinds then kinds
      else kinds[r.path := r.CreateDirectory?]
  }

  lemma KindsFollow(s: Store, r: Request)
    ensures Kinds(Next(s, r)) == NextKinds(Kinds(s), r)
  {
    var t := Next(s, r);
    assert t.Keys == NextKinds(Kinds(s), r).Keys;
    forall p | p in t
      ensures t[p].isDir == NextKinds(Kinds(s), r)[p]
    {
      KindsStay(s, r, p);
    }
  }

  // In a tree the lists of a directory are determined by the paths: it lists exactly the entries
  // whose parent it is, each in the list of its kind and once.
  lemma ListsAreChildren(s: Store, d: string, p: string)
    requires Tree(s) && d in s && s[d].isDir
    ensures EntryOk(s[d])
    ensures forall isDir :: Lists(s[d], p, isDir) <==>
              p in s && p != ROOT && HasParent(p) && Parent(p) == d && s[p].isDir == isDir
  {
    assert EntryOk(s[d]) && NothingMissing(s, d);
    if p in s { assert Placed(s, p); }
  }

  // ---------- every entry is reachable ----------

  ghost predicate Chain(s: Store, chain: seq<string>, p: string) {
    && chain != [] && chain[0] == ROOT && chain[|chain| - 1] == p
    && (forall q | q in chain :: q in s)
    && (forall i | 0 < i < |chain| :: Lists(s[chain[i - 1]], chain[i], s[chain[i]].isDir))
  }

  lemma {:induction false} EveryEntryIsReachable(s: Store, p: string) returns (chain: seq<string>)
    requires Tree(s) && p in s
    ensures Chain(s, chain, p)
    decreases |p|
  {
    if p == ROOT {
      chain := [ROOT];
    } else {
      assert Placed(s, p);
      var up := EveryEntryIsReachable(s, Parent(p));
      chain := up + [p];
      assert forall q | q in chain :: q in s;
    }
  }

  // ---------- runs ----------

  // Directories never have the file suffix, files always do, nothing is asked for below a file
  // name, and only files and empty directories other than the root are deleted.
  predicate Disciplined(s: Store, r: Request) {
    match r
    case CreateDirectory(path) => !IsTxt(path) && (HasParent(path) ==> !IsTxt(Parent(path)))
    case CreateFile(path) => IsTxt(path) && (HasParent(path) ==> !IsTxt(Parent(path)))
    case Delete(path) => path in s ==> path != ROOT && Childless(s[path])
  }

  ghost predicate NamedByKind(s: Store) {
    forall p | p in s :: IsTxt(p) == !s[p].isDir
  }

  predicate AllDisciplined(s: Store, run: seq<Request>)
    decreases |run|
  {
    run == [] || (Disciplined(s, run[0]) && AllDisciplined(Next(s, run[0]), run[1..]))
  }

  function After(s: Store, run: seq<Request>): Store
    decreases |run|
  {
    if run == [] then s else After(Next(s, run[0]), run[1..])
  }

  // A request changes no kinds and adds at most the path it names.
  lemma KindsStay(s: Store, r: Request, p: string)
    requires p in Next(s, r)
    ensures p in s ==> Next(s, r)[p].isDir == s[p].isDir
    ensures p !in s ==> !r.Delete? && p == r.path && Next(s, r)[p].isDir == r.CreateDirectory?
  {
    match r
    case CreateDirectory(path) => assert p in AfterCreateDirectory(s, path);
    case CreateFile(path) => assert p in AfterCreateFile(s, path);
    case Delete(path) => assert p in AfterDelete(s, path);
  }

  lemma DisciplinedKeepsNames(s: Store, r: Request)
    requires NamedByKind(s) && Disciplined(s, r)
    ensures NamedByKind(Next(s, r)) && Keeps(s, r)
  {
    forall p | p in Next(s, r)
      ensures IsTxt(p) == !Next(s, r)[p].isDir
    {
      KindsStay(s, r, p);
    }
  }

  lemma {:induction false} RunKeepsTree(s: Store, run: seq<Request>)
    requires Tree(s) && NamedByKind(s) && AllDisciplined(s, run)
    ensures Tree(After(s, run)) && NamedByKind(After(s, run))
    decreases |run|
  {
    if run != [] {
      DisciplinedKeepsNames(s, run[0]);
      KeptExactly(s, run[0]);
      RunKeepsTree(Next(s, run[0]), run[1..]);
    }
  }

  function KindsAfter(kinds: map<string, bool>, run: seq<Request>): map<string, bool>
    decreases |run|
  {
    if run == [] then kinds else KindsAfter(NextKinds(kinds, run[0]), run[1..])
  }

  lemma {:induction false} KindsFollowRun(s: Store, run: seq<Request>)
    ensures Kinds(After(s, run)) == KindsAfter(Kinds(s), run)
    decreases |run|
  {
    if run != [] {
      KindsFollow(s, run[0]);
      KindsFollowRun(Next(s, run[0]), run[1..]);
    }
  }

  // From the signup root, after every disciplined run: what is stored is what the requests created
  // and did not delete since, and each directory lists exactly its children.
  lemma EveryRunListsChildren(run: seq<Request>, d: string, p: string)
    requires AllDisciplined(map[ROOT := EMPTY_DIR], run)
    ensures var s, kinds := After(map[ROOT := EMPTY_DIR], run), KindsAfter(map[ROOT := true], run);
            && (p in s <==> p in kinds) && (p in s ==> s[p].isDir == kinds[p])
            && (d in s && s[d].isDir ==>
                  forall isDir :: Lists(s[d], p, isDir) <==>
                    p in kinds && p != ROOT && HasParent(p) && Parent(p) == d && kinds[p] == isDir)
  {
    var start := map[ROOT := EMPTY_DIR];
    assert NamedByKind(start) && Kinds(start) == map[ROOT := true];
    RunKeepsTree(start, run);
    KindsFollowRun(start, run);
    hide *;
    var s := After(start, run);
    KindsAt(s, d);
    KindsAt(s, p);
    if d in s && s[d].isDir { ListsAreChildren(s, d, p); }
  }

  lemma KindsAt(s: Store, p: string)
    ensures p in s <==> p in Kinds(s)
    ensures p in s ==> Kinds(s)[p] == s[p].isDir
  {}

  // The input of the finding on suffixes: a directory named like a file stays listed when deleted.
  lemma DeletedDirectoryStaysListed()
    ensures var path := ROOT + "/notes.txt"; var start := map[ROOT := EMPTY_DIR];
            var s := After(start, [CreateDirectory(path), Delete(path)]);
            path !in s && ROOT in s && Lists(s[ROOT], path, true)
  {
    var path, start := ROOT + "/notes.txt", map[ROOT := EMPTY_DIR];
    var run := [CreateDirectory(path), Delete(path)];
    assert run[1..] == [Delete(path)] && [Delete(path)][1..] == [];
    assert path == Child(ROOT, "notes.txt");
    ParentOfChild(ROOT, "notes.txt");
    var s := AfterCreateDirectory(start, path);
    assert [] + [path] == [path];
    assert Creates(start, path) && Parent(path) == ROOT && path != ROOT;
    assert s[ROOT].subdirs == Some([path]);
    assert IsTxt(path) by { assert path[|path| - 4..] == ".txt"; }
    var t := AfterDelete(s, path);
    assert After(t, []) == t;
  }

  // From the signup root, every disciplined run keeps a tree with every entry reachable.
  lemma EveryRunIsATree(run: seq<Request>, p: string) returns (chain: seq<string>)
    requires AllDisciplined(map[ROOT := EMPTY_DIR], run)
    requires p in After(map[ROOT := EMPTY_DIR], run)
    ensures Tree(After(map[ROOT := EMPTY_DIR], run))
    ensures Chain(After(map[ROOT := EMPTY_DIR], run), chain, p)
  {
    assert NamedByKind(map[ROOT := EMPTY_DIR]);
    RunKeepsTree(map[ROOT := EMPTY_DIR], run);
    chain := EveryEntryIsReachable(After(map[ROOT := EMPTY_DIR], run), p);
  }
}
