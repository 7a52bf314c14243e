// The client's edits of stored directory lists: one file or directory added to, or removed from,
// the record of its parent.
module ListEdits {
  import opened Paths
  import opened Database

  datatype Edit =
    | AddFile(key: string)
    | RemoveFile(key: string)
    | AddDirectory(key: string)
    | RemoveDirectory(key: string)

  function Added(list: seq<string>, key: string): seq<string> {
    if key in list then list else list + [key]
  }

  // `std::remove` and `erase`: every occurrence goes.
  function Removed(list: seq<string>, key: string): (r: seq<string>)
    ensures forall k :: k in r <==> k in list && k != key
  {
    if list == [] then []
    else
      var last := |list| - 1;
      assert list == list[..last] + [list[last]];
      Removed(list[..last], key) + if list[last] == key then [] else [list[last]]
  }

  // The record of a directory after an edit.  A file record in its place is read as a directory
  // without lists, and overwritten only when the edit changes a list.
  function Edited(kv: map<string, Meta>, e: Edit): map<string, Meta> {
    if !HasParent(e.key) || Parent(e.key) !in kv then kv
    else
      var d := Parent(e.key);
      var files, directories := FilesOf(kv, d), DirectoriesOf(kv, d);
      match e
      case AddFile(k) => if k in files then kv else kv[d := DirMeta(Added(files, k), directories)]
      case RemoveFile(k) => if k !in files then kv else kv[d := DirMeta(Removed(files, k), directories)]
      case AddDirectory(k) => if k in directories then kv else kv[d := DirMeta(files, Added(directories, k))]
      case RemoveDirectory(k) => if k !in directories then kv else kv[d := DirMeta(files, Removed(directories, k))]
  }

  // All four functions: load the parent's record, edit one list, store it back.
  method Apply(db: Db, e: Edit) returns (ok: bool)
    modifies db
    ensures db.kv == Edited(old(db.kv), e)
    ensures ok <==> HasParent(e.key) && Parent(e.key) in old(db.kv)
  {
    if LastSlash(e.key) < 0 {
      return false;
    }
    var d := Parent(e.key);
    var found, files, directories := db.LoadDirectory(d);
    if !found {
      return false;
    }
    match e {
      case AddFile(k) =>
        if k !in files {
          files := files + [k];
          db.kv := db.kv[d := DirMeta(files, directories)];
        }
      case RemoveFile(k) =>
        if k in files {
          files := Removed(files, k);
          db.kv := db.kv[d := DirMeta(files, directories)];
        }
      case AddDirectory(k) =>
        if k !in directories {
          directories := directories + [k];
          db.kv := db.kv[d := DirMeta(files, directories)];
        }
      case RemoveDirectory(k) =>
        if k in directories {
          directories := Removed(directories, k);
          db.kv := db.kv[d := DirMeta(files, directories)];
        }
    }
    return true;
  }

  // What the lists of a stored parent name after an edit: the key is in, or out of, the list of its
  // kind, and nothing else changes in this record or any other.
  lemma EditedLists(kv: map<string, Meta>, e: Edit, d: string, p: string)
    ensures var t := Edited(kv, e);
            var hit := HasParent(e.key) && Parent(e.key) in kv && d == Parent(e.key) && p == e.key;
            && t.Keys == kv.Keys
            && (p in FilesOf(t, d) <==>
                if hit && e.AddFile? then true else if hit && e.RemoveFile? then false else p in FilesOf(kv, d))
            && (p in DirectoriesOf(t, d) <==>
                if hit && e.AddDirectory? then true else if hit && e.RemoveDirectory? then false
                else p in DirectoriesOf(kv, d))
    ensures d in kv && (HasParent(e.key) ==> d != Parent(e.key)) ==> Edited(kv, e)[d] == kv[d]
  {}

  // The names the lists of a directory have after any edits: that of the last edit of a key decides.
  ghost predicate Listed(listed: bool, edits: seq<Edit>, key: string, isFile: bool)
  {
    if edits == [] then listed
    else
      var last := |edits| - 1;
      match edits[last]
      case AddFile(k) => if isFile && k == key then true else Listed(listed, edits[..last], key, isFile)
      case RemoveFile(k) => if isFile && k == key then false else Listed(listed, edits[..last], key, isFile)
      case AddDirectory(k) => if !isFile && k == key then true else Listed(listed, edits[..last], key, isFile)
      case RemoveDirectory(k) => if !isFile && k == key then false else Listed(listed, edits[..last], key, isFile)
  }

  lemma KeyIsBelowParent(k: string)
    requires HasParent(k)
    ensures Below(Parent(k), k)
  {
    assert k[..|Parent(k)| + 1] == Parent(k) + "/";
  }

  lemma EditKeepsListsBelow(kv: map<string, Meta>, e: Edit)
    requires ListsBelow(kv)
    ensures ListsBelow(Edited(kv, e))
  {
    if HasParent(e.key) { KeyIsBelowParent(e.key); }
  }

  function After(kv: map<string, Meta>, edits: seq<Edit>): map<string, Meta> {
    if edits == [] then kv else Edited(After(kv, edits[..|edits| - 1]), edits[|edits| - 1])
  }

  // Whatever is added and removed, stored lists go on naming only paths below their directory,
  // which is what the first pass of booting needs.
  lemma {:induction false} EditsKeepListsBelow(kv: map<string, Meta>, edits: seq<Edit>)
    requires ListsBelow(kv)
    ensures ListsBelow(After(kv, edits))
  {
    if edits != [] {
      EditsKeepListsBelow(kv, edits[..|edits| - 1]);
      EditKeepsListsBelow(After(kv, edits[..|edits| - 1]), edits[|edits| - 1]);
    }
  }

  // After any edits a stored directory lists a key as its file, or as its directory, exactly if the
  // last such edit of that key added it, or there was none and it did so before.
  lemma {:induction false} LastEditDecides(kv: map<string, Meta>, edits: seq<Edit>, key: string)
    requires HasParent(key) && Parent(key) in kv
    ensures var t := After(kv, edits);
            && Parent(key) in t
            && (key in FilesOf(t, Parent(key)) <==> Listed(key in FilesOf(kv, Parent(key)), edits, key, true))
            && (key in DirectoriesOf(t, Parent(key)) <==>
                Listed(key in DirectoriesOf(kv, Parent(key)), edits, key, false))
  {
    if edits != [] {
      LastEditDecides(kv, edits[..|edits| - 1], key);
      EditedLists(After(kv, edits[..|edits| - 1]), edits[|edits| - 1], Parent(key), key);
      hide Edited;
    }
  }

  lemma {:induction false} RemovesNothing(list: seq<string>, key: string)
    requires key !in list
    ensures Removed(list, key) == list
    decreases |list|
  {
    if list != [] {
      var last := |list| - 1;
      RemovesNothing(list[..last], key);
      assert list == list[..last] + [list[last]];
    }
  }

  lemma RemovedFromEnd(list: seq<string>, key: string)
    requires key !in list
    ensures Removed(list, key) == list && Removed(list + [key], key) == list
  {
    assert (list + [key])[..|list|] == list;
    RemovesNothing(list, key);
  }

  // Writing a record back is no change exactly if it was a directory record.
  lemma StoringBack(kv: map<string, Meta>, d: string)
    requires d in kv
    ensures kv[d := DirMeta(FilesOf(kv, d), DirectoriesOf(kv, d))] == kv <==> kv[d].DirMeta?
  {
    var back := kv[d := DirMeta(FilesOf(kv, d), DirectoriesOf(kv, d))];
    assert back[d].DirMeta?;
    if kv[d].DirMeta? { assert back[d] == kv[d]; }
  }

  // Removing what was added restores the store exactly if the parent, when it is stored, holds a
  // directory record: a file record in its place stays overwritten.
  lemma RemoveUndoesAdd(kv: map<string, Meta>, k: string)
    requires HasParent(k) && k !in FilesOf(kv, Parent(k)) && k !in DirectoriesOf(kv, Parent(k))
    ensures Edited(Edited(kv, AddFile(k)), RemoveFile(k)) == kv <==> (Parent(k) in kv ==> kv[Parent(k)].DirMeta?)
    ensures Edited(Edited(kv, AddDirectory(k)), RemoveDirectory(k)) == kv <==>
              (Parent(k) in kv ==> kv[Parent(k)].DirMeta?)
  {
    hide Removed;
    var d := Parent(k);
    if d in kv {
      var files, directories := FilesOf(kv, d), DirectoriesOf(kv, d);
      StoringBack(kv, d);
      RemovedFromEnd(files, k);
      RemovedFromEnd(directories, k);
      var f, g := Edited(kv, AddFile(k)), Edited(kv, AddDirectory(k));
      assert f == kv[d := DirMeta(files + [k], directories)];
      assert g == kv[d := DirMeta(files, directories + [k])];
      assert Edited(f, RemoveFile(k)) == kv[d := DirMeta(files, directories)];
      assert Edited(g, RemoveDirectory(k)) == kv[d := DirMeta(files, directories)];
    }
  }
}
