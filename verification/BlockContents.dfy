// What the block store holds after any run of PUTs, told from the requests alone: each key is a
// document with a count of the writes to it.
module BlockContents {
  import opened Wrappers
  import opened NodeSpec
  import opened Decimal
  import opened BlockServer

  // How many PUTs of a key were accepted since it was last deleted, and the data of the last one.
  datatype Document = Document(writes: nat, data: string)

  // The version a writer has to quote.
  predicate Current(doc: Option<Document>, version: string) {
    match doc
    case None => version == "0"
    case Some(d) => Int(version) == Some(d.writes)
  }

  function KnownAfter(doc: Option<Document>, e: Event, key: string): Option<Document> {
    match e.request
    case Remove(removed) => if e.accepted && removed == key then None else doc
    case Write(path, user, version, data) =>
      if e.accepted && user.Some? && user.value + ":" + path == key && Current(doc, version)
      then Some(Document(1 + if doc.Some? then doc.value.writes else 0, data))
      else doc
  }

  function Known(run: seq<Event>, key: string): Option<Document> {
    if run == [] then None else var k := |run| - 1; KnownAfter(Known(run[..k], key), run[k], key)
  }

  ghost predicate Stores(db: map<string, Value>, key: string, doc: Option<Document>) {
    match doc
    case None => key in db ==> db[key] == Tombstone
    case Some(d) => d.writes > 0 && key in db && db[key] == Value.Doc(Str(d.writes), d.data)
  }

  // What a reply to a PUT says, in terms of the documents.
  ghost predicate Decides(d: Decision, doc: Option<Document>, r: Request) {
    match r
    case Remove(key) => d == Store(Payload(key, Tombstone), "Deletion failed")
    case Write(path, user, version, data) =>
      if user.None? then d == Refuse(Fail("Invalid token"))
      else if Current(doc, version) then
        && d.Store? && d.payload.key == user.value + ":" + path
        && d.payload.value == Value.Doc(Str(1 + if doc.Some? then doc.value.writes else 0), data)
        && d.failure == if doc.Some? then "Update failed" else "Creation failed"
      else if doc.Some? && Int(version).None? then d == Refuse(ServerError)
      else d == Refuse(Fail("Version mismatch"))
  }

  lemma DecidesByDocument(db: map<string, Value>, r: Request, doc: Option<Document>)
    requires r.Write? && r.user.Some? ==> Stores(db, r.user.value + ":" + r.path, doc)
    ensures Decides(Decide(db, r), doc, r)
  {
    if doc.Some? { IntOfStr(doc.value.writes); }
    assert Str(1) == "1";
    hide Int, Str;
  }

  lemma PutStores(db: map<string, Value>, e: Event, key: string, doc: Option<Document>)
    requires Stores(db, key, doc)
    ensures Stores(Put(db, e.request, e.accepted), key, KnownAfter(doc, e, key))
  {
    hide Int, Str, Decide;
    if e.request.Write? && e.request.user.Some? && e.request.user.value + ":" + e.request.path != key {
      OtherKeyStays(db, e.request, e.accepted, key);
    } else {
      DecidesByDocument(db, e.request, doc);
    }
  }

  // A PUT changes the key it names and no other.
  lemma OtherKeyStays(db: map<string, Value>, r: Request, accepted: bool, key: string)
    requires match r
             case Remove(removed) => removed != key
             case Write(path, user, _, _) => user.Some? ==> user.value + ":" + path != key
    ensures var t := Put(db, r, accepted);
            (key in t <==> key in db) && (key in t ==> t[key] == db[key])
  {}

  // After every run the data of a key is that of its last accepted PUT since it was last deleted,
  // under the number of these PUTs as version; without one there is nothing or a deletion mark.
  lemma {:induction false} EveryRunStores(run: seq<Event>, key: string)
    ensures Stores(After(run), key, Known(run, key))
  {
    if run != [] {
      var k := |run| - 1;
      EveryRunStores(run[..k], key);
      PutStores(After(run[..k]), run[k], key, Known(run[..k], key));
    }
  }

  // After every run a PUT is decided on by the document of the key it names.
  lemma EveryRunDecides(run: seq<Event>, r: Request)
    ensures Decides(Decide(After(run), r),
                    if r.Write? && r.user.Some? then Known(run, r.user.value + ":" + r.path) else None, r)
  {
    if r.Write? && r.user.Some? { EveryRunStores(run, r.user.value + ":" + r.path); }
    DecidesByDocument(After(run), r,
                      if r.Write? && r.user.Some? then Known(run, r.user.value + ":" + r.path) else None);
  }

  // Two users share a key for some of their paths exactly if one is the other followed by a colon
  // and more.
  lemma SharedKeyExactly(u: string, v: string)
    requires u != v
    ensures (exists p, q :: KeyOf(u, p) == KeyOf(v, q)) <==> u + ":" <= v || v + ":" <= u
  {
    if p, q :| KeyOf(u, p) == KeyOf(v, q) {
      if |u| < |v| { KeysShowPrefix(u, p, v, q); }
      if |v| < |u| { KeysShowPrefix(v, q, u, p); }
      assert u == KeyOf(u, p)[..|u|] && v == KeyOf(v, q)[..|v|];
    }
    if u + ":" <= v { LongerUserShares(u, v); }
    if v + ":" <= u { LongerUserShares(v, u); }
  }

  lemma KeysShowPrefix(u: string, p: string, v: string, q: string)
    requires KeyOf(u, p) == KeyOf(v, q) && |u| < |v|
    ensures u + ":" <= v
  {
    var key := KeyOf(u, p);
    assert u + ":" == key[..|u| + 1] && v == key[..|v|];
  }

  lemma LongerUserShares(u: string, v: string)
    requires u + ":" <= v
    ensures KeyOf(u, v[|u| + 1..] + ":") == KeyOf(v, "")
  {
    assert v == u + ":" + v[|u| + 1..];
  }
}
