// The versioned PUT of `server.py` on top of a replica.
module BlockServer {
  import opened Wrappers
  import opened NodeSpec
  import opened NodeImpl
  import opened Decimal

  // A PUT body.  `user` is what the token check returned; the value is already decoded.
  datatype Request =
    | Remove(key: string)
    | Write(path: string, user: Option<string>, version: string, data: string)

  datatype Reply =
    | Success(payload: Payload)
    | Fail(message: string)
    | Redirect(to: Addr)
    | BareFail
    | ServerError

  // What is settled before the replica is asked: a refusal, or a payload to store.
  datatype Decision = Refuse(reply: Reply) | Store(payload: Payload, failure: string)

  function KeyOf(user: string, path: string): string {
    user + ":" + path
  }

  predicate Missing(db: map<string, Value>, key: string) {
    key !in db || db[key] == Tombstone
  }

  function Decide(db: map<string, Value>, r: Request): Decision {
    match r
    case Remove(key) => Store(Payload(key, Tombstone), "Deletion failed")
    case Write(path, user, version, data) =>
      if user.None? then Refuse(Fail("Invalid token"))
      else
        var key := KeyOf(user.value, path);
        if Missing(db, key) then
          if version != "0" then Refuse(Fail("Version mismatch"))
          else Store(Payload(key, Doc(StrInt(1), data)), "Creation failed")
        else
          var have := Int(db[key].version);
          var quoted := Int(version);
          if have.None? || quoted.None? then Refuse(ServerError)
          else if have != quoted then Refuse(Fail("Version mismatch"))
          else Store(Payload(key, Doc(StrInt(quoted.value + 1), data)), "Update failed")
  }

  // The database after one PUT; `accepted` is what `handle_put` would return.
  function Put(db: map<string, Value>, r: Request, accepted: bool): map<string, Value> {
    var d := Decide(db, r);
    if d.Store? && accepted then db[d.payload.key := d.payload.value] else db
  }

  class Server {
    const n: Node

    constructor (n: Node)
      ensures this.n == n
    {
      this.n := n;
    }

    // `seen` is what the replica sees of its confirmations while it waits.
    method ValuePut(r: Request, seen: nat -> seq<bool>) returns (reply: Reply)
      requires n.Valid()
      modifies n
      ensures n.Valid()
      ensures old(n.status) == Leader ==>
                var accepted := exists k: nat :: k <= LAST_POLL && CountTrue(seen(k)) + 1 >= n.majority;
                && n.DB == Put(old(n.DB), r, accepted)
                && reply == (match Decide(old(n.DB), r)
                             case Refuse(why) => why
                             case Store(p, failure) => if accepted then Success(p) else Fail(failure))
      ensures old(n.status) != Leader ==> n.State() == old(n.State())
      ensures old(n.status) == Follower ==>
                reply == if n.leader.Some? then Redirect(n.leader.value) else ServerError
      ensures old(n.status) == Candidate ==> reply == BareFail
    {
      if n.status == Leader {
        if r.Remove? {
          reply := StorePayload(Payload(r.key, Tombstone), "Deletion failed", seen);
          return;
        }
        if r.user.None? {
          return Fail("Invalid token");
        }
        var key := KeyOf(r.user.value, r.path);
        if key !in n.DB || n.DB[key] == Tombstone {
          if r.version != "0" {
            return Fail("Version mismatch");
          }
          reply := StorePayload(Payload(key, Doc(StrInt(0 + 1), r.data)), "Creation failed", seen);
        } else {
          var existing := Int(n.DB[key].version);
          var quoted := Int(r.version);
          if existing.None? || quoted.None? {
            return ServerError;
          }
          if existing.value != quoted.value {
            return Fail("Version mismatch");
          }
          reply := StorePayload(Payload(key, Doc(StrInt(quoted.value + 1), r.data)), "Update failed", seen);
        }
      } else if n.status == Follower {
        return if n.leader.Some? then Redirect(n.leader.value) else ServerError;
      } else {
        return BareFail;
      }
    }

    method StorePayload(p: Payload, failure: string, seen: nat -> seq<bool>) returns (reply: Reply)
      requires n.Valid()
      modifies n
      ensures n.Valid()
      ensures var accepted := exists k: nat :: k <= LAST_POLL && CountTrue(seen(k)) + 1 >= n.majority;
              && n.DB == (if accepted then old(n.DB)[p.key := p.value] else old(n.DB))
              && reply == (if accepted then Success(p) else Fail(failure))
    {
      var result, messages := n.HandlePut(p, seen);
      reply := if result then Success(p) else Fail(failure);
    }
  }

  // ---------- runs of PUTs, one at a time ----------

  datatype Event = Event(request: Request, accepted: bool)

  function After(run: seq<Event>): map<string, Value> {
    if run == [] then map[]
    else var k := |run| - 1; Put(After(run[..k]), run[k].request, run[k].accepted)
  }

  // The version an accepted PUT quoted and the version it stored.
  datatype Bump = Bump(quoted: string, stored: string)

  // The accepted PUTs of a key since its last accepted deletion, oldest first.
  function Bumps(run: seq<Event>, key: string): seq<Bump> {
    if run == [] then []
    else
      var k := |run| - 1;
      BumpsAfter(After(run[..k]), run[k], key, Bumps(run[..k], key))
  }

  function BumpsAfter(s: map<string, Value>, e: Event, key: string, before: seq<Bump>): seq<Bump> {
    var d := Decide(s, e.request);
    if !e.accepted || d.Refuse? || d.payload.key != key then before
    else if d.payload.value == Tombstone then []
    else before + [Bump(e.request.version, d.payload.value.version)]
  }

  ghost predicate CountsUp(bumps: seq<Bump>) {
    forall i: nat | i < |bumps| :: Int(bumps[i].quoted) == Some(i) && bumps[i].stored == Str(i + 1)
  }

  // The stored version of a key is the number of its accepted PUTs.
  ghost predicate CountedBy(s: map<string, Value>, key: string, bumps: seq<Bump>) {
    && CountsUp(bumps)
    && (Missing(s, key) <==> bumps == [])
    && (!Missing(s, key) ==> s[key].version == Str(|bumps|))
  }

  lemma ZeroIsPrinted()
    ensures Str(0) == "0" && Int("0") == Some(0)
  {
    IntOfStr(0);
  }

  // A write that is to be stored quotes that number and stores the next one.
  lemma StoredVersion(s: map<string, Value>, r: Request, bumps: seq<Bump>)
    requires Decide(s, r).Store? && r.Write? && CountedBy(s, Decide(s, r).payload.key, bumps)
    ensures Int(r.version) == Some(|bumps|)
    ensures Decide(s, r).payload.value.Doc? && Decide(s, r).payload.value.version == Str(|bumps| + 1)
  {
    hide KeyOf, Int, Str;
    ZeroIsPrinted();
    IntOfStr(|bumps|);
  }

  lemma PutKeepsCount(s: map<string, Value>, e: Event, key: string, bumps: seq<Bump>)
    requires CountedBy(s, key, bumps)
    ensures CountedBy(Put(s, e.request, e.accepted), key, BumpsAfter(s, e, key, bumps))
  {
    hide KeyOf, Int, Str;
    var d := Decide(s, e.request);
    if d.Store? && d.payload.key == key {
      if e.request.Write? { StoredVersion(s, e.request, bumps); }
    }
    assert e.request.Remove? ==> d.Store? && d.payload.value == Tombstone;
    hide Decide;
  }

  // Between deletions of a key the accepted PUTs quote 0, 1, 2, ... and store 1, 2, 3, ...,
  // and the stored version is the number of them.
  lemma {:induction false} VersionsCountUp(run: seq<Event>, key: string)
    ensures CountsUp(Bumps(run, key))
    ensures Missing(After(run), key) <==> Bumps(run, key) == []
    ensures !Missing(After(run), key) ==> After(run)[key].version == Str(|Bumps(run, key)|)
  {
    if run != [] {
      var k := |run| - 1;
      VersionsCountUp(run[..k], key);
      PutKeepsCount(After(run[..k]), run[k], key, Bumps(run[..k], key));
      hide Put, BumpsAfter, Str;
    }
  }

  // So no base version is accepted twice between deletions.
  lemma BaseVersionsAreUsedOnce(run: seq<Event>, key: string, i: nat, j: nat)
    requires i < |Bumps(run, key)| && j < |Bumps(run, key)|
    requires Int(Bumps(run, key)[i].quoted) == Int(Bumps(run, key)[j].quoted)
    ensures i == j
  {
    VersionsCountUp(run, key);
    assert Int(Bumps(run, key)[i].quoted) == Some(i as int);
    assert Int(Bumps(run, key)[j].quoted) == Some(j as int);
  }

  // A writer that quotes the current version of an existing file is decided on by that alone:
  // the PUT is stored exactly when the version it quotes is the number of accepted PUTs.
  lemma {:induction false} AcceptedExactlyAtCurrentVersion(run: seq<Event>, path: string, user: string,
                                                           version: string, data: string)
    ensures var key := KeyOf(user, path);
            var d := Decide(After(run), Write(path, Some(user), version, data));
            var n := |Bumps(run, key)|;
            d.Store? <==> (if n == 0 then version == "0" else Int(version) == Some(n))
  {
    VersionsCountUp(run, KeyOf(user, path));
    IntOfStr(|Bumps(run, KeyOf(user, path))|);
  }

  // Across a deletion version 0 is accepted again.
  lemma {:induction false} DeletionStartsOver(path: string, user: string, a: string, b: string)
    ensures var write := (d: string) => Event(Write(path, Some(user), "0", d), true);
            var run := [write(a), Event(Remove(KeyOf(user, path)), true), write(b)];
            && Bumps(run[..1], KeyOf(user, path)) == [Bump("0", "1")]
            && Bumps(run, KeyOf(user, path)) == [Bump("0", "1")]
  {
    var write := (d: string) => Event(Write(path, Some(user), "0", d), true);
    var run := [write(a), Event(Remove(KeyOf(user, path)), true), write(b)];
    assert run[..2][..1] == run[..1] && run[..1][..0] == [];
    assert Str(1) == "1";
    assert Bumps(run[..1], KeyOf(user, path)) == [Bump("0", "1")];
    assert Bumps(run[..2], KeyOf(user, path)) == [];
  }
}
