// When a cleaner pass changes no answer, and when it does.
module CacheCleaner {
  import opened Wrappers
  import opened CacheSpec
  import opened CacheRuns

  // The answers to the gets of a run, in order.
  function Replies(s: State, c: Config, run: seq<Event>): seq<seq<string>>
    decreases |run|
  {
    if run == [] then []
    else
      (if run[0].op.GetOp? then [Answer(s, run[0].op.key, run[0].now)] else []) +
      Replies(Step(s, c, run[0]), c, run[1..])
  }

  ghost predicate NotBefore(now: int, run: seq<Event>) {
    forall e | e in run :: e.now >= now
  }

  // ---------- continuations without evictions ----------

  // A set that is refused, or finds room without evicting anything.
  predicate FindsRoom(s: State, c: Config, e: Event) {
    e.op.SetOp? ==>
      var need := EntrySize(e.op.key, e.op.value);
      need > c.maxSize || DropAll(s, {e.op.key}).size + need <= c.maxSize
  }

  predicate NeverEvicts(s: State, c: Config, run: seq<Event>)
    decreases |run|
  {
    run == [] || (FindsRoom(s, c, run[0]) && NeverEvicts(Step(s, c, run[0]), c, run[1..]))
  }

  // `t` is `s` without some entries that have expired by `now`.
  ghost predicate Swept(s: State, t: State, now: int) {
    && (forall k | k in t.entries :: k in s.entries && t.entries[k] == s.entries[k])
    && (forall k | k in s.entries && k !in t.entries :: now >= s.entries[k].expire)
  }

  // Fewer keys are not larger together.
  lemma {:induction false} FewerAreSmaller(entries: map<string, Entry>, a: seq<string>, b: seq<string>)
    requires NoDuplicates(a) && NoDuplicates(b) && forall k | k in a :: k in b
    ensures TotalSize(entries, a) <= TotalSize(entries, b)
    decreases |a|
  {
    if a != [] {
      var last := |a| - 1;
      var rest := Sieve(b, {a[last]});
      TotalWithout(entries, b, a[last]);
      SieveIsSublist(b, {a[last]});
      forall k | k in a[..last]
        ensures k in rest
      {
        assert k in a;
        SieveMembers(b, {a[last]}, k);
      }
      FewerAreSmaller(entries, a[..last], rest);
    }
  }

  lemma SweptIsSmaller(s: State, t: State, c: Config, now: int)
    requires Valid(s, c) && Valid(t, c) && Swept(s, t, now)
    ensures t.size <= s.size
  {
    FewerAreSmaller(s.entries, t.lru, s.lru);
    TotalDependsOnKeys(s.entries, t.entries, t.lru);
  }

  lemma DropKeepsSwept(s: State, t: State, dead: set<string>, now: int)
    requires Swept(s, t, now)
    ensures Swept(DropAll(s, dead), DropAll(t, dead), now)
  {}

  // With room, inserting keeps everything.
  lemma InsertWithRoom(s: State, c: Config, key: string, e: Entry)
    requires Valid(s, c) && key !in s.entries && s.size + EntrySize(key, e.value) <= c.maxSize
    ensures Insert(s, c, key, e).entries == s.entries[key := e]
  {
    KeepAll(s, c);
  }

  lemma SetKeepsSwept(s: State, t: State, c: Config, e: Event, now: int)
    requires Valid(s, c) && Valid(t, c) && Swept(s, t, now) && e.op.SetOp? && FindsRoom(s, c, e)
    ensures Swept(Step(s, c, e), Step(t, c, e), now)
  {
    var key := e.op.key;
    var v, w := DropAll(s, {key}), DropAll(t, {key});
    DropKeepsValid(s, c, {key});
    DropKeepsValid(t, c, {key});
    DropKeepsSwept(s, t, {key}, now);
    SweptIsSmaller(v, w, c, now);
    if EntrySize(key, e.op.value) <= c.maxSize {
      var entry := Entry(e.op.value, e.now + Lifetime(c, e.op.ttl));
      InsertWithRoom(v, c, key, entry);
      InsertWithRoom(w, c, key, entry);
    }
  }

  lemma StepKeepsSwept(s: State, t: State, c: Config, e: Event, now: int)
    requires Valid(s, c) && Valid(t, c) && Swept(s, t, now) && FindsRoom(s, c, e) && e.now >= now
    ensures Swept(Step(s, c, e), Step(t, c, e), now)
  {
    if e.op.SetOp? { SetKeepsSwept(s, t, c, e, now); }
  }

  lemma {:induction false} SweptRepliesAlike(s: State, t: State, c: Config, now: int, run: seq<Event>)
    requires Valid(s, c) && Valid(t, c) && Swept(s, t, now)
    requires NotBefore(now, run) && NeverEvicts(s, c, run)
    ensures Replies(s, c, run) == Replies(t, c, run)
    decreases |run|
  {
    if run != [] {
      assert run[0] in run;
      StepKeepsSwept(s, t, c, run[0], now);
      StepKeepsValid(s, c, run[0]);
      StepKeepsValid(t, c, run[0]);
      SweptRepliesAlike(Step(s, c, run[0]), Step(t, c, run[0]), c, now, run[1..]);
    }
  }

  // After any run, a cleaner pass changes no answer of any later run of sets, gets and cleaner
  // passes in which no set evicts.
  lemma CleanerIsInvisible(c: Config, before: seq<Event>, now: int, later: seq<Event>)
    requires NotBefore(now, later) && NeverEvicts(After(c, before), c, later)
    ensures Replies(Clean(After(c, before), now), c, later) == Replies(After(c, before), c, later)
  {
    var s := After(c, before);
    RunKeepsValid(c, before);
    DropKeepsValid(s, c, Expired(s, now));
    SweptRepliesAlike(s, Clean(s, now), c, now, later);
  }

  // ---------- expired entries that are the least recently used ----------

  // `t` is `s` without `end`, the end of its list, all of which has expired by `now`.
  ghost predicate WithoutEnd(s: State, t: State, end: seq<string>, now: int) {
    && s.lru == t.lru + end
    && (forall k | k in t.entries :: k in s.entries && t.entries[k] == s.entries[k])
    && (forall k | k in end :: k in s.entries && now >= s.entries[k].expire)
  }

  lemma WithoutEndIsSwept(s: State, t: State, c: Config, end: seq<string>, now: int)
    requires Valid(s, c) && Valid(t, c) && WithoutEnd(s, t, end, now)
    ensures Swept(s, t, now) && forall k | k in end :: k !in t.entries
  {
    forall k | k in s.entries && k !in t.entries
      ensures k in end
    {
      assert k in s.lru && k !in t.lru;
    }
    forall k | k in end
      ensures k !in t.entries
    {
      var j :| 0 <= j < |end| && end[j] == k;
      assert s.lru[|t.lru| + j] == k;
      forall i | 0 <= i < |t.lru| ensures t.lru[i] != k { assert s.lru[i] == t.lru[i]; }
    }
  }

  lemma DropKeepsEnd(s: State, t: State, c: Config, end: seq<string>, now: int, dead: set<string>)
    requires Valid(s, c) && Valid(t, c) && WithoutEnd(s, t, end, now)
    ensures WithoutEnd(DropAll(s, dead), DropAll(t, dead), Sieve(end, dead), now)
  {
    SieveConcat(t.lru, end, dead);
    forall k | k in Sieve(end, dead)
      ensures k in end && k !in dead
    {
      SieveMembers(end, dead, k);
    }
  }

  // What fits of a list and its continuation is part of the continuation only if the list fits.
  lemma {:induction false} FittingOfConcat(entries: map<string, Entry>, a: seq<string>, b: seq<string>, room: int)
    requires room >= 0
    ensures TotalSize(entries, a) <= room ==>
              a <= Fitting(entries, a + b, room) <= a + b && Fitting(entries, a, room) == a
    ensures TotalSize(entries, a) > room ==> Fitting(entries, a + b, room) == Fitting(entries, a, room)
    decreases |b|
  {
    if b == [] {
      assert a + b == a;
    } else {
      var front := b[..|b| - 1];
      assert (a + b)[..|a + b| - 1] == a + front;
      FittingOfConcat(entries, a, front, room);
      TotalOfConcat(entries, a, b);
    }
  }

  lemma {:induction false} FittingDependsOnKeys(a: map<string, Entry>, b: map<string, Entry>,
                                                keys: seq<string>, room: int)
    requires forall k | k in keys :: StoredSize(a, k) == StoredSize(b, k)
    ensures Fitting(a, keys, room) == Fitting(b, keys, room)
    decreases |keys|
  {
    TotalDependsOnKeys(a, b, keys);
    if keys != [] { FittingDependsOnKeys(a, b, keys[..|keys| - 1], room); }
  }

  // The evictions of both keep the same keys of the list, and some of the end.
  lemma FittingKeepsEnd(s: State, t: State, end: seq<string>, now: int, room: int) returns (rest: seq<string>)
    requires WithoutEnd(s, t, end, now) && room >= 0
    requires forall k | k in t.lru :: k in t.entries
    ensures Fitting(s.entries, s.lru, room) == Fitting(t.entries, t.lru, room) + rest
    ensures Fitting(t.entries, t.lru, room) <= t.lru && rest <= end
  {
    var kept, other := Fitting(s.entries, s.lru, room), Fitting(t.entries, t.lru, room);
    FittingOfConcat(s.entries, t.lru, end, room);
    FittingDependsOnKeys(s.entries, t.entries, t.lru, room);
    FittingFits(t.entries, t.lru, room);
    hide Fitting, TotalSize, EntrySize;
    rest := if TotalSize(s.entries, t.lru) <= room then kept[|t.lru|..] else [];
    assert kept == other + rest;
  }

  lemma PushKeepsEnd(s: State, t: State, end: seq<string>, now: int, kept: seq<string>, rest: seq<string>,
                     key: string, e: Entry, x: int, y: int)
    requires WithoutEnd(s, t, end, now) && key !in s.entries && rest <= end && kept <= t.lru
    requires forall k | k in t.lru :: k in t.entries
    ensures WithoutEnd(State(Kept(s, kept + rest).entries[key := e], [key] + (kept + rest), x),
                       State(Kept(t, kept).entries[key := e], [key] + kept, y), rest, now)
  {
    hide TotalSize;
    assert [key] + (kept + rest) == ([key] + kept) + rest;
    forall k | k in rest ensures k in end && k in kept + rest && k in s.entries && k != key {}
  }

  lemma InsertKeepsEnd(s: State, t: State, c: Config, end: seq<string>, now: int, key: string, e: Entry)
      returns (rest: seq<string>)
    requires WithoutEnd(s, t, end, now) && key !in s.entries && EntrySize(key, e.value) <= c.maxSize
    requires forall k | k in t.lru :: k in t.entries
    ensures WithoutEnd(Insert(s, c, key, e), Insert(t, c, key, e), rest, now)
  {
    var need := EntrySize(key, e.value);
    rest := FittingKeepsEnd(s, t, end, now, c.maxSize - need);
    hide WithoutEnd, Fitting, TotalSize, EntrySize, Kept;
    var kept := Fitting(t.entries, t.lru, c.maxSize - need);
    PushKeepsEnd(s, t, end, now, kept, rest, key, e,
                 Kept(s, kept + rest).size + need, Kept(t, kept).size + need);
  }

  lemma SetKeepsEnd(s: State, t: State, c: Config, end: seq<string>, now: int, e: Event) returns (rest: seq<string>)
    requires Valid(s, c) && Valid(t, c) && WithoutEnd(s, t, end, now) && e.op.SetOp?
    ensures WithoutEnd(Step(s, c, e), Step(t, c, e), rest, now)
  {
    var key := e.op.key;
    var v, w := DropAll(s, {key}), DropAll(t, {key});
    var entry := Entry(e.op.value, e.now + Lifetime(c, e.op.ttl));
    DropKeepsEnd(s, t, c, end, now, {key});
    DropKeepsValid(t, c, {key});
    SetInTwo(s, c, e);
    SetInTwo(t, c, e);
    rest := Sieve(end, {key});
    KeysAreKnown(w, c);
    hide *;
    if EntrySize(key, e.op.value) <= c.maxSize {
      rest := InsertKeepsEnd(v, w, c, rest, now, key, entry);
    }
  }

  lemma SetInTwo(s: State, c: Config, e: Event)
    requires e.op.SetOp?
    ensures var v := DropAll(s, {e.op.key});
            && e.op.key !in v.entries
            && Step(s, c, e) == if EntrySize(e.op.key, e.op.value) > c.maxSize then v
                                else Insert(v, c, e.op.key, Entry(e.op.value, e.now + Lifetime(c, e.op.ttl)))
  {}

  lemma KeysAreKnown(s: State, c: Config)
    requires Valid(s, c)
    ensures forall k | k in s.lru :: k in s.entries
  {}

  lemma GetInTwo(s: State, c: Config, key: string, at: int)
    requires Valid(s, c)
    ensures Get(s, key, at) == if Live(s, key, at) then s.(lru := [key] + Sieve(s.lru, {key})) else DropAll(s, {key})
  {
    if key !in s.entries { DropNothing(s, c, {key}); }
  }

  lemma FrontKeepsEnd(s: State, t: State, end: seq<string>, now: int, key: string)
    requires WithoutEnd(s, t, end, now)
    requires WithoutEnd(DropAll(s, {key}), DropAll(t, {key}), Sieve(end, {key}), now)
    ensures WithoutEnd(s.(lru := [key] + Sieve(s.lru, {key})), t.(lru := [key] + Sieve(t.lru, {key})),
                       Sieve(end, {key}), now)
  {
    hide Sieve, TotalSize;
    assert [key] + (Sieve(t.lru, {key}) + Sieve(end, {key})) == ([key] + Sieve(t.lru, {key})) + Sieve(end, {key});
  }

  lemma GetKeepsEnd(s: State, t: State, c: Config, end: seq<string>, now: int, e: Event) returns (rest: seq<string>)
    requires Valid(s, c) && Valid(t, c) && WithoutEnd(s, t, end, now) && e.op.GetOp? && e.now >= now
    ensures WithoutEnd(Step(s, c, e), Step(t, c, e), rest, now)
  {
    var key := e.op.key;
    WithoutEndIsSwept(s, t, c, end, now);
    assert Live(s, key, e.now) <==> Live(t, key, e.now);
    GetInTwo(s, c, key, e.now);
    GetInTwo(t, c, key, e.now);
    rest := Sieve(end, {key});
    hide WithoutEnd, Sieve, TotalSize, NoDuplicates, DropAll, Get, Live, Swept;
    DropKeepsEnd(s, t, c, end, now, {key});
    if Live(s, key, e.now) { FrontKeepsEnd(s, t, end, now, key); }
  }

  // Dropping keys a list does not have makes no difference.
  lemma {:induction false} SieveAgrees(keys: seq<string>, a: set<string>, b: set<string>)
    requires forall k | k in keys :: k in a <==> k in b
    ensures Sieve(keys, a) == Sieve(keys, b)
    decreases |keys|
  {
    if keys != [] { SieveAgrees(keys[..|keys| - 1], a, b); }
  }

  lemma CleanKeepsEnd(s: State, t: State, c: Config, end: seq<string>, now: int, at: int)
    requires Valid(s, c) && Valid(t, c) && WithoutEnd(s, t, end, now) && at >= now
    ensures WithoutEnd(Clean(s, at), Clean(t, at), Sieve(end, Expired(s, at)), now)
  {
    DropKeepsEnd(s, t, c, end, now, Expired(s, at));
    assert forall k | k in t.lru :: k in t.entries;
    SieveAgrees(t.lru, Expired(s, at), Expired(t, at));
    assert t.entries - Expired(s, at) == t.entries - Expired(t, at);
  }

  lemma StepKeepsEnd(s: State, t: State, c: Config, end: seq<string>, now: int, e: Event) returns (rest: seq<string>)
    requires Valid(s, c) && Valid(t, c) && WithoutEnd(s, t, end, now) && e.now >= now
    ensures WithoutEnd(Step(s, c, e), Step(t, c, e), rest, now)
  {
    match e.op
    case SetOp(_, _, _) => rest := SetKeepsEnd(s, t, c, end, now, e);
    case GetOp(_) => rest := GetKeepsEnd(s, t, c, end, now, e);
    case CleanOp =>
      rest := Sieve(end, Expired(s, e.now));
      CleanKeepsEnd(s, t, c, end, now, e.now);
  }

  lemma {:induction false} RepliesWithoutEnd(s: State, t: State, c: Config, end: seq<string>, now: int, run: seq<Event>)
    requires Valid(s, c) && Valid(t, c) && WithoutEnd(s, t, end, now) && NotBefore(now, run)
    ensures Replies(s, c, run) == Replies(t, c, run)
    decreases |run|
  {
    if run != [] {
      assert run[0] in run;
      WithoutEndIsSwept(s, t, c, end, now);
      var rest := StepKeepsEnd(s, t, c, end, now, run[0]);
      StepKeepsValid(s, c, run[0]);
      StepKeepsValid(t, c, run[0]);
      RepliesWithoutEnd(Step(s, c, run[0]), Step(t, c, run[0]), c, rest, now, run[1..]);
    }
  }

  // No entry that is still alive was used less recently than one that has expired.
  ghost predicate ExpiredLast(s: State, now: int) {
    forall i, j | 0 <= i < j < |s.lru| && s.lru[i] in Expired(s, now) :: s.lru[j] in Expired(s, now)
  }

  // After any run, if the expired entries are the least recently used ones, a cleaner pass
  // changes no answer of any later run at all.
  lemma CleanerIsInvisibleAtTheEnd(c: Config, before: seq<Event>, now: int, later: seq<Event>)
    requires NotBefore(now, later) && ExpiredLast(After(c, before), now)
    ensures Replies(Clean(After(c, before), now), c, later) == Replies(After(c, before), c, later)
  {
    var s := After(c, before);
    RunKeepsValid(c, before);
    var end := EndExpires(s, c, now);
    DropKeepsValid(s, c, Expired(s, now));
    RepliesWithoutEnd(s, Clean(s, now), c, end, now, later);
  }

  lemma SplitExpired(keys: seq<string>, dead: set<string>) returns (i: nat)
    requires forall i, j | 0 <= i < j < |keys| && keys[i] in dead :: keys[j] in dead
    ensures i <= |keys|
    ensures (forall k | k in keys[..i] :: k !in dead) && (forall k | k in keys[i..] :: k in dead)
  {
    i := 0;
    while i < |keys| && keys[i] !in dead
      invariant i <= |keys| && forall j | 0 <= j < i :: keys[j] !in dead
    {
      i := i + 1;
    }
  }

  lemma EndExpires(s: State, c: Config, now: int) returns (end: seq<string>)
    requires Valid(s, c) && ExpiredLast(s, now)
    ensures WithoutEnd(s, Clean(s, now), end, now)
  {
    var dead := Expired(s, now);
    var i := SplitExpired(s.lru, dead);
    var front := s.lru[..i];
    end := s.lru[i..];
    assert s.lru == front + end && front + [] == front;
    SieveConcat(front, end, dead);
    SieveNothing(front, dead);
    SieveAll(end, dead);
    hide Sieve, TotalSize, NoDuplicates;
    assert Clean(s, now).lru == front;
  }

  lemma {:induction false} SieveAll(keys: seq<string>, dead: set<string>)
    requires forall k | k in keys :: k in dead
    ensures Sieve(keys, dead) == []
    decreases |keys|
  {
    if keys != [] { SieveAll(keys[..|keys| - 1], dead); }
  }

  // ---------- otherwise a pass can be seen ----------

  // Of two prefixes of one list the larger one in size is longer.
  lemma LargerPrefixIsLonger(entries: map<string, Entry>, keys: seq<string>, a: seq<string>, b: seq<string>)
    requires NoDuplicates(keys) && a <= keys && b <= keys && TotalSize(entries, a) < TotalSize(entries, b)
    ensures a < b
  {
    if b <= a {
      assert forall k | k in b :: k in a;
      FewerAreSmaller(entries, b, a);
    } else {
      assert a == keys[..|a|] && b == keys[..|b|];
    }
  }

  lemma FittingReaches(entries: map<string, Entry>, keys: seq<string>, j: nat, room: int)
    requires NoDuplicates(keys) && j < |keys| && room >= 0
    ensures Fitting(entries, keys, room) <= keys
    ensures keys[j] in Fitting(entries, keys, room) <==> TotalSize(entries, keys[..j + 1]) <= room
  {
    var upTo, fit := keys[..j + 1], Fitting(entries, keys, room);
    FittingFits(entries, keys, room);
    FittingIsLongest(entries, keys, room);
    hide Fitting, TotalSize;
    KeyInPrefix(keys, fit, j);
    if TotalSize(entries, upTo) > room {
      LargerPrefixIsLonger(entries, keys, fit, upTo);
    } else {
      assert !(fit < upTo);
      assert fit == keys[..|fit|];
    }
  }

  lemma KeyInPrefix(keys: seq<string>, prefix: seq<string>, j: nat)
    requires NoDuplicates(keys) && prefix <= keys && j < |keys|
    ensures keys[j] in prefix <==> j < |prefix|
  {
    forall i | 0 <= i < |prefix| ensures prefix[i] == keys[j] <==> i == j { assert keys[i] == prefix[i]; }
  }

  // A key stays through a set exactly if the list up to it leaves room.
  lemma SetKeepsKey(s: State, c: Config, j: nat, key: string, value: seq<string>, ttl: int, now: int)
    requires Valid(s, c) && j < |s.lru| && key !in s.entries && EntrySize(key, value) <= c.maxSize
    ensures var t := Set(s, c, key, value, ttl, now);
            s.lru[j] in t.entries <==> TotalSize(s.entries, s.lru[..j + 1]) + EntrySize(key, value) <= c.maxSize
    ensures var t := Set(s, c, key, value, ttl, now);
            s.lru[j] in t.entries ==> s.lru[j] in s.entries && t.entries[s.lru[j]] == s.entries[s.lru[j]]
  {
    var e := Entry(value, now + Lifetime(c, ttl));
    var k, need := s.lru[j], EntrySize(key, value);
    FreshSet(s, c, key, value, ttl, now);
    assert k in s.entries && NoDuplicates(s.lru);
    hide *;
    FittingReaches(s.entries, s.lru, j, c.maxSize - need);
    InsertKeepsKey(s, c, k, key, e);
  }

  lemma FreshSet(s: State, c: Config, key: string, value: seq<string>, ttl: int, now: int)
    requires Valid(s, c) && key !in s.entries && EntrySize(key, value) <= c.maxSize
    ensures Set(s, c, key, value, ttl, now) == Insert(s, c, key, Entry(value, now + Lifetime(c, ttl)))
  {
    DropNothing(s, c, {key});
    hide DropAll, Insert, EntrySize;
  }

  lemma InsertKeepsKey(s: State, c: Config, k: string, key: string, e: Entry)
    requires k in s.entries && k != key
    ensures var t := Insert(s, c, key, e);
            && (k in t.entries <==> k in Fitting(s.entries, s.lru, c.maxSize - EntrySize(key, e.value)))
            && (k in t.entries ==> t.entries[k] == s.entries[k])
  {}

  // Where a live key stands after a pass: behind the live keys that were in front of it.
  lemma PassKeepsOrder(s: State, c: Config, now: int, j: nat) returns (i: nat)
    requires Valid(s, c) && j < |s.lru| && Live(s, s.lru[j], now)
    ensures var t := Clean(s, now); var ahead := Sieve(s.lru[..j + 1], Expired(s, now));
            && i < |t.lru| && t.lru[i] == s.lru[j] && t.lru[..i + 1] == ahead
            && TotalSize(t.entries, t.lru[..i + 1]) == TotalSize(s.entries, ahead)
  {
    var dead := Expired(s, now);
    var upTo, rest := s.lru[..j + 1], s.lru[j + 1..];
    assert s.lru == upTo + rest && upTo == s.lru[..j] + [s.lru[j]];
    SieveConcat(upTo, rest, dead);
    SieveSnoc(s.lru[..j], s.lru[j], dead);
    SieveTotals(s, dead, upTo);
    hide Sieve, TotalSize, NoDuplicates;
    i := |Sieve(s.lru[..j], dead)|;
    assert (Sieve(upTo, dead) + Sieve(rest, dead))[..i + 1] == Sieve(upTo, dead);
  }

  // If an expired entry with some size was used more recently than a live one, a pass can be
  // seen: a new entry whose size just fits beside the live keys up to there makes a get of the
  // live key answer its value after the pass, and nothing without it.
  lemma PassSavesAKey(s: State, c: Config, now: int, j: nat, key: string, value: seq<string>, ttl: int,
                      at: int, later: int)
    requires Valid(s, c) && j < |s.lru| && Live(s, s.lru[j], now) && Live(s, s.lru[j], later)
    requires key !in s.entries && EntrySize(key, value) <= c.maxSize
    requires TotalSize(s.entries, s.lru[..j + 1]) + EntrySize(key, value) > c.maxSize
    requires TotalSize(s.entries, Sieve(s.lru[..j + 1], Expired(s, now))) + EntrySize(key, value) <= c.maxSize
    ensures var run := [Event(SetOp(key, value, ttl), at), Event(GetOp(s.lru[j]), later)];
            && Replies(s, c, run) == [[]]
            && Replies(Clean(s, now), c, run) == [s.entries[s.lru[j]].value]
  {
    hide Sieve, TotalSize, EntrySize, NoDuplicates, Replies, Fitting, Insert;
    var k, t := s.lru[j], Clean(s, now);
    var set_, get := Event(SetOp(key, value, ttl), at), Event(GetOp(k), later);
    DropKeepsValid(s, c, Expired(s, now));
    SetKeepsKey(s, c, j, key, value, ttl, at);
    var i := PassKeepsOrder(s, c, now, j);
    assert t.entries[k] == s.entries[k];
    SetKeepsKey(t, c, i, key, value, ttl, at);
    TwoReplies(s, c, set_, get);
    TwoReplies(t, c, set_, get);
    hide Set, Sieve, TotalSize, Replies, EntrySize, Clean, NoDuplicates;
    assert Step(s, c, set_) == Set(s, c, key, value, ttl, at) && Step(t, c, set_) == Set(t, c, key, value, ttl, at);
  }

  lemma SieveTotals(s: State, dead: set<string>, keys: seq<string>)
    ensures TotalSize(s.entries - dead, Sieve(keys, dead)) == TotalSize(s.entries, Sieve(keys, dead))
  {
    forall k | k in Sieve(keys, dead) ensures k !in dead { SieveMembers(keys, dead, k); }
    TotalDependsOnKeys(s.entries - dead, s.entries, Sieve(keys, dead));
  }

  lemma TwoReplies(s: State, c: Config, a: Event, b: Event)
    requires a.op.SetOp? && b.op.GetOp?
    ensures Replies(s, c, [a, b]) == [Answer(Step(s, c, a), b.op.key, b.now)]
  {
    assert [a, b][1..] == [b] && [b][1..] == [];
    assert Replies(Step(Step(s, c, a), c, b), c, []) == [];
  }

  // ---------- the exact condition ----------

  // Taking out a dead key makes a list smaller by at least its size.
  lemma {:induction false} SieveLosesDead(entries: map<string, Entry>, keys: seq<string>, dead: set<string>, k: string)
    requires k in keys && k in dead
    ensures TotalSize(entries, Sieve(keys, dead)) + StoredSize(entries, k) <= TotalSize(entries, keys)
    decreases |keys|
  {
    var last := |keys| - 1;
    var front, rest := keys[..last], Sieve(keys[..last], dead);
    assert keys == front + [keys[last]];
    assert (rest + [keys[last]])[..|rest|] == rest;
    TotalOfSieve(entries, front, dead);
    if k in front { SieveLosesDead(entries, front, dead, k); }
  }

  lemma OneValue(key: string, size: nat, value: string)
    requires |key| + |value| == size
    ensures EntrySize(key, [value]) == size
  {
    assert ValueSize([]) == 0 && [value][..0] == [];
  }

  // An expired entry in front of a live one: the new entry that just fills the cache after a pass.
  lemma PassCanBeSeen(s: State, c: Config, now: int, i: nat, j: nat, key: string) returns (later: seq<Event>)
    requires Valid(s, c) && i < j < |s.lru| && s.lru[i] in Expired(s, now) && s.lru[j] !in Expired(s, now)
    requires |key| <= 1 && key !in s.entries
    requires s.lru[i] != "" && s.lru[j] != "" && s.entries[s.lru[j]].value != []
    ensures NotBefore(now, later) && Replies(Clean(s, now), c, later) != Replies(s, c, later)
  {
    var k, dead, upTo := s.lru[j], Expired(s, now), s.lru[..j + 1];
    var kept := TotalSize(s.entries, Sieve(upTo, dead));
    assert s.lru[i] == upTo[i] && s.lru[i] in upTo && k in s.entries;
    SieveLosesDead(s.entries, upTo, dead, s.lru[i]);
    assert StoredSize(s.entries, s.lru[i]) >= 1;
    PrefixFits(s, c, upTo);
    var need := c.maxSize - kept;
    var value := seq(need - |key|, _ => 'x');
    OneValue(key, need, value);
    later := [Event(SetOp(key, [value], 0), now), Event(GetOp(k), now)];
    hide *;
    assert NotBefore(now, later);
    PassSavesAKey(s, c, now, j, key, [value], 0, now, now);
  }

  lemma PrefixFits(s: State, c: Config, keys: seq<string>)
    requires Valid(s, c) && keys <= s.lru
    ensures TotalSize(s.entries, keys) <= c.maxSize
  {
    forall k | k in keys ensures k in s.lru {}
    FewerAreSmaller(s.entries, keys, s.lru);
  }

  ghost predicate PassIsInvisible(s: State, c: Config, now: int) {
    forall later | NotBefore(now, later) :: Replies(Clean(s, now), c, later) == Replies(s, c, later)
  }

  // After any run, a cleaner pass changes no answer of any later run if and only if no live entry
  // was used less recently than an expired one.  Entries have a name and a value; the continuation
  // that sees the pass sets any free name of at most one character, such as the empty one.
  lemma CleanerIsInvisibleExactly(c: Config, before: seq<Event>, now: int, key: string)
    requires |key| <= 1 && key !in After(c, before).entries
    requires var held := After(c, before).entries; forall k | k in held :: k != "" && held[k].value != []
    ensures PassIsInvisible(After(c, before), c, now) <==> ExpiredLast(After(c, before), now)
  {
    var s := After(c, before);
    RunKeepsValid(c, before);
    if ExpiredLast(s, now) {
      forall later | NotBefore(now, later)
        ensures Replies(Clean(s, now), c, later) == Replies(s, c, later)
      {
        CleanerIsInvisibleAtTheEnd(c, before, now, later);
      }
    } else {
      var i, j :| 0 <= i < j < |s.lru| && s.lru[i] in Expired(s, now) && s.lru[j] !in Expired(s, now);
      assert s.lru[i] in s.lru && s.lru[j] in s.lru;
      hide After, Replies, Clean;
      var later := PassCanBeSeen(s, c, now, i, j, key);
    }
  }

  // ---------- and such a state is reached ----------

  lemma SmallEntry(key: string, value: string)
    requires |key| == 1 && |value| == 1
    ensures EntrySize(key, [value]) == 2
  {
    assert ValueSize([]) == 0;
    assert [value][..0] == [];
  }

  lemma SetWithRoom(s: State, c: Config, key: string, value: seq<string>, ttl: int, now: int)
    requires Valid(s, c) && key !in s.entries && s.size + EntrySize(key, value) <= c.maxSize
    ensures Set(s, c, key, value, ttl, now) ==
            State(s.entries[key := Entry(value, now + Lifetime(c, ttl))], [key] + s.lru, s.size + EntrySize(key, value))
  {
    FreshSet(s, c, key, value, ttl, now);
    KeepAll(s, c);
  }

  // A set that finds room at the end of a run.
  lemma AfterOneSet(c: Config, run: seq<Event>, key: string, value: seq<string>, ttl: int, now: int)
    requires key !in After(c, run).entries && After(c, run).size + EntrySize(key, value) <= c.maxSize
    ensures var s := After(c, run); var t := After(c, run + [Event(SetOp(key, value, ttl), now)]);
            && t.entries == s.entries[key := Entry(value, now + Lifetime(c, ttl))]
            && t.lru == [key] + s.lru && t.size == s.size + EntrySize(key, value)
    ensures Valid(After(c, run + [Event(SetOp(key, value, ttl), now)]), c)
  {
    var e := Event(SetOp(key, value, ttl), now);
    assert (run + [e])[..|run|] == run;
    RunKeepsValid(c, run);
    RunKeepsValid(c, run + [e]);
    assert After(c, run + [e]) == Set(After(c, run), c, key, value, ttl, now);
    hide After, Set, EntrySize, Valid;
    SetWithRoom(After(c, run), c, key, value, ttl, now);
  }

  lemma TwoSetsAfter(c: Config, before: seq<Event>, x: string, y: string, v: string, w: string)
    requires c.maxSize == 4 && |x| == |y| == |v| == |w| == 1 && x != y
    requires After(c, before) == EMPTY
    ensures var run := before + [Event(SetOp(y, [w], 0), 0)] + [Event(SetOp(x, [v], 5), 0)];
            After(c, run) == SmallState(c, x, y, v, w) && Valid(After(c, run), c)
  {
    var first := Event(SetOp(y, [w], 0), 0);
    hide After, Set, EntrySize, Valid;
    assert [y] + [] == [y];
    SmallEntry(x, v);
    SmallEntry(y, w);
    AfterOneSet(c, before, y, [w], 0, 0);
    AfterOneSet(c, before + [first], x, [v], 5, 0);
  }

  // Two entries of size 2 fill a cache of size 4; the one set last, `x`, lives 5 ticks.
  lemma TwoSmallSets(c: Config, x: string, y: string, v: string, w: string)
    requires c.maxSize == 4 && |x| == |y| == |v| == |w| == 1 && x != y
    ensures var run := [Event(SetOp(y, [w], 0), 0)] + [Event(SetOp(x, [v], 5), 0)];
            After(c, run) == SmallState(c, x, y, v, w) && Valid(After(c, run), c)
  {
    assert After(c, []) == EMPTY;
    hide After, SmallState, Valid;
    assert [] + [Event(SetOp(y, [w], 0), 0)] == [Event(SetOp(y, [w], 0), 0)];
    TwoSetsAfter(c, [], x, y, v, w);
  }

  lemma SmallTotals(entries: map<string, Entry>, x: string, y: string)
    requires x != y && StoredSize(entries, x) == 2 && StoredSize(entries, y) == 2
    ensures TotalSize(entries, [x] + [y]) == 4 && TotalSize(entries, [y]) == 2
    ensures Sieve([x] + [y], {x}) == [y]
  {
    TotalOfConcat(entries, [x], [y]);
    TotalOfOne(entries, x);
    TotalOfOne(entries, y);
    SieveSnoc([x], y, {x});
    SieveSnoc([], x, {x});
    assert [] + [x] == [x] && [] + [y] == [y];
    assert Sieve([], {x}) == [];
  }

  // The state those two sets leave, at time 5.
  function SmallState(c: Config, x: string, y: string, v: string, w: string): State {
    State(map[y := Entry([w], c.ttl)][x := Entry([v], 5)], [x] + [y], 4)
  }

  lemma SmallStateAtFive(c: Config, x: string, y: string, v: string, w: string)
    requires |x| == |y| == |v| == |w| == 1 && x != y && c.ttl > 7
    ensures var s := SmallState(c, x, y, v, w);
            && s.entries.Keys == {x, y} && s.entries[y].value == [w]
            && Expired(s, 5) == {x} && Live(s, y, 5) && Live(s, y, 7)
            && |s.lru| == 2 && s.lru[..2] == [x] + [y] && s.lru[1] == y
            && TotalSize(s.entries, [x] + [y]) == 4 && TotalSize(s.entries, [y]) == 2
            && Sieve([x] + [y], {x}) == [y]
  {
    var s := SmallState(c, x, y, v, w);
    SmallEntry(x, v);
    SmallEntry(y, w);
    SmallTotals(s.entries, x, y);
    hide TotalSize, Sieve, EntrySize, ValueSize;
    assert Expired(s, 5) == {x};
  }

  // When `x` has expired, a set of `z` evicts the live `y`, but not after a pass: the get of `y`
  // that follows answers nothing without the pass, and the value with it.
  lemma PassChangesAnAnswer(c: Config, x: string, y: string, z: string, v: string, w: string, u: string)
    requires c.maxSize == 4 && c.ttl > 7 && x != y && y != z && x != z
    requires |x| == |y| == |z| == |v| == |w| == |u| == 1
    ensures var s := After(c, [Event(SetOp(y, [w], 0), 0)] + [Event(SetOp(x, [v], 5), 0)]);
            var later := [Event(SetOp(z, [u], 0), 6), Event(GetOp(y), 7)];
            Replies(s, c, later) == [[]] && Replies(Clean(s, 5), c, later) == [[w]]
  {
    var s := SmallState(c, x, y, v, w);
    hide *;
    TwoSmallSets(c, x, y, v, w);
    SmallStateAtFive(c, x, y, v, w);
    SmallEntry(z, u);
    PassSavesAKey(s, c, 5, 1, z, [u], 0, 6, 7);
  }
}
