// The endpoint cache as values: least-recently-used order, sizes and expiry times.
module CacheSpec {
  import opened Wrappers

  datatype Entry = Entry(value: seq<string>, expire: int)

  datatype State = State(entries: map<string, Entry>, lru: seq<string>, size: int)

  // Default time to live, and the largest total size.
  datatype Config = Config(ttl: int, maxSize: nat)

  const EMPTY := State(map[], [], 0)

  function ValueSize(value: seq<string>): nat {
    if value == [] then 0 else ValueSize(value[..|value| - 1]) + |value[|value| - 1]|
  }

  // All strings of a value, written one after another.
  function Joined(value: seq<string>): string {
    if value == [] then "" else value[0] + Joined(value[1..])
  }

  lemma {:induction false} JoinedSnoc(value: seq<string>, x: string)
    ensures Joined(value + [x]) == Joined(value) + x
  {
    if value == [] {
      assert [] + [x] == [x] && [x][1..] == [];
    } else {
      assert (value + [x])[1..] == value[1..] + [x];
      JoinedSnoc(value[1..], x);
    }
  }

  // The size of a value is the number of characters in all its strings.
  lemma {:induction false} SizeIsLength(value: seq<string>)
    ensures ValueSize(value) == |Joined(value)|
  {
    if value != [] {
      var last := |value| - 1;
      SizeIsLength(value[..last]);
      JoinedSnoc(value[..last], value[last]);
      assert value == value[..last] + [value[last]];
    }
  }

  function EntrySize(key: string, value: seq<string>): nat {
    |key| + ValueSize(value)
  }

  function StoredSize(entries: map<string, Entry>, key: string): nat {
    if key in entries then EntrySize(key, entries[key].value) else 0
  }

  function TotalSize(entries: map<string, Entry>, keys: seq<string>): nat {
    if keys == [] then 0
    else TotalSize(entries, keys[..|keys| - 1]) + StoredSize(entries, keys[|keys| - 1])
  }

  // List and map hold the same keys, once each, and the running size is their total.
  ghost predicate Valid(s: State, c: Config) {
    && NoDuplicates(s.lru)
    && (forall k :: k in s.lru <==> k in s.entries)
    && s.size == TotalSize(s.entries, s.lru) <= c.maxSize
  }

  // The list without the keys in `dead`, in the same order.
  function Sieve(keys: seq<string>, dead: set<string>): seq<string> {
    if keys == [] then []
    else
      var last := |keys| - 1;
      var rest := Sieve(keys[..last], dead);
      if keys[last] in dead then rest else rest + [keys[last]]
  }

  function DropAll(s: State, dead: set<string>): State {
    var lru := Sieve(s.lru, dead);
    var entries := s.entries - dead;
    State(entries, lru, TotalSize(entries, lru))
  }

  // The longest prefix that fits in `room`.
  function Fitting(entries: map<string, Entry>, keys: seq<string>, room: int): seq<string> {
    if keys == [] || TotalSize(entries, keys) <= room then keys
    else Fitting(entries, keys[..|keys| - 1], room)
  }

  function Kept(s: State, keys: seq<string>): State {
    State(map k | k in s.entries && k in keys :: s.entries[k], keys, TotalSize(s.entries, keys))
  }

  function Lifetime(c: Config, ttl: int): int {
    if ttl > 0 then ttl else c.ttl
  }

  function Set(s: State, c: Config, key: string, value: seq<string>, ttl: int, now: int): State {
    var without := DropAll(s, {key});
    if EntrySize(key, value) > c.maxSize then without
    else Insert(without, c, key, Entry(value, now + Lifetime(c, ttl)))
  }

  // Keeps the longest prefix that leaves room, and puts the key in front.
  function Insert(s: State, c: Config, key: string, e: Entry): State {
    var need := EntrySize(key, e.value);
    var room := Kept(s, Fitting(s.entries, s.lru, c.maxSize - need));
    State(room.entries[key := e], [key] + room.lru, room.size + need)
  }

  predicate Live(s: State, key: string, now: int) {
    key in s.entries && now < s.entries[key].expire
  }

  function Answer(s: State, key: string, now: int): seq<string> {
    if Live(s, key, now) then s.entries[key].value else []
  }

  function Get(s: State, key: string, now: int): State {
    if key !in s.entries then s
    else if Live(s, key, now) then s.(lru := [key] + Sieve(s.lru, {key}))
    else DropAll(s, {key})
  }

  function Expired(s: State, now: int): set<string> {
    set k | k in s.entries && now >= s.entries[k].expire
  }

  function Clean(s: State, now: int): State {
    DropAll(s, Expired(s, now))
  }

  // ---------- sizes ----------

  lemma {:induction false} SieveMembers(keys: seq<string>, dead: set<string>, k: string)
    ensures k in Sieve(keys, dead) <==> k in keys && k !in dead
  {
    if keys != [] {
      var last := |keys| - 1;
      assert keys == keys[..last] + [keys[last]];
      SieveMembers(keys[..last], dead, k);
    }
  }

  lemma {:induction false} SieveNothing(keys: seq<string>, dead: set<string>)
    requires forall k | k in keys :: k !in dead
    ensures Sieve(keys, dead) == keys
  {
    if keys != [] {
      var last := |keys| - 1;
      assert keys == keys[..last] + [keys[last]];
      SieveNothing(keys[..last], dead);
    }
  }

  lemma {:induction false} SieveConcat(a: seq<string>, b: seq<string>, dead: set<string>)
    ensures Sieve(a + b, dead) == Sieve(a, dead) + Sieve(b, dead)
  {
    if b == [] {
      assert a + b == a;
    } else {
      var last := |b| - 1;
      assert (a + b)[..|a + b| - 1] == a + b[..last];
      SieveConcat(a, b[..last], dead);
    }
  }

  lemma SieveSnoc(keys: seq<string>, key: string, dead: set<string>)
    ensures Sieve(keys + [key], dead) == if key in dead then Sieve(keys, dead) else Sieve(keys, dead) + [key]
  {
    assert (keys + [key])[..|keys|] == keys;
  }

  lemma {:induction false} SieveTwice(keys: seq<string>, a: set<string>, b: set<string>)
    ensures Sieve(Sieve(keys, a), b) == Sieve(keys, a + b)
  {
    if keys != [] {
      var last := |keys| - 1;
      var front := keys[..last];
      SieveTwice(front, a, b);
      if keys[last] !in a {
        SieveSnoc(Sieve(front, a), keys[last], b);
      }
    }
  }

  lemma {:induction false} SieveIsSublist(keys: seq<string>, dead: set<string>)
    requires NoDuplicates(keys)
    ensures NoDuplicates(Sieve(keys, dead))
  {
    if keys != [] {
      var last := |keys| - 1;
      SieveIsSublist(keys[..last], dead);
      SieveMembers(keys[..last], dead, keys[last]);
      assert keys[last] !in keys[..last];
    }
  }

  // Without duplicates, taking out the one node of a key is taking out the key.
  lemma EraseIsSieve(a: seq<string>, key: string, b: seq<string>, dead: set<string>)
    requires key !in a && key !in b && dead == {key}
    ensures Sieve(a + [key] + b, dead) == a + b
  {
    SieveNothing(a, dead);
    SieveNothing(b, dead);
    SieveSnoc(a, key, dead);
    SieveConcat(a + [key], b, dead);
  }

  lemma {:induction false} TotalOfConcat(entries: map<string, Entry>, a: seq<string>, b: seq<string>)
    ensures TotalSize(entries, a + b) == TotalSize(entries, a) + TotalSize(entries, b)
  {
    if b == [] {
      assert a + b == a;
    } else {
      var last := |b| - 1;
      assert (a + b)[..|a + b| - 1] == a + b[..last];
      TotalOfConcat(entries, a, b[..last]);
    }
  }

  lemma TotalOfOne(entries: map<string, Entry>, key: string)
    ensures TotalSize(entries, [key]) == StoredSize(entries, key)
  {
    assert [key][..0] == [];
  }

  lemma {:induction false} TotalDependsOnKeys(a: map<string, Entry>, b: map<string, Entry>, keys: seq<string>)
    requires forall k | k in keys :: StoredSize(a, k) == StoredSize(b, k)
    ensures TotalSize(a, keys) == TotalSize(b, keys)
  {
    if keys != [] {
      TotalDependsOnKeys(a, b, keys[..|keys| - 1]);
    }
  }

  lemma {:induction false} TotalOfSieve(entries: map<string, Entry>, keys: seq<string>, dead: set<string>)
    ensures TotalSize(entries, Sieve(keys, dead)) <= TotalSize(entries, keys)
  {
    if keys != [] {
      var last := |keys| - 1;
      var rest := Sieve(keys[..last], dead);
      TotalOfSieve(entries, keys[..last], dead);
      assert (rest + [keys[last]])[..|rest|] == rest;
    }
  }

  // ---------- dropping keys ----------

  lemma DropKeepsValid(s: State, c: Config, dead: set<string>)
    requires Valid(s, c)
    ensures Valid(DropAll(s, dead), c)
  {
    var lru := Sieve(s.lru, dead);
    SieveIsSublist(s.lru, dead);
    TotalOfSieve(s.entries, s.lru, dead);
    forall k
      ensures k in lru <==> k in s.entries - dead
    {
      SieveMembers(s.lru, dead, k);
    }
    TotalDependsOnKeys(s.entries, s.entries - dead, lru);
  }

  lemma {:induction false} TotalWithout(entries: map<string, Entry>, keys: seq<string>, key: string)
    requires NoDuplicates(keys)
    ensures TotalSize(entries, Sieve(keys, {key})) ==
            TotalSize(entries, keys) - if key in keys then StoredSize(entries, key) else 0
  {
    if keys != [] {
      var last := |keys| - 1;
      var rest := Sieve(keys[..last], {key});
      TotalWithout(entries, keys[..last], key);
      assert keys == keys[..last] + [keys[last]];
      assert (rest + [keys[last]])[..|rest|] == rest;
    }
  }

  // The running size after one key went: no subtraction below zero.
  lemma DropOne(s: State, c: Config, key: string)
    requires Valid(s, c) && key in s.entries
    ensures Valid(DropAll(s, {key}), c)
    ensures DropAll(s, {key}).size == s.size - EntrySize(key, s.entries[key].value) >= 0
  {
    hide Sieve, TotalSize, ValueSize, NoDuplicates;
    DropKeepsValid(s, c, {key});
    TotalWithout(s.entries, s.lru, key);
    forall k | k in Sieve(s.lru, {key})
      ensures k != key
    {
      SieveMembers(s.lru, {key}, k);
    }
    TotalDependsOnKeys(s.entries, s.entries - {key}, Sieve(s.lru, {key}));
  }

  lemma DropTwice(s: State, a: set<string>, b: set<string>)
    ensures DropAll(DropAll(s, a), b) == DropAll(s, a + b)
  {
    SieveTwice(s.lru, a, b);
    assert s.entries - a - b == s.entries - (a + b);
  }

  lemma DropNothing(s: State, c: Config, dead: set<string>)
    requires Valid(s, c) && forall k | k in s.entries :: k !in dead
    ensures DropAll(s, dead) == s
  {
    SieveNothing(s.lru, dead);
    assert s.entries - dead == s.entries;
  }

  // ---------- the longest prefix that fits ----------

  lemma {:induction false} FittingFits(entries: map<string, Entry>, keys: seq<string>, room: int)
    requires room >= 0
    ensures Fitting(entries, keys, room) <= keys && TotalSize(entries, Fitting(entries, keys, room)) <= room
  {
    if keys != [] && TotalSize(entries, keys) > room {
      FittingFits(entries, keys[..|keys| - 1], room);
    }
  }

  lemma {:induction false} FittingIsLongest(entries: map<string, Entry>, keys: seq<string>, room: int)
    requires room >= 0
    ensures forall longer | Fitting(entries, keys, room) < longer <= keys :: TotalSize(entries, longer) > room
  {
    if keys != [] && TotalSize(entries, keys) > room {
      var front := keys[..|keys| - 1];
      FittingIsLongest(entries, front, room);
      var r := Fitting(entries, keys, room);
      forall longer | r < longer <= keys
        ensures TotalSize(entries, longer) > room
      {
        if longer != keys {
          assert longer <= front;
        }
      }
    }
  }

  lemma KeepAll(s: State, c: Config)
    requires Valid(s, c)
    ensures Kept(s, s.lru) == s
  {
    assert Kept(s, s.lru).entries == s.entries;
  }

  lemma KeptTwice(s: State, a: seq<string>, b: seq<string>)
    requires b <= a
    ensures Kept(Kept(s, a), b) == Kept(s, b)
  {
    assert forall k | k in b :: k in a;
    TotalDependsOnKeys(s.entries, Kept(s, a).entries, b);
  }

  lemma DropLast(s: State, c: Config)
    requires Valid(s, c) && s.lru != []
    ensures var last := |s.lru| - 1; var k := s.lru[last]; var kept := Kept(s, s.lru[..last]);
            && k in s.entries
            && kept == State(s.entries - {k}, s.lru[..last], s.size - EntrySize(k, s.entries[k].value))
            && kept.size >= 0 && Valid(kept, c)
  {
    var last := |s.lru| - 1;
    var k := s.lru[last];
    var front := s.lru[..last];
    assert s.lru == front + [k] && k !in front;
    var kept := Kept(s, front);
    forall x
      ensures x in kept.entries <==> x in s.entries - {k}
    {
      assert x in s.lru <==> x in s.entries;
    }
    assert kept.entries == s.entries - {k};
    TotalDependsOnKeys(s.entries, kept.entries, front);
  }

  // ---------- putting a key in front ----------

  lemma PushKeepsValid(s: State, c: Config, key: string, e: Entry)
    requires Valid(s, c) && key !in s.entries
    requires s.size + EntrySize(key, e.value) <= c.maxSize
    ensures Valid(State(s.entries[key := e], [key] + s.lru, s.size + EntrySize(key, e.value)), c)
  {
    var entries := s.entries[key := e];
    TotalOfConcat(entries, [key], s.lru);
    TotalOfOne(entries, key);
    TotalDependsOnKeys(s.entries, entries, s.lru);
  }

  lemma TouchKeepsValid(s: State, c: Config, key: string)
    requires Valid(s, c) && key in s.entries
    ensures Valid(s.(lru := [key] + Sieve(s.lru, {key})), c)
  {
    var rest := Sieve(s.lru, {key});
    DropOne(s, c, key);
    forall k
      ensures k in rest <==> k in s.entries && k != key
    {
      SieveMembers(s.lru, {key}, k);
    }
    TotalDependsOnKeys(s.entries, s.entries - {key}, rest);
    TotalOfConcat(s.entries, [key], rest);
    TotalOfOne(s.entries, key);
  }
}
