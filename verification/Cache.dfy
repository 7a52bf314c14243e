// The cache object of `cache.cpp`, proved against CacheSpec, and what its answers mean over
// whole runs.
module CacheImpl {
  import opened Wrappers
  import opened CacheSpec

  class Cache {
    const defaultTTL: int
    const maxSize: nat
    var cache: map<string, Entry>
    var lru: seq<string>
    var currentSize: nat

    function Config(): CacheSpec.Config {
      CacheSpec.Config(defaultTTL, maxSize)
    }

    function State(): CacheSpec.State
      reads this
    {
      CacheSpec.State(cache, lru, currentSize)
    }

    ghost predicate Valid()
      reads this
    {
      CacheSpec.Valid(State(), Config())
    }

    constructor (defaultTTL: int, maxSize: nat)
      ensures Valid() && State() == EMPTY
      ensures this.defaultTTL == defaultTTL && this.maxSize == maxSize
    {
      this.defaultTTL := defaultTTL;
      this.maxSize := maxSize;
      this.cache := map[];
      this.lru := [];
      this.currentSize := 0;
    }

    method ComputeValueSize(vec: seq<string>) returns (total: nat)
      ensures total == |Joined(vec)| == ValueSize(vec)
    {
      total := 0;
      for i := 0 to |vec|
        invariant total == ValueSize(vec[..i])
      {
        total := total + |vec[i]|;
        assert vec[..i + 1][..i] == vec[..i];
      }
      assert vec[..|vec|] == vec;
      SizeIsLength(vec);
    }

    // The list node an entry points to: the one that holds its key.
    method Erase(key: string)
      requires NoDuplicates(lru) && key in lru
      modifies this`lru
      ensures lru == Sieve(old(lru), {key})
    {
      var i := 0;
      while lru[i] != key
        invariant i < |lru| && key in lru[i..]
        decreases |lru| - i
      {
        assert lru[i..] == [lru[i]] + lru[i + 1..];
        i := i + 1;
      }
      assert lru == lru[..i] + [key] + lru[i + 1..];
      EraseIsSieve(lru[..i], key, lru[i + 1..], {key});
      lru := lru[..i] + lru[i + 1..];
    }

    method Remove(key: string)
      requires Valid() && key in cache
      modifies this
      ensures Valid() && State() == DropAll(old(State()), {key})
    {
      DropOne(State(), Config(), key);
      var size := ComputeValueSize(cache[key].value);
      currentSize := currentSize - (|key| + size);
      Erase(key);
      cache := cache - {key};
    }

    method EvictLast()
      requires Valid() && lru != []
      modifies this
      ensures Valid() && State() == Kept(old(State()), old(lru[..|lru| - 1]))
    {
      hide Kept, CacheSpec.Valid, TotalSize, ValueSize;
      ghost var s := State();
      var oldKey := lru[|lru| - 1];
      DropLast(s, Config());
      var size := ComputeValueSize(cache[oldKey].value);
      currentSize := currentSize - (|oldKey| + size);
      lru := lru[..|lru| - 1];
      cache := cache - {oldKey};
    }

    method Set(key: string, value: seq<string>, ttl: int, now: int)
      requires Valid()
      modifies this
      ensures Valid() && State() == CacheSpec.Set(old(State()), Config(), key, value, ttl, now)
    {
      DropOld(key);
      var expireTime := now + if ttl > 0 then ttl else defaultTTL;
      var valueSize := ComputeValueSize(value);
      var entrySize := |key| + valueSize;
      if entrySize > maxSize {
        return;
      }
      Insert(key, Entry(value, expireTime), entrySize);
    }

    method DropOld(key: string)
      requires Valid()
      modifies this
      ensures Valid() && State() == DropAll(old(State()), {key}) && key !in cache
    {
      if key in cache {
        Remove(key);
      } else {
        DropNothing(State(), Config(), {key});
      }
    }

    method Insert(key: string, e: Entry, entrySize: nat)
      requires Valid() && key !in cache && entrySize == EntrySize(key, e.value) <= maxSize
      modifies this
      ensures Valid() && State() == CacheSpec.Insert(old(State()), Config(), key, e)
    {
      hide Sieve, Fitting, TotalSize, ValueSize, NoDuplicates;
      MakeRoom(entrySize);
      ghost var kept := State();
      assert key !in kept.entries && kept.size + entrySize <= maxSize;
      PushKeepsValid(kept, Config(), key, e);
      lru := [key] + lru;
      cache := cache[key := e];
      currentSize := currentSize + entrySize;
    }

    // The eviction loop.
    method MakeRoom(entrySize: nat)
      requires Valid() && entrySize <= maxSize
      modifies this
      ensures Valid() && currentSize + entrySize <= maxSize
      ensures State() == Kept(old(State()), Fitting(old(cache), old(lru), maxSize - entrySize))
    {
      ghost var s := State();
      KeepAll(s, Config());
      while currentSize + entrySize > maxSize
        invariant Valid() && lru <= s.lru && State() == Kept(s, lru)
        invariant Fitting(s.entries, lru, maxSize - entrySize) == Fitting(s.entries, s.lru, maxSize - entrySize)
        decreases |lru|
      {
        ghost var before := State();
        EvictLast();
        KeptTwice(s, before.lru, lru);
      }
    }

    method Get(key: string, now: int) returns (value: seq<string>)
      requires Valid()
      modifies this
      ensures Valid() && State() == CacheSpec.Get(old(State()), key, now)
      ensures value == Answer(old(State()), key, now)
    {
      if key !in cache {
        return [];
      }
      if now >= cache[key].expire {
        Remove(key);
        return [];
      }
      TouchKeepsValid(State(), Config(), key);
      Erase(key);
      lru := [key] + lru;
      return cache[key].value;
    }

    method CleanEntry(ghost s: State, ghost dead: set<string>, k: string, now: int)
      requires Valid() && k in cache && k in s.entries && k !in dead
      requires State() == DropAll(s, dead)
      modifies this
      ensures Valid() && State() == DropAll(s, if now >= s.entries[k].expire then dead + {k} else dead)
      ensures cache.Keys >= old(cache.Keys) - {k}
    {
      if now >= cache[k].expire {
        DropTwice(s, dead, {k});
        Remove(k);
      }
    }

    // One pass of the cleaner, in whatever order the map is walked.
    method CleanerPass(now: int)
      requires Valid()
      modifies this
      ensures Valid() && State() == Clean(old(State()), now)
    {
      ghost var s := State();
      ghost var expired := Expired(s, now);
      var rest := cache.Keys;
      DropNothing(s, Config(), expired - rest);
      while rest != {}
        invariant Valid() && rest <= cache.Keys
        invariant State() == DropAll(s, expired - rest)
        decreases |rest|
      {
        var k :| k in rest;
        ghost var dead := expired - rest;
        CleanEntry(s, dead, k, now);
        TakeOut(expired, rest, k);
        rest := rest - {k};
      }
      assert expired - rest == expired;
    }
  }

  lemma TakeOut(expired: set<string>, rest: set<string>, k: string)
    requires k in rest
    ensures expired - (rest - {k}) == if k in expired then (expired - rest) + {k} else expired - rest
  {}
}
