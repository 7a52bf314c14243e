// The cache over whole runs, against a map that forgets nothing.
module CacheRuns {
  import opened Wrappers
  import opened CacheSpec

  datatype Op = SetOp(key: string, value: seq<string>, ttl: int) | GetOp(key: string) | CleanOp

  // An operation and the clock when it runs.
  datatype Event = Event(op: Op, now: int)

  function Step(s: State, c: Config, e: Event): State {
    match e.op
    case SetOp(key, value, ttl) => Set(s, c, key, value, ttl, e.now)
    case GetOp(key) => Get(s, key, e.now)
    case CleanOp => Clean(s, e.now)
  }

  function After(c: Config, run: seq<Event>): State {
    if run == [] then EMPTY else Step(After(c, run[..|run| - 1]), c, run[|run| - 1])
  }

  // The unbounded timed map: the latest set of every key, never evicted.
  function Latest(c: Config, run: seq<Event>): map<string, Entry> {
    if run == [] then map[]
    else
      var e := run[|run| - 1];
      var before := Latest(c, run[..|run| - 1]);
      if e.op.SetOp? then before[e.op.key := Entry(e.op.value, e.now + Lifetime(c, e.op.ttl))] else before
  }

  function TimedGet(m: map<string, Entry>, key: string, now: int): seq<string> {
    if key in m && now < m[key].expire then m[key].value else []
  }

  // ---------- the structure is kept ----------

  lemma PrefixKeepsValid(s: State, c: Config, keys: seq<string>)
    requires Valid(s, c) && keys <= s.lru && TotalSize(s.entries, keys) <= c.maxSize
    ensures Valid(Kept(s, keys), c)
  {
    assert forall k | k in keys :: k in s.lru;
    TotalDependsOnKeys(s.entries, Kept(s, keys).entries, keys);
  }

  lemma InsertKeepsValid(s: State, c: Config, key: string, e: Entry)
    requires Valid(s, c) && key !in s.entries && EntrySize(key, e.value) <= c.maxSize
    ensures Valid(Insert(s, c, key, e), c)
  {
    hide Fitting, TotalSize, NoDuplicates, ValueSize;
    var need := EntrySize(key, e.value);
    var keys := Fitting(s.entries, s.lru, c.maxSize - need);
    var kept := Kept(s, keys);
    assert keys <= s.lru && TotalSize(s.entries, keys) <= c.maxSize - need by {
      FittingFits(s.entries, s.lru, c.maxSize - need);
    }
    assert Valid(kept, c) by { PrefixKeepsValid(s, c, keys); }
    assert Insert(s, c, key, e) == State(kept.entries[key := e], [key] + kept.lru, kept.size + need);
    PushKeepsValid(kept, c, key, e);
  }

  lemma SetKeepsValid(s: State, c: Config, key: string, value: seq<string>, ttl: int, now: int)
    requires Valid(s, c)
    ensures Valid(Set(s, c, key, value, ttl, now), c)
  {
    var w := DropAll(s, {key});
    assert Valid(w, c) && key !in w.entries by { DropKeepsValid(s, c, {key}); }
    var t := Set(s, c, key, value, ttl, now);
    if EntrySize(key, value) <= c.maxSize {
      var e := Entry(value, now + Lifetime(c, ttl));
      assert t == Insert(w, c, key, e);
      InsertKeepsValid(w, c, key, e);
    } else {
      assert t == w;
    }
  }

  lemma GetKeepsValid(s: State, c: Config, key: string, now: int)
    requires Valid(s, c)
    ensures Valid(Get(s, key, now), c)
  {
    if Live(s, key, now) {
      TouchKeepsValid(s, c, key);
    } else {
      DropKeepsValid(s, c, {key});
    }
  }

  lemma StepKeepsValid(s: State, c: Config, e: Event)
    requires Valid(s, c)
    ensures Valid(Step(s, c, e), c)
  {
    match e.op
    case SetOp(key, value, ttl) => SetKeepsValid(s, c, key, value, ttl, e.now);
    case GetOp(key) => GetKeepsValid(s, c, key, e.now);
    case CleanOp => DropKeepsValid(s, c, Expired(s, e.now));
  }

  // In every run list and map hold the same keys once each, and the running size is the sum
  // of the sizes and within the bound.
  lemma {:induction false} RunKeepsValid(c: Config, run: seq<Event>)
    ensures Valid(After(c, run), c)
  {
    if run != [] {
      RunKeepsValid(c, run[..|run| - 1]);
      StepKeepsValid(After(c, run[..|run| - 1]), c, run[|run| - 1]);
    }
  }

  // ---------- the order after a set ----------

  lemma TotalWithoutKey(s: State, c: Config, key: string, keys: seq<string>)
    requires Valid(s, c) && keys <= Sieve(s.lru, {key})
    ensures forall k | k in keys :: k in s.entries && k != key
    ensures TotalSize(s.entries - {key}, keys) == TotalSize(s.entries, keys)
  {
    forall k | k in keys
      ensures k in s.entries && k != key
    {
      assert k in Sieve(s.lru, {key});
      SieveMembers(s.lru, {key}, k);
    }
    TotalDependsOnKeys(s.entries - {key}, s.entries, keys);
  }

  // After a set that stores its entry the order is the new key, then the longest prefix of the
  // old order without that key that fits beside it.
  lemma OrderAfterSet(s: State, c: Config, key: string, value: seq<string>, ttl: int, now: int)
    requires Valid(s, c) && EntrySize(key, value) <= c.maxSize
    ensures var t := Set(s, c, key, value, ttl, now);
            var rest := Sieve(s.lru, {key});
            var room := c.maxSize - EntrySize(key, value);
            && t.lru != [] && t.lru[0] == key && t.lru[1..] <= rest
            && TotalSize(s.entries, t.lru[1..]) <= room
            && (forall longer | t.lru[1..] < longer <= rest :: TotalSize(s.entries, longer) > room)
  {
    var w := DropAll(s, {key});
    var room := c.maxSize - EntrySize(key, value);
    var kept := Fitting(w.entries, w.lru, room);
    assert Set(s, c, key, value, ttl, now).lru == [key] + kept;
    FittingFits(w.entries, w.lru, room);
    TotalWithoutKey(s, c, key, kept);
    FittingIsLongest(w.entries, w.lru, room);
    forall longer | kept < longer <= w.lru
      ensures TotalSize(s.entries, longer) > room
    {
      TotalWithoutKey(s, c, key, longer);
    }
  }

  // It maps the new key to its value and expiry, and the keys it kept to what they were.
  lemma EntriesAfterSet(s: State, c: Config, key: string, value: seq<string>, ttl: int, now: int)
    requires Valid(s, c) && EntrySize(key, value) <= c.maxSize
    ensures var t := Set(s, c, key, value, ttl, now);
            && key in t.entries && t.entries[key] == Entry(value, now + Lifetime(c, ttl))
            && forall k | k in t.entries && k != key :: k in s.entries && t.entries[k] == s.entries[k]
  {}

  // ---------- answers ----------

  ghost predicate Within(s: State, m: map<string, Entry>) {
    forall k | k in s.entries :: k in m && m[k] == s.entries[k]
  }

  lemma {:induction false} EntriesAreLatest(c: Config, run: seq<Event>)
    ensures Within(After(c, run), Latest(c, run))
  {
    if run != [] {
      EntriesAreLatest(c, run[..|run| - 1]);
    }
  }

  // A get answers as the unbounded map does, or nothing if the key is not held: a non-empty
  // answer is the value of the latest set of that key, still unexpired.
  lemma {:induction false} AnswersAreLatest(c: Config, run: seq<Event>, key: string, now: int)
    ensures Answer(After(c, run), key, now) ==
            if key in After(c, run).entries then TimedGet(Latest(c, run), key, now) else []
    ensures Answer(After(c, run), key, now) != [] ==>
              Answer(After(c, run), key, now) == TimedGet(Latest(c, run), key, now)
  {
    EntriesAreLatest(c, run);
  }
}
