// What the order and the size of the cache mean, told from the operations and the strings alone.
module CacheOrder {
  import opened Wrappers
  import opened CacheSpec
  import opened CacheRuns

  // ---------- the order is that of the last use ----------

  predicate Mentions(e: Event, key: string) {
    !e.op.CleanOp? && e.op.key == key
  }

  // The last event that sets or gets the key, -1 if there is none.
  function LastMention(run: seq<Event>, key: string): int {
    if run == [] then -1
    else if Mentions(run[|run| - 1], key) then |run| - 1
    else LastMention(run[..|run| - 1], key)
  }

  lemma {:induction false} LastMentionIsPast(run: seq<Event>, key: string)
    ensures LastMention(run, key) < |run|
  {
    if run != [] { LastMentionIsPast(run[..|run| - 1], key); }
  }

  ghost predicate MostRecentFirst(run: seq<Event>, keys: seq<string>) {
    forall i, j | 0 <= i < j < |keys| :: LastMention(run, keys[i]) > LastMention(run, keys[j])
  }

  lemma {:induction false} SieveKeepsOrder(run: seq<Event>, keys: seq<string>, dead: set<string>)
    requires MostRecentFirst(run, keys)
    ensures MostRecentFirst(run, Sieve(keys, dead))
    decreases |keys|
  {
    hide LastMention;
    if keys != [] {
      var last := |keys| - 1;
      SieveKeepsOrder(run, keys[..last], dead);
      var rest := Sieve(keys[..last], dead);
      forall i | 0 <= i < |rest|
        ensures LastMention(run, rest[i]) > LastMention(run, keys[last])
      {
        SieveMembers(keys[..last], dead, rest[i]);
        var j :| 0 <= j < last && keys[..last][j] == rest[i];
        assert keys[j] == rest[i];
      }
    }
  }

  // Keys that the last event does not mention keep their order behind one that it does.
  lemma OneMoreKeepsOrder(run: seq<Event>, keys: seq<string>)
    requires run != [] && MostRecentFirst(run[..|run| - 1], keys)
    requires forall k | k in keys :: !Mentions(run[|run| - 1], k)
    ensures MostRecentFirst(run, keys)
    ensures forall key | Mentions(run[|run| - 1], key) :: MostRecentFirst(run, [key] + keys)
  {
    var before := run[..|run| - 1];
    forall k | k in keys
      ensures LastMention(run, k) == LastMention(before, k) < |run| - 1
    {
      LastMentionIsPast(before, k);
    }
  }

  // A set leaves a prefix of the order without its key, behind the key if that is stored.
  lemma LruAfterSet(s: State, c: Config, key: string, value: seq<string>, ttl: int, now: int)
      returns (kept: seq<string>)
    requires Valid(s, c)
    ensures kept <= Sieve(s.lru, {key}) && forall k | k in kept :: k != key
    ensures Set(s, c, key, value, ttl, now).lru in {kept, [key] + kept}
  {
    forall k | k in Sieve(s.lru, {key}) ensures k != key { SieveMembers(s.lru, {key}, k); }
    kept := Sieve(s.lru, {key});
    if EntrySize(key, value) <= c.maxSize {
      OrderAfterSet(s, c, key, value, ttl, now);
      var t := Set(s, c, key, value, ttl, now);
      hide *;
      kept := t.lru[1..];
      assert t.lru == [key] + kept && forall k | k in kept :: k in Sieve(s.lru, {key});
    }
  }

  lemma SetKeepsOrder(c: Config, run: seq<Event>)
    requires run != [] && run[|run| - 1].op.SetOp?
    requires MostRecentFirst(run[..|run| - 1], After(c, run[..|run| - 1]).lru)
    ensures MostRecentFirst(run, After(c, run).lru)
  {
    var e, before := run[|run| - 1], run[..|run| - 1];
    var s, key := After(c, before), e.op.key;
    RunKeepsValid(c, before);
    SieveKeepsOrder(before, s.lru, {key});
    assert After(c, run) == Set(s, c, key, e.op.value, e.op.ttl, e.now);
    var kept := LruAfterSet(s, c, key, e.op.value, e.op.ttl, e.now);
    hide After, Set, Sieve, LastMention, Valid;
    assert MostRecentFirst(before, kept);
    OneMoreKeepsOrder(run, kept);
  }

  lemma GetKeepsOrder(c: Config, run: seq<Event>)
    requires run != [] && run[|run| - 1].op.GetOp?
    requires MostRecentFirst(run[..|run| - 1], After(c, run[..|run| - 1]).lru)
    ensures MostRecentFirst(run, After(c, run).lru)
  {
    var before := run[..|run| - 1];
    var s, key := After(c, before), run[|run| - 1].op.key;
    RunKeepsValid(c, before);
    SieveKeepsOrder(before, s.lru, {key});
    forall k | k in Sieve(s.lru, {key}) ensures k != key { SieveMembers(s.lru, {key}, k); }
    OneMoreKeepsOrder(run, Sieve(s.lru, {key}));
    if key !in s.entries { SieveNothing(s.lru, {key}); }
  }

  // After every run the keys that are held stand in the order in which they were last set or
  // asked for, the most recent first.
  lemma {:induction false} OrderIsLastUse(c: Config, run: seq<Event>)
    ensures MostRecentFirst(run, After(c, run).lru)
  {
    if run != [] {
      var e, before := run[|run| - 1], run[..|run| - 1];
      OrderIsLastUse(c, before);
      match e.op
      case SetOp(_, _, _) => SetKeepsOrder(c, run);
      case GetOp(_) => GetKeepsOrder(c, run);
      case CleanOp =>
        var s := After(c, before);
        SieveKeepsOrder(before, s.lru, Expired(s, e.now));
        OneMoreKeepsOrder(run, Sieve(s.lru, Expired(s, e.now)));
    }
  }

  // What a set evicts was used less recently than all it keeps.
  lemma EvictsLeastRecent(c: Config, run: seq<Event>, e: Event, gone: string, kept: string)
    requires e.op.SetOp? && gone != e.op.key && kept != e.op.key
    requires gone in After(c, run).entries && gone !in After(c, run + [e]).entries
    requires kept in After(c, run).entries && kept in After(c, run + [e]).entries
    ensures LastMention(run, gone) < LastMention(run, kept)
  {
    assert (run + [e])[..|run|] == run;
    var s, t := After(c, run), After(c, run + [e]);
    var key := e.op.key;
    RunKeepsValid(c, run);
    RunKeepsValid(c, run + [e]);
    OrderIsLastUse(c, run);
    SieveKeepsOrder(run, s.lru, {key});
    SieveMembers(s.lru, {key}, gone);
    SieveMembers(s.lru, {key}, kept);
    assert gone !in t.lru && kept in t.lru;
    assert EntrySize(key, e.op.value) <= c.maxSize;
    OrderAfterSet(s, c, key, e.op.value, e.op.ttl, e.now);
    var rest := Sieve(s.lru, {key});
    hide *;
    PrefixIsNewer(run, rest, t.lru[1..], gone, kept);
  }

  lemma PrefixIsNewer(run: seq<Event>, keys: seq<string>, prefix: seq<string>, gone: string, kept: string)
    requires MostRecentFirst(run, keys) && prefix <= keys
    requires gone in keys && gone !in prefix && kept in prefix
    ensures LastMention(run, gone) < LastMention(run, kept)
  {
    var i :| 0 <= i < |prefix| && prefix[i] == kept;
    var j :| 0 <= j < |keys| && keys[j] == gone;
    assert keys[i] == kept;
    assert forall m | 0 <= m < |prefix| :: keys[m] == prefix[m] && keys[m] in prefix;
  }

  // ---------- the size is the number of characters held ----------

  // The keys and all strings of their values, written one after another.
  function HeldText(entries: map<string, Entry>, keys: seq<string>): string
    requires forall k | k in keys :: k in entries
  {
    if keys == [] then ""
    else keys[0] + Joined(entries[keys[0]].value) + HeldText(entries, keys[1..])
  }

  lemma {:induction false} TotalIsTextLength(entries: map<string, Entry>, keys: seq<string>)
    requires forall k | k in keys :: k in entries
    ensures TotalSize(entries, keys) == |HeldText(entries, keys)|
    decreases |keys|
  {
    if keys != [] {
      assert keys == [keys[0]] + keys[1..];
      TotalOfConcat(entries, [keys[0]], keys[1..]);
      TotalOfOne(entries, keys[0]);
      SizeIsLength(entries[keys[0]].value);
      TotalIsTextLength(entries, keys[1..]);
    }
  }

  // After every run the keys held and all strings of their values have no more characters than
  // the bound, and the running size is their number.
  lemma {:induction false} HeldTextFits(c: Config, run: seq<Event>)
    ensures var s := After(c, run);
            && NoDuplicates(s.lru) && (forall k :: k in s.lru <==> k in s.entries)
            && s.size == |HeldText(s.entries, s.lru)| <= c.maxSize
  {
    RunKeepsValid(c, run);
    var s := After(c, run);
    TotalIsTextLength(s.entries, s.lru);
  }

  // ---------- an answer is that of the last set, in its time ----------

  // The event `i` is the last set of the key.
  ghost predicate LastSet(run: seq<Event>, key: string, i: nat) {
    && i < |run| && run[i].op.SetOp? && run[i].op.key == key
    && forall j | i < j < |run| && run[j].op.SetOp? :: run[j].op.key != key
  }

  lemma {:induction false} LatestIsLastSet(c: Config, run: seq<Event>, key: string) returns (i: nat)
    requires key in Latest(c, run)
    ensures LastSet(run, key, i)
    ensures var e := run[i];
            Latest(c, run)[key] == Entry(e.op.value, e.now + if e.op.ttl > 0 then e.op.ttl else c.ttl)
  {
    var last := |run| - 1;
    if run[last].op.SetOp? && run[last].op.key == key {
      i := last;
    } else {
      i := LatestIsLastSet(c, run[..last], key);
    }
  }

  // A get that answers something answers the value of the last set of its key, and less time has
  // passed since than that set gave it, or than the default if it gave none.
  lemma AnswersNameTheirSet(c: Config, run: seq<Event>, key: string, now: int) returns (i: nat)
    requires Answer(After(c, run), key, now) != []
    ensures LastSet(run, key, i) && Answer(After(c, run), key, now) == run[i].op.value
    ensures now - run[i].now < if run[i].op.ttl > 0 then run[i].op.ttl else c.ttl
  {
    EntriesAreLatest(c, run);
    i := LatestIsLastSet(c, run, key);
  }
}
