// The replica object of `node.py`: fields updated in place, proved against NodeSpec.
module NodeImpl {
  import opened Wrappers
  import opened NodeSpec
  import opened Ticks

  // The last look of `handle_put` at its confirmations, counted from 0: one look every half
  // millisecond until the sum of the waits is more than MAX_LOG_WAIT (50 ms).
  const LAST_POLL := 99

  function CountTrue(flags: seq<bool>): (n: nat)
    ensures n <= |flags|
  {
    if flags == [] then 0 else CountTrue(flags[..|flags| - 1]) + if flags[|flags| - 1] then 1 else 0
  }

  // The number of confirmations is the number of followers that replied.
  lemma {:induction false} CountTrueIsCardinality(flags: seq<bool>)
    ensures CountTrue(flags) == |set i | 0 <= i < |flags| && flags[i]|
  {
    var here := set i | 0 <= i < |flags| && flags[i];
    if flags == [] {
      assert here == {};
    } else {
      var last := |flags| - 1;
      var front := flags[..last];
      CountTrueIsCardinality(front);
      var before := set i | 0 <= i < |front| && front[i];
      assert here == before + if flags[last] then {last} else {};
    }
  }

  class Node {
    const addr: Addr
    const fellow: seq<Addr>
    const majority: nat
    var DB: map<string, Value>
    var log: seq<Option<Payload>>
    var staged: Option<Payload>
    var term: nat
    var status: Status
    var voteCount: nat
    var commitIdx: nat
    var leader: Option<Addr>

    ghost predicate Valid()
      reads this
    {
      majority == (|fellow| + 1) / 2 + 1
    }

    ghost function State(): NodeState
      reads this
    {
      NodeState(addr, fellow, DB, log, staged, term, status, voteCount, commitIdx, leader)
    }

    constructor (fellow: seq<Addr>, addr: Addr)
      ensures Valid()
      ensures State() == Initial(addr, fellow)
      ensures Consistent(State())
    {
      this.addr := addr;
      this.fellow := fellow;
      this.majority := (|fellow| + 1) / 2 + 1;
      DB, log, staged := map[], [], None;
      term, status, voteCount, commitIdx, leader := 0, Follower, 0, 0, None;
    }

    method IncrementVote()
      requires Valid()
      modifies this`voteCount, this`status
      ensures Valid() && State() == NodeSpec.IncrementVote(old(State()))
    {
      voteCount := voteCount + 1;
      if voteCount >= majority {
        status := Leader;
      }
    }

    method StartElection()
      requires Valid()
      modifies this`term, this`voteCount, this`status
      ensures Valid() && State() == NodeSpec.StartElection(old(State()))
    {
      term := term + 1;
      voteCount := 0;
      status := Candidate;
      IncrementVote();
    }

    method VoteReply(choice: bool, replyTerm: nat)
      requires Valid()
      modifies this`term, this`voteCount, this`status
      ensures Valid() && State() == OnVoteReply(old(State()), choice, replyTerm)
    {
      if choice && status == Candidate {
        IncrementVote();
      } else if !choice {
        if replyTerm > term {
          term := replyTerm;
          status := Follower;
        }
      }
    }

    method DecideVote(r: VoteRequest) returns (choice: bool, replyTerm: nat)
      requires Valid()
      modifies this`term
      ensures Valid() && State() == NodeSpec.DecideVote(old(State()), r)
      ensures choice == Grants(old(State()), r) && replyTerm == term
      ensures term >= old(term)
    {
      if term < r.term && commitIdx <= r.commitIdx && (r.staged.Some? || staged == r.staged) {
        term := r.term;
        return true, term;
      } else {
        return false, term;
      }
    }

    method HeartbeatReply(replyTerm: nat)
      requires Valid()
      modifies this`term, this`status
      ensures Valid() && State() == OnHeartbeatReply(old(State()), replyTerm)
    {
      if replyTerm > term {
        term := replyTerm;
        status := Follower;
      }
    }

    // Moves the staged payload to the log and the database.  `ok` is false when nothing was
    // staged: the original then raises an exception half way.
    method Commit() returns (ok: bool)
      requires Valid()
      modifies this`commitIdx, this`log, this`DB, this`staged
      ensures Valid() && State() == CommitStaged(old(State()))
      ensures ok == old(staged).Some?
      ensures old(Consistent(State())) ==> Consistent(State())
    {
      ghost var before := State();
      commitIdx := commitIdx + 1;
      log := log + [staged];
      ok := staged.Some?;
      if ok {
        DB := DB[staged.value.key := staged.value.value];
        staged := None;
      }
      if Consistent(before) { CommitKeepsConsistent(before); }
    }

    method HeartbeatFollower(m: Beat) returns (replied: bool, replyTerm: nat, replyIdx: nat)
      requires Valid()
      modifies this
      ensures Valid() && State() == NodeSpec.HeartbeatFollower(old(State()), m)
      ensures replyTerm == term && replyIdx == commitIdx
      ensures replied == Answers(old(State()), m)
    {
      replied := true;
      if term <= m.term {
        leader := Some(m.addr);
        if status == Candidate {
          status := Follower;
        } else if status == Leader {
          status := Follower;
        }
        if term < m.term {
          term := m.term;
        }
        if m.Log? {
          staged := Some(m.payload);
        } else if m.Commit? && m.index.Some? && commitIdx <= m.index.value {
          if staged.None? {
            staged := m.entry;
          }
          replied := Commit();
        }
      }
      return replied, term, commitIdx;
    }

    // One pass over the followers: those that reply are marked, whatever they replied.
    method SpreadUpdate(replies: seq<bool>, confirmations: array<bool>)
      requires |replies| == |fellow| == confirmations.Length
      modifies confirmations
      ensures forall i | 0 <= i < |fellow| :: confirmations[i] == (old(confirmations[i]) || replies[i])
    {
      for i := 0 to |fellow|
        invariant forall k | 0 <= k < i :: confirmations[k] == (old(confirmations[k]) || replies[k])
        invariant forall k | i <= k < |fellow| :: confirmations[k] == old(confirmations[k])
      {
        if replies[i] {
          confirmations[i] := true;
        }
      }
    }

    // The waiting loop of `handle_put`; `seen(k)` is the confirmation list at the k-th look.
    method AwaitMajority(seen: nat -> seq<bool>) returns (accepted: bool, at: nat)
      requires Valid()
      ensures accepted ==> at <= LAST_POLL && CountTrue(seen(at)) + 1 >= majority
      ensures accepted ==> forall k: nat | k < at :: CountTrue(seen(k)) + 1 < majority
      ensures !accepted ==> forall k: nat | k <= LAST_POLL :: CountTrue(seen(k)) + 1 < majority
    {
      hide CountTrue, Waited;
      var waited: nat := 0;
      at := 0;
      StartsAtZero();
      while CountTrue(seen(at)) + 1 < majority
        invariant at <= LAST_POLL
        invariant waited == Waited(at)
        invariant forall k: nat | k < at :: CountTrue(seen(k)) + 1 < majority
        decreases LAST_POLL - at
      {
        var over;
        waited, over := WaitOnce(at, waited);
        if over {
          return false, at;
        }
        at := at + 1;
      }
      return true, at;
    }

    // A whole put with nothing in between.  A rejected put leaves its payload staged.
    method HandlePut(p: Payload, seen: nat -> seq<bool>) returns (accepted: bool, messages: seq<Beat>)
      requires Valid()
      modifies this
      ensures Valid()
      ensures accepted == exists k: nat :: k <= LAST_POLL && CountTrue(seen(k)) + 1 >= majority
      ensures accepted ==> State() == CommitStaged(BeginPut(old(State()), p))
      ensures !accepted ==> State() == BeginPut(old(State()), p)
      ensures messages == [LogMessage(old(State()), p)] + if accepted then [CommitMessage(old(State()), p)] else []
      ensures old(Consistent(State())) ==> Consistent(State())
    {
      staged := Some(p);
      messages := [Log(term, addr, p, commitIdx)];
      var at;
      accepted, at := AwaitMajority(seen);
      if accepted {
        messages := messages + [Beat.Commit(term, addr, Some(p), Some(commitIdx))];
        var ok := Commit();
      }
    }
  }
}
