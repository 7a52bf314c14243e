// What an accepted put is worth: its place in the log is filled, or something is staged for it.
//
// `spread_update` counts every reply as a confirmation, also the reply of a replica that is in a
// later term and did not stage the payload; here a confirmation is genuine if it did.  Whether it
// is this payload that fills the place is a matter of its own, see AcceptedPayload.dfy.
module AcceptedPut {
  import opened NodeSpec
  import opened Quorum
  import opened Cluster
  import opened Elections
  import opened UpToDate

  // The reply of a follower that took the log message and whose log reaches the leader's.
  predicate Genuine(p: Packet) {
    p.BeatReply? && p.beat.Log? && p.term == p.beat.term && p.commitIdx >= p.beat.commitIdx
  }

  ghost predicate GenuineStep(e: Step) {
    e.Confirm? ==> Genuine(e.p)
  }

  ghost predicate AllGenuine(run: seq<Step>) {
    forall e | e in run :: GenuineStep(e)
  }

  ghost predicate ReplyOk(s: State, p: Packet) {
    Genuine(p) ==> p.follower < |s.nodes| && Has(p.beat.commitIdx, s.nodes[p.follower])
  }

  // The holder of an open put and all its confirmations have the place of the put filled, or
  // something staged for it.
  ghost predicate PutOk(s: State, i: Addr) {
    i in s.puts ==>
      && s.puts[i].message.Log? && i < |s.nodes|
      && var n := s.puts[i].message.commitIdx;
      && Has(n, s.nodes[i])
      && forall j | j in s.puts[i].confirmed :: j < |s.nodes| && Has(n, s.nodes[j])
  }

  ghost predicate Backed(s: State) {
    && Safe(s)
    && (forall p | p in s.net :: ReplyOk(s, p))
    && (forall i | i in s.puts :: PutOk(s, i))
  }

  lemma StepKeepsReplies(s: State, e: Step, p: Packet)
    requires Backed(s) && Enabled(s, e) && p in Next(s, e).net
    ensures ReplyOk(Next(s, e), p)
  {
    StepKeepsShape(s, e);
    if p in s.net && Genuine(p) {
      assert ReplyOk(s, p);
      StepKeepsHas(p.beat.commitIdx, s, e, p.follower);
    }
  }

  // What a step can do to a put that stays open: add a confirmation.
  lemma OpenPutChanges(s: State, e: Step, i: Addr)
    requires Enabled(s, e) && i in s.puts && i in Next(s, e).puts
    ensures Next(s, e).puts[i].message == s.puts[i].message
    ensures Next(s, e).puts[i].confirmed <=
            s.puts[i].confirmed + if e.Confirm? && e.p.to == i then {e.p.follower} else {}
  {
    hide StartElection, DecideVote, OnVoteReply, OnHeartbeatReply, HeartbeatFollower, CommitStaged, BeginPut, HasLed;
  }

  lemma ConfirmerHasPlace(s: State, e: Step, i: Addr)
    requires Backed(s) && Enabled(s, e) && GenuineStep(e) && e.Confirm? && e.p.to == i && i in s.puts
    requires s.puts[i].message.Log?
    ensures e.p.follower < |s.nodes| && Has(s.puts[i].message.commitIdx, s.nodes[e.p.follower])
  {
    assert ReplyOk(s, e.p);
  }

  lemma OldPutStaysOk(s: State, e: Step, i: Addr)
    requires Backed(s) && Enabled(s, e) && GenuineStep(e) && i in s.puts && i in Next(s, e).puts
    ensures PutOk(Next(s, e), i)
  {
    var t := Next(s, e);
    assert PutOk(s, i);
    var n := s.puts[i].message.commitIdx;
    OpenPutChanges(s, e, i);
    if e.Confirm? && e.p.to == i { ConfirmerHasPlace(s, e, i); }
    assert Safe(s);
    hide Next, Enabled, Safe, Backed, Has, GenuineStep;
    StepKeepsHas(n, s, e, i);
    forall j | j in t.puts[i].confirmed
      ensures j < |t.nodes| && Has(n, t.nodes[j])
    {
      StepKeepsHas(n, s, e, j);
    }
  }

  lemma StepKeepsPut(s: State, e: Step, i: Addr)
    requires Backed(s) && Enabled(s, e) && GenuineStep(e) && i in Next(s, e).puts
    ensures PutOk(Next(s, e), i)
  {
    if i in s.puts {
      OldPutStaysOk(s, e, i);
    } else {
      hide StartElection, DecideVote, OnVoteReply, OnHeartbeatReply, HeartbeatFollower, CommitStaged, Safe;
      assert e.StartPut? && e.i == i;
    }
  }

  lemma {:induction false} RunKeepsBacked(size: nat, run: seq<Step>)
    requires size > 0 && Legal(Start(size), run) && AllGenuine(run)
    ensures Backed(After(Start(size), run)) && |After(Start(size), run).nodes| == size
    decreases |run|
  {
    StartIsSafe(size);
    RunKeepsSafe(Start(size), run);
    if run != [] {
      var k := |run| - 1;
      RunKeepsBacked(size, run[..k]);
      var s := After(Start(size), run[..k]);
      assert GenuineStep(run[k]);
      forall p | p in Next(s, run[k]).net ensures ReplyOk(Next(s, run[k]), p) { StepKeepsReplies(s, run[k], p); }
      forall i | i in Next(s, run[k]).puts ensures PutOk(Next(s, run[k]), i) { StepKeepsPut(s, run[k], i); }
    }
  }

  // The put of `i` is accepted after the run `before`, and all confirmations were genuine.
  ghost predicate Accepted(size: nat, before: seq<Step>, i: Addr) {
    size > 0 && Legal(Start(size), before) && AllGenuine(before) && Enabled(After(Start(size), before), FinishPut(i))
  }

  ghost function AcceptedOne(size: nat, before: seq<Step>, i: Addr): Put
    requires Accepted(size, before, i)
  {
    After(Start(size), before).puts[i]
  }

  // Any continuation.
  ghost predicate GoesOn(size: nat, before: seq<Step>, i: Addr, rest: seq<Step>) {
    Accepted(size, before, i) && Legal(After(Start(size), before), [FinishPut(i)] + rest)
  }

  ghost function Later(size: nat, before: seq<Step>, i: Addr, rest: seq<Step>): State
    requires GoesOn(size, before, i, rest)
  {
    After(After(Start(size), before), [FinishPut(i)] + rest)
  }

  // In it `c` starts a round and is voted for by a majority.
  ghost predicate WinsLater(size: nat, before: seq<Step>, i: Addr, rest: seq<Step>, c: Addr, round: nat) {
    && GoesOn(size, before, i, rest)
    && Grant(c, round, c) !in After(Start(size), before).grants
    && IsMajority(Granters(Later(size, before, i, rest), round, c), size)
  }

  // If all confirmations are genuine, a majority has the place of an accepted put filled or
  // something staged for it, and so has every later winner.
  lemma {:induction false} AcceptedPlaceIsFilled(size: nat, before: seq<Step>, i: Addr, rest: seq<Step>,
                                                 c: Addr, round: nat)
    requires WinsLater(size, before, i, rest, c, round)
    ensures var put, t := AcceptedOne(size, before, i), Later(size, before, i, rest);
            c < |t.nodes| && put.message.Log? && Has(put.message.commitIdx, t.nodes[c])
  {
    hide After, Legal, Next, Granters, IsMajority, AllGenuine;
    var s, more := After(Start(size), before), [FinishPut(i)] + rest;
    RunKeepsBacked(size, before);
    ConfirmersAreMajority(size, s, i);
    var n, q := s.puts[i].message.commitIdx, s.puts[i].confirmed + {i};
    assert Legal(s, more) && IsMajority(Granters(After(s, more), round, c), size);
    assert AcceptedOne(size, before, i) == s.puts[i] && Later(size, before, i, rest) == After(s, more);
    hide *;
    LaterWinnersHaveIt(n, size, before, q, more, c, round);
  }

  lemma ConfirmersAreMajority(size: nat, s: State, i: Addr)
    requires Backed(s) && |s.nodes| == size > 0 && Enabled(s, FinishPut(i))
    ensures s.puts[i].message.Log? && IsMajority(s.puts[i].confirmed + {i}, size)
    ensures forall v | v in s.puts[i].confirmed + {i} :: v < size && Has(s.puts[i].message.commitIdx, s.nodes[v])
  {
    assert PutOk(s, i);
    assert i !in s.puts[i].confirmed;
    hide Has;
  }
}
