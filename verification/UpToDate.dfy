// The vote restriction of `decide_vote`: a place in the log that a majority has filled, or has
// something staged for, is so for every later winner.  What it is filled with is not compared.
module UpToDate {
  import opened Wrappers
  import opened NodeSpec
  import opened Quorum
  import opened Cluster
  import opened Elections

  // Place `n` (from 0) of the log is filled, or the log reaches up to it and something is staged.
  predicate Holds(n: nat, commitIdx: nat, staged: Option<Payload>) {
    commitIdx > n || (commitIdx >= n && staged.Some?)
  }

  predicate Has(n: nat, s: NodeState) {
    Holds(n, s.commitIdx, s.staged)
  }

  // A node that has it votes only for a request that has it.
  lemma VotersOnlyChooseUpToDate(n: nat, s: NodeState, r: VoteRequest)
    requires Has(n, s) && Grants(s, r)
    ensures Holds(n, r.commitIdx, r.staged)
  {}

  // What the guard comes to: a later term, a log no shorter, and something staged if the voter has.
  lemma GrantsExactly(s: NodeState, r: VoteRequest)
    ensures Grants(s, r) <==> r.term > s.term && r.commitIdx >= s.commitIdx && (s.staged.Some? ==> r.staged.Some?)
  {}

  // So a candidate in a later term that is no further back gets the vote, and has all the voter has.
  lemma FurtherOnIsGranted(s: NodeState, x: NodeState, round: nat)
    requires s.term < round && s.commitIdx <= x.commitIdx && (s.staged.Some? ==> x.staged.Some?)
    ensures DecideVote(s, RequestOf(x, round)).term == round
    ensures forall n | Has(n, s) :: Has(n, x)
  {}

  // No step of any node loses it.
  lemma StepKeepsHas(n: nat, s: State, e: Step, i: Addr)
    requires Safe(s) && Enabled(s, e) && i < |s.nodes| && Has(n, s.nodes[i])
    ensures i < |Next(s, e).nodes| && Has(n, Next(s, e).nodes[i])
  {
    hide Next;
    NodesGrow(s, e);
  }

  lemma {:induction false} RunKeepsHas(n: nat, s: State, run: seq<Step>, i: Addr)
    requires Safe(s) && Legal(s, run) && i < |s.nodes| && Has(n, s.nodes[i])
    ensures |After(s, run).nodes| == |s.nodes| && Has(n, After(s, run).nodes[i])
    decreases |run|
  {
    RunKeepsSafe(s, run);
    if run != [] {
      var k := |run| - 1;
      RunKeepsHas(n, s, run[..k], i);
      RunKeepsSafe(s, run[..k]);
      StepKeepsHas(n, After(s, run[..k]), run[k], i);
    }
  }

  // What holds of the votes for candidate `c` in a round it starts after all of `q` have it.
  ghost predicate Chosen(n: nat, s: State, q: set<Addr>, c: Addr, round: nat) {
    && Safe(s)
    && (forall v | v in q :: v < |s.nodes| && Has(n, s.nodes[v]))
    && (forall p | p in s.net && p.VoteAsk? && p.from == c && p.request.term == round ::
          c < |s.nodes| && (Holds(n, p.request.commitIdx, p.request.staged) ==> Has(n, s.nodes[c])))
    && (forall v | v in q && Grant(v, round, c) in s.grants :: c < |s.nodes| && Has(n, s.nodes[c]))
  }

  lemma StepKeepsChosen(n: nat, s: State, e: Step, q: set<Addr>, c: Addr, round: nat)
    requires Chosen(n, s, q, c, round) && Enabled(s, e)
    ensures Chosen(n, Next(s, e), q, c, round)
  {
    hide HeartbeatFollower, CommitStaged, OnVoteReply, StartElection, BeginPut, OnHeartbeatReply, Safe;
    StepKeepsSafe(s, e);
    var t := Next(s, e);
    forall v | v in q ensures v < |t.nodes| && Has(n, t.nodes[v]) { StepKeepsHas(n, s, e, v); }
    if c < |s.nodes| && Has(n, s.nodes[c]) { StepKeepsHas(n, s, e, c); }
    forall v | v in q && Grant(v, round, c) in t.grants
      ensures c < |t.nodes| && Has(n, t.nodes[c])
    {
      if Grant(v, round, c) !in s.grants && v != c {
        assert e.Vote? && e.p.to == v && e.p.from == c && Grants(s.nodes[v], e.p.request);
        VotersOnlyChooseUpToDate(n, s.nodes[v], e.p.request);
      }
    }
  }

  lemma {:induction false} RunKeepsChosen(n: nat, s: State, run: seq<Step>, q: set<Addr>, c: Addr, round: nat)
    requires Chosen(n, s, q, c, round) && Legal(s, run)
    ensures Chosen(n, After(s, run), q, c, round)
    decreases |run|
  {
    if run != [] {
      var k := |run| - 1;
      RunKeepsChosen(n, s, run[..k], q, c, round);
      StepKeepsChosen(n, After(s, run[..k]), run[k], q, c, round);
    }
  }

  // Whoever starts a round from now on and is voted for in it by one that has it, has it too.
  lemma VotedForHasIt(n: nat, s: State, rest: seq<Step>, v: Addr, c: Addr, round: nat)
    requires Safe(s) && v < |s.nodes| && Has(n, s.nodes[v]) && Grant(c, round, c) !in s.grants
    requires Legal(s, rest) && Grant(v, round, c) in After(s, rest).grants
    ensures c < |After(s, rest).nodes| && Has(n, After(s, rest).nodes[c])
  {
    assert forall p | p in s.net && p.VoteAsk? :: PacketOk(s, p);
    RunKeepsChosen(n, s, rest, {v}, c, round);
  }

  // Once a majority has place `n` filled or something staged for it, in every continuation, with
  // packets lost, late, reordered or repeated, every candidate that starts a round from then on
  // and is voted for by a majority in it has so too.
  lemma LaterWinnersHaveIt(n: nat, size: nat, before: seq<Step>, q: set<Addr>,
                           rest: seq<Step>, c: Addr, round: nat)
    requires size > 0 && Legal(Start(size), before)
    requires IsMajority(q, size)
    requires var s := After(Start(size), before);
             && |s.nodes| == size
             && (forall v | v in q :: Has(n, s.nodes[v]))
             && Grant(c, round, c) !in s.grants
             && Legal(s, rest)
             && IsMajority(Granters(After(s, rest), round, c), size)
    ensures var t := After(After(Start(size), before), rest);
            c < |t.nodes| && Has(n, t.nodes[c])
  {
    var s := After(Start(size), before);
    StartIsSafe(size);
    RunKeepsSafe(Start(size), before);
    var v := Overlap(q, Granters(After(s, rest), round, c), size);
    VotedForHasIt(n, s, rest, v, c, round);
  }
}
