// The log, the commit index and the database of every replica agree in every run, and commit
// messages never carry anyone past the most advanced replica.
module CommitBound {
  import opened Wrappers
  import opened NodeSpec
  import opened Cluster

  function MaxCommit(nodes: seq<NodeState>): (m: nat)
    ensures forall s | s in nodes :: s.commitIdx <= m
    ensures nodes != [] ==> exists i :: 0 <= i < |nodes| && nodes[i].commitIdx == m
  {
    if nodes == [] then 0
    else
      var k := |nodes| - 1;
      var rest := MaxCommit(nodes[..k]);
      assert nodes == nodes[..k] + [nodes[k]];
      if nodes[k].commitIdx > rest || k == 0 then nodes[k].commitIdx
      else
        var i :| 0 <= i < k && nodes[..k][i].commitIdx == rest;
        assert nodes[i].commitIdx == rest;
        rest
  }

  // The index in a commit message is below the commit index of whoever sent it.
  ghost predicate CommitOk(s: State, p: Packet) {
    p.BeatTo? && p.beat.Commit? && p.beat.index.Some? ==>
      p.from < |s.nodes| && p.beat.index.value < s.nodes[p.from].commitIdx
  }

  ghost predicate Bounded(s: State) {
    && Safe(s)
    && (forall p | p in s.net :: CommitOk(s, p))
    && (forall x | x in s.nodes :: Consistent(x))
  }

  lemma HandlersCommit(x: NodeState, m: Beat)
    ensures CommitStaged(x).commitIdx == x.commitIdx + 1
    ensures HeartbeatFollower(x, m).commitIdx ==
            if x.term <= m.term && TakesCommit(x, m) then x.commitIdx + 1 else x.commitIdx
  {}

  lemma StepKeepsCommits(s: State, e: Step, p: Packet)
    requires Bounded(s) && Enabled(s, e) && p in Next(s, e).net
    ensures CommitOk(Next(s, e), p)
  {
    hide StartElection, DecideVote, OnVoteReply, OnHeartbeatReply, HeartbeatFollower, BeginPut, CommitStaged;
    NodesGrow(s, e);
    if p in s.net {
      assert CommitOk(s, p);
    } else if e.FinishPut? {
      HandlersCommit(s.nodes[e.i], Plain(0, 0));
    }
  }

  lemma StepKeepsConsistent(s: State, e: Step, i: Addr)
    requires Bounded(s) && Enabled(s, e) && i < |s.nodes|
    ensures i < |Next(s, e).nodes| && Consistent(Next(s, e).nodes[i])
  {
    assert s.nodes[i] in s.nodes;
    match e
    case Deliver(p) => HeartbeatKeepsConsistent(s.nodes[p.to], p.beat);
    case FinishPut(j) => CommitKeepsConsistent(s.nodes[j]);
    case _ =>
  }

  lemma {:induction false} RunKeepsBounded(n: nat, run: seq<Step>)
    requires n > 0 && Legal(Start(n), run)
    ensures Bounded(After(Start(n), run)) && |After(Start(n), run).nodes| == n
    decreases |run|
  {
    StartIsSafe(n);
    RunKeepsSafe(Start(n), run);
    if run != [] {
      var k := |run| - 1;
      RunKeepsBounded(n, run[..k]);
      var s := After(Start(n), run[..k]);
      var t := Next(s, run[k]);
      forall p | p in t.net ensures CommitOk(t, p) { StepKeepsCommits(s, run[k], p); }
      forall i: nat | i < |t.nodes| ensures Consistent(t.nodes[i]) { StepKeepsConsistent(s, run[k], i); }
    }
  }

  // In every run, with loss, duplication and several leaders, every commit index is the length
  // of its log and every database is the replay of its log.
  lemma {:induction false} EveryDatabaseIsItsLog(n: nat, run: seq<Step>, i: Addr)
    requires n > 0 && Legal(Start(n), run) && i < n
    ensures var s := After(Start(n), run);
            |s.nodes| == n && s.nodes[i].commitIdx == |s.nodes[i].log| && s.nodes[i].db == Replay(s.nodes[i].log)
  {
    RunKeepsBounded(n, run);
    assert After(Start(n), run).nodes[i] in After(Start(n), run).nodes;
  }

  lemma HandlersDoNotCommit(x: NodeState)
    ensures StartElection(x).commitIdx == x.commitIdx
    ensures forall r :: DecideVote(x, r).commitIdx == x.commitIdx
    ensures forall choice, term :: OnVoteReply(x, choice, term).commitIdx == x.commitIdx
    ensures forall term :: OnHeartbeatReply(x, term).commitIdx == x.commitIdx
    ensures forall payload :: BeginPut(x, payload).commitIdx == x.commitIdx
  {}

  lemma OtherStepsDoNotCommit(s: State, e: Step)
    requires Enabled(s, e) && !e.Deliver? && !e.FinishPut?
    ensures |Next(s, e).nodes| == |s.nodes|
    ensures forall i: nat | i < |s.nodes| :: Next(s, e).nodes[i].commitIdx == s.nodes[i].commitIdx
  {
    hide StartElection, DecideVote, OnVoteReply, OnHeartbeatReply, HeartbeatFollower, BeginPut, CommitStaged;
    match e
    case Vote(p) => HandlersDoNotCommit(s.nodes[p.to]);
    case TakeVote(p) => HandlersDoNotCommit(s.nodes[p.cand]);
    case TakeBeat(p) => HandlersDoNotCommit(s.nodes[p.to]);
    case StartPut(j, _) => HandlersDoNotCommit(s.nodes[j]);
    case Timeout(j) => HandlersDoNotCommit(s.nodes[j]);
    case _ =>
  }

  lemma DeliveredCommit(s: State, p: Packet, i: Addr)
    requires Bounded(s) && Enabled(s, Deliver(p)) && i < |s.nodes|
    ensures Next(s, Deliver(p)).nodes[i].commitIdx <= MaxCommit(s.nodes)
  {
    hide HeartbeatFollower;
    assert CommitOk(s, p) && PacketOk(s, p);
    HandlersCommit(s.nodes[p.to], p.beat);
  }

  lemma FinishedCommit(s: State, j: Addr, i: Addr)
    requires Bounded(s) && Enabled(s, FinishPut(j)) && i < |s.nodes|
    ensures Next(s, FinishPut(j)).nodes[i].commitIdx <= MaxCommit(s.nodes) + 1
  {
    hide CommitStaged;
    HandlersCommit(s.nodes[j], Plain(0, 0));
  }

  lemma OneCommitIdx(s: State, e: Step, i: Addr)
    requires Bounded(s) && Enabled(s, e) && i < |s.nodes|
    ensures i < |Next(s, e).nodes| && s.nodes[i].commitIdx <= Next(s, e).nodes[i].commitIdx
    ensures Next(s, e).nodes[i].commitIdx <= MaxCommit(s.nodes) + if e.FinishPut? then 1 else 0
  {
    hide Next, Enabled;
    NodesGrow(s, e);
    match e
    case Deliver(p) => DeliveredCommit(s, p, i);
    case FinishPut(j) => FinishedCommit(s, j, i);
    case _ => OtherStepsDoNotCommit(s, e);
  }

  // Only the end of a put raises the largest commit index of the cluster, and by one.
  lemma {:induction false} OnlyPutsRaiseTheMaximum(n: nat, run: seq<Step>, e: Step)
    requires n > 0 && Legal(Start(n), run) && Enabled(After(Start(n), run), e)
    ensures var s := After(Start(n), run); var t := Next(s, e);
            && (!e.FinishPut? ==> MaxCommit(t.nodes) == MaxCommit(s.nodes))
            && MaxCommit(s.nodes) <= MaxCommit(t.nodes) <= MaxCommit(s.nodes) + 1
  {
    RunKeepsBounded(n, run);
    var s := After(Start(n), run);
    var t := Next(s, e);
    StepKeepsShape(s, e);
    var a :| 0 <= a < |s.nodes| && s.nodes[a].commitIdx == MaxCommit(s.nodes);
    var b :| 0 <= b < |t.nodes| && t.nodes[b].commitIdx == MaxCommit(t.nodes);
    OneCommitIdx(s, e, a);
    OneCommitIdx(s, e, b);
    assert t.nodes[a] in t.nodes;
  }
}
