// When a replica leads, steps down, and whom it takes for its leader, told from the messages it
// acts on.
module Leadership {
  import opened Wrappers
  import opened NodeSpec
  import opened Cluster

  // ---------- stepping down ----------

  // The step gives replica `i` a heartbeat of its term or a later one, or a reply of a later term.
  ghost predicate StepsDown(s: State, e: Step, i: Addr)
    requires Inside(s, i)
  {
    match e
    case Deliver(p) => p.BeatTo? && p.to == i && s.nodes[i].term <= p.beat.term
    case TakeBeat(p) => p.BeatReply? && p.to == i && s.nodes[i].term < p.term
    case TakeVote(p) => p.VoteReply? && p.cand == i && !p.choice && s.nodes[i].term < p.term
    case _ => false
  }

  function TermOf(p: Packet): nat {
    match p
    case VoteAsk(_, _, request) => request.term
    case VoteReply(_, _, _, _, term) => term
    case BeatTo(_, _, beat) => beat.term
    case BeatReply(_, _, _, term, _) => term
  }

  // It is a follower of that term then, and of the sender of the heartbeat.
  lemma StepDownIsDone(s: State, e: Step, i: Addr)
    requires Enabled(s, e) && Inside(s, i) && StepsDown(s, e, i)
    ensures Inside(Next(s, e), i)
    ensures var y := Next(s, e).nodes[i];
            && y.status == Follower && y.term == TermOf(e.p)
            && (e.Deliver? ==> y.leader == Some(e.p.beat.addr))
  {}

  // A heartbeat of an earlier term changes nothing; any other is answered unless it made the
  // follower append an empty entry, at which it fails.
  lemma HeartbeatIsAnswered(s: State, p: Packet)
    requires Enabled(s, Deliver(p))
    ensures |Next(s, Deliver(p)).nodes| == |s.nodes|
    ensures var x, y := s.nodes[p.to], Next(s, Deliver(p)).nodes[p.to];
            && (p.beat.term < x.term ==> y == x)
            && Next(s, Deliver(p)).net ==
               s.net + if y.log == x.log + [None] then {}
                       else {BeatReply(p.to, p.from, p.beat, y.term, y.commitIdx)}
  {
    var x, y := s.nodes[p.to], Next(s, Deliver(p)).nodes[p.to];
    assert y.log != x.log ==> y.log[|y.log| - 1] == if x.staged.Some? then x.staged else p.beat.entry;
    assert |x.log + [None]| == |x.log| + 1 && (x.log + [None])[|x.log|] == None;
  }

  // ---------- winning ----------

  // The step gives replica `i` the last vote it needs: its own if it is alone, or a counted yes.
  ghost predicate Wins(s: State, e: Step, i: Addr)
    requires Inside(s, i)
  {
    var x := s.nodes[i];
    match e
    case Timeout(j) => j == i && x.fellow == []
    case TakeVote(p) =>
      p.VoteReply? && p.cand == i && p.choice && x.status == Candidate && x.voteCount + 1 > (|x.fellow| + 1) / 2
    case _ => false
  }

  // A replica leads after a step exactly if the step made it win, or it led and did not step down.
  lemma LeadsAfterStep(s: State, e: Step, i: Addr)
    requires Enabled(s, e) && Inside(s, i)
    ensures Inside(Next(s, e), i)
    ensures Next(s, e).nodes[i].status == Leader <==>
              Wins(s, e, i) || (s.nodes[i].status == Leader && !StepsDown(s, e, i))
    ensures Wins(s, e, i) ==> Win(i, Next(s, e).nodes[i].term) in Next(s, e).wins
  {
    hide HeartbeatFollower, CommitStaged, BeginPut, Grants;
    match e
    case Deliver(p) => StatusStays(s.nodes[p.to], p.beat);
    case FinishPut(j) => StatusStays(s.nodes[j], Plain(0, 0));
    case StartPut(j, q) => PutKeepsStatus(s.nodes[j], q);
    case _ =>
  }

  lemma StatusStays(x: NodeState, m: Beat)
    ensures HeartbeatFollower(x, m).status == if x.term <= m.term then Follower else x.status
    ensures CommitStaged(x).status == x.status
  {}

  lemma PutKeepsStatus(x: NodeState, p: Payload)
    ensures BeginPut(x, p).status == x.status
  {}

  ghost predicate WinsAt(s: State, run: seq<Step>, k: nat, i: Addr) {
    k < |run| && Legal(s, run[..k]) && Inside(After(s, run[..k]), i) && Wins(After(s, run[..k]), run[k], i)
  }

  ghost predicate StepsDownAt(s: State, run: seq<Step>, k: nat, i: Addr) {
    k < |run| && Legal(s, run[..k]) && Inside(After(s, run[..k]), i) && StepsDown(After(s, run[..k]), run[k], i)
  }

  // Step `k` made replica `i` win, and no later one made it step down.
  ghost predicate LedSince(s: State, run: seq<Step>, i: Addr, k: nat) {
    WinsAt(s, run, k, i) && forall j | k < j < |run| :: !StepsDownAt(s, run, j, i)
  }

  lemma SameMoments(s: State, run: seq<Step>, k: nat, i: Addr)
    requires run != [] && k < |run| - 1
    ensures WinsAt(s, run[..|run| - 1], k, i) == WinsAt(s, run, k, i)
    ensures StepsDownAt(s, run[..|run| - 1], k, i) == StepsDownAt(s, run, k, i)
  {
    assert run[..|run| - 1][..k] == run[..k];
  }

  ghost predicate Led(s: State, run: seq<Step>, i: Addr) {
    exists k :: LedSince(s, run, i, k)
  }

  lemma LedOneStepLonger(s: State, run: seq<Step>, i: Addr, k: nat)
    requires run != [] && k < |run| - 1
    ensures LedSince(s, run, i, k) <==>
              LedSince(s, run[..|run| - 1], i, k) && !StepsDownAt(s, run, |run| - 1, i)
  {
    hide WinsAt, StepsDownAt;
    var front := run[..|run| - 1];
    SameMoments(s, run, k, i);
    forall j: nat | j < |front|
      ensures StepsDownAt(s, front, j, i) == StepsDownAt(s, run, j, i)
    {
      SameMoments(s, run, j, i);
    }
    if LedSince(s, front, i, k) && !StepsDownAt(s, run, |front|, i) {
      forall j | k < j < |run| ensures !StepsDownAt(s, run, j, i) {
        if j < |front| { assert !StepsDownAt(s, front, j, i); }
      }
    }
    if LedSince(s, run, i, k) {
      forall j | k < j < |front| ensures !StepsDownAt(s, front, j, i) { assert !StepsDownAt(s, run, j, i); }
    }
  }

  lemma OneStepMore(s: State, run: seq<Step>, i: Addr)
    requires run != []
    ensures Led(s, run, i) <==>
              WinsAt(s, run, |run| - 1, i) || (Led(s, run[..|run| - 1], i) && !StepsDownAt(s, run, |run| - 1, i))
  {
    var last := |run| - 1;
    assert forall k: nat | LedSince(s, run, i, k) :: k <= last;
    assert forall k: nat | LedSince(s, run[..last], i, k) :: k < last;
    assert LedSince(s, run, i, last) <==> WinsAt(s, run, last, i);
    hide WinsAt, StepsDownAt, LedSince;
    forall k: nat | k < last
      ensures LedSince(s, run, i, k) <==> LedSince(s, run[..last], i, k) && !StepsDownAt(s, run, last, i)
    {
      LedOneStepLonger(s, run, i, k);
    }
  }

  // After every run a replica leads exactly if it won at some step and since then has acted on no
  // heartbeat of its term or a later one and on no reply of a later term.
  lemma {:induction false} LeadsExactly(n: nat, run: seq<Step>, i: Addr)
    requires n > 0 && Legal(Start(n), run) && i < n
    ensures Inside(After(Start(n), run), i)
    ensures After(Start(n), run).nodes[i].status == Leader <==> Led(Start(n), run, i)
    decreases |run|
  {
    if run != [] {
      var last := |run| - 1;
      LeadsExactly(n, run[..last], i);
      LeadsAfterStep(After(Start(n), run[..last]), run[last], i);
      OneStepMore(Start(n), run, i);
      hide Wins, StepsDown, Next, Enabled, Led;
    }
  }

  // ---------- whom a follower takes for its leader ----------

  // Replica `a` has won an election, of term `term` or an earlier one.
  ghost predicate LedBy(s: State, a: Addr, term: nat) {
    exists w :: w in s.wins && w.who == a && w.term <= term
  }

  ghost predicate BeatOk(s: State, p: Packet) {
    p.BeatTo? ==> p.beat.addr == p.from && LedBy(s, p.from, p.beat.term)
  }

  ghost predicate LeaderOk(s: State, i: Addr) {
    i < |s.nodes| && s.nodes[i].leader.Some? ==> LedBy(s, s.nodes[i].leader.value, s.nodes[i].term)
  }

  ghost predicate WinOk(s: State, w: Win) {
    w.who < |s.nodes| && w.term <= s.nodes[w.who].term
  }

  ghost predicate Traced(s: State) {
    && Safe(s)
    && (forall w | w in s.wins :: WinOk(s, w))
    && (forall i | i in s.puts :: HasLed(s, i))
    && (forall p | p in s.net :: BeatOk(s, p))
    && (forall i: nat | i < |s.nodes| :: LeaderOk(s, i))
  }

  lemma WinsGrow(s: State, e: Step)
    requires Enabled(s, e)
    ensures s.wins <= Next(s, e).wins
    ensures forall a, term, later | LedBy(s, a, term) && term <= later :: LedBy(Next(s, e), a, later)
    ensures forall a | HasLed(s, a) :: HasLed(Next(s, e), a)
  {
    hide StartElection, DecideVote, OnVoteReply, OnHeartbeatReply, HeartbeatFollower, CommitStaged, BeginPut;
  }

  lemma WinIsLed(s: State, i: Addr)
    requires Traced(s) && HasLed(s, i)
    ensures i < |s.nodes| && LedBy(s, i, s.nodes[i].term)
  {
    var w :| w in s.wins && w.who == i;
    assert WinOk(s, w);
  }

  lemma StepKeepsWins(s: State, e: Step, w: Win)
    requires Traced(s) && Enabled(s, e) && w in Next(s, e).wins
    ensures WinOk(Next(s, e), w)
  {
    hide DecideVote, OnHeartbeatReply, HeartbeatFollower, CommitStaged, BeginPut, Safe;
    NodesGrow(s, e);
    if w in s.wins { assert WinOk(s, w); }
  }

  lemma StepKeepsHolders(s: State, e: Step, i: Addr)
    requires Traced(s) && Enabled(s, e) && i in Next(s, e).puts
    ensures HasLed(Next(s, e), i)
  {
    WinsGrow(s, e);
    hide StartElection, DecideVote, OnVoteReply, OnHeartbeatReply, HeartbeatFollower, CommitStaged, BeginPut, Safe;
    hide HasLed;
    if i !in s.puts { assert e.StartPut? && e.i == i; }
  }

  lemma StepKeepsBeats(s: State, e: Step, p: Packet)
    requires Traced(s) && Enabled(s, e) && p in Next(s, e).net
    ensures BeatOk(Next(s, e), p)
  {
    WinsGrow(s, e);
    if p in s.net {
      assert BeatOk(s, p);
    } else if p.BeatTo? {
      hide StartElection, DecideVote, OnVoteReply, OnHeartbeatReply, HeartbeatFollower, CommitStaged, BeginPut;
      hide HasLed, LedBy;
      assert e.SendBeat? || e.SendCatchUp? || e.StartPut? || e.FinishPut?;
      WinIsLed(s, e.i);
      assert s.nodes[e.i].addr == e.i;
    }
  }

  lemma LeadersStay(x: NodeState)
    ensures StartElection(x).leader == x.leader && CommitStaged(x).leader == x.leader
    ensures forall r :: DecideVote(x, r).leader == x.leader
    ensures forall choice, term :: OnVoteReply(x, choice, term).leader == x.leader
    ensures forall term :: OnHeartbeatReply(x, term).leader == x.leader
    ensures forall payload :: BeginPut(x, payload).leader == x.leader
  {}

  lemma LeaderStays(s: State, e: Step, i: Addr)
    requires Enabled(s, e) && Inside(s, i)
    requires !(e.Deliver? && e.p.to == i && s.nodes[i].term <= e.p.beat.term)
    ensures Inside(Next(s, e), i) && Next(s, e).nodes[i].leader == s.nodes[i].leader
  {
    hide StartElection, DecideVote, OnVoteReply, OnHeartbeatReply, CommitStaged, BeginPut;
    LeadersStay(s.nodes[i]);
  }

  lemma StepKeepsLeader(s: State, e: Step, i: Addr)
    requires Traced(s) && Enabled(s, e) && i < |s.nodes|
    ensures LeaderOk(Next(s, e), i)
  {
    WinsGrow(s, e);
    NodesGrow(s, e);
    assert LeaderOk(s, i);
    if e.Deliver? && e.p.to == i && s.nodes[i].term <= e.p.beat.term {
      assert BeatOk(s, e.p);
      StepDownIsDone(s, e, i);
      hide Next;
    } else {
      LeaderStays(s, e, i);
      hide Next, LedBy, Safe;
    }
  }

  // After every run the leader a replica knows, to which it sends writers, has won an election, of
  // the term of that replica or an earlier one.
  lemma {:induction false} LeadersHaveWon(n: nat, run: seq<Step>)
    requires n > 0 && Legal(Start(n), run)
    ensures Traced(After(Start(n), run))
    decreases |run|
  {
    StartIsSafe(n);
    RunKeepsSafe(Start(n), run);
    if run != [] {
      var k := |run| - 1;
      LeadersHaveWon(n, run[..k]);
      var s, e := After(Start(n), run[..k]), run[k];
      var t := Next(s, e);
      hide Next, Enabled, After, Legal;
      forall w | w in t.wins ensures WinOk(t, w) { StepKeepsWins(s, e, w); }
      forall i | i in t.puts ensures HasLed(t, i) { StepKeepsHolders(s, e, i); }
      forall p | p in t.net ensures BeatOk(t, p) { StepKeepsBeats(s, e, p); }
      NodesGrow(s, e);
      forall i: nat | i < |t.nodes| ensures LeaderOk(t, i) { StepKeepsLeader(s, e, i); }
    }
  }
}
