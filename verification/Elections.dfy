// Who can win an election: votes per term, majorities per term, leaders per term.
module Elections {
  import opened NodeSpec
  import opened Quorum
  import opened Cluster

  ghost function Granters(s: State, term: nat, cand: Addr): (r: set<Addr>)
    ensures forall v :: v in r <==> Grant(v, term, cand) in s.grants
  {
    set g | g in s.grants && g.term == term && g.cand == cand :: g.voter
  }

  // In every run each replica votes at most once per term, its vote for itself included.
  lemma OneVotePerTerm(n: nat, run: seq<Step>, g: Grant, h: Grant)
    requires n > 0 && Legal(Start(n), run)
    requires g in After(Start(n), run).grants && h in After(Start(n), run).grants
    requires g.voter == h.voter && g.term == h.term
    ensures g.cand == h.cand
  {
    StartIsSafe(n);
    RunKeepsSafe(Start(n), run);
  }

  // So in every run, for each term, a majority votes for at most one candidate.
  lemma OneMajorityPerTerm(n: nat, run: seq<Step>, term: nat, a: Addr, b: Addr)
    requires n > 0 && Legal(Start(n), run)
    requires IsMajority(Granters(After(Start(n), run), term, a), n)
    requires IsMajority(Granters(After(Start(n), run), term, b), n)
    ensures a == b
  {
    var s := After(Start(n), run);
    var v := Overlap(Granters(s, term, a), Granters(s, term, b), n);
    OneVotePerTerm(n, run, Grant(v, term, a), Grant(v, term, b));
  }

  // ---------- leaders ----------

  // The guard of the asking loop, looked at again when the reply is used: the original does
  // not do that.
  ghost predicate InRound(s: State, e: Step) {
    (e.TakeVote? && e.p.VoteReply? && Inside(s, e.p.cand) && Counts(s.nodes[e.p.cand], e.p.choice)) ==>
      e.p.round == s.nodes[e.p.cand].term
  }

  ghost predicate AllInRound(s: State, run: seq<Step>)
    requires Legal(s, run)
    decreases |run|
  {
    run == [] ||
    (var k := |run| - 1; AllInRound(s, run[..k]) && InRound(After(s, run[..k]), run[k]))
  }

  ghost predicate Tallied(s: State, i: Addr)
    requires Inside(s, i)
  {
    var b := s.ballots[i];
    && b.round <= s.nodes[i].term
    && s.nodes[i].voteCount == |b.counted|
    && b.counted <= Granters(s, b.round, i)
  }

  ghost predicate AskingOk(s: State, a: Asking) {
    && Inside(s, a.cand)
    && a.voter != a.cand
    && a.round <= s.ballots[a.cand].round
    && (a.round == s.ballots[a.cand].round ==> a.voter !in s.ballots[a.cand].counted)
  }

  ghost predicate WinOk(s: State, w: Win) {
    IsMajority(Granters(s, w.term, w.who), |s.nodes|)
  }

  // Every vote counted so far was cast for the round being counted.
  ghost predicate Honest(s: State) {
    && Safe(s)
    && (forall i: nat | i < |s.nodes| :: Tallied(s, i))
    && (forall a | a in s.asking :: AskingOk(s, a))
    && (forall w | w in s.wins :: WinOk(s, w))
  }

  lemma GrantersGrow(s: State, e: Step, term: nat, cand: Addr)
    requires Safe(s) && Enabled(s, e)
    ensures Granters(s, term, cand) <= Granters(Next(s, e), term, cand) <= Ids(|s.nodes|)
  {
    hide Next, Cast;
    StepCasts(s, e);
    StepKeepsSafe(s, e);
  }

  lemma HandlersDoNotCount(x: NodeState)
    ensures CommitStaged(x).voteCount == x.voteCount
    ensures forall r :: DecideVote(x, r).voteCount == x.voteCount
    ensures forall term :: OnHeartbeatReply(x, term).voteCount == x.voteCount
    ensures forall m :: HeartbeatFollower(x, m).voteCount == x.voteCount
    ensures forall payload :: BeginPut(x, payload).voteCount == x.voteCount
  {}

  // Only the start of an election and the use of a reply touch the counting.
  lemma OtherStepsDoNotCount(s: State, e: Step)
    requires Safe(s) && Enabled(s, e) && !e.Timeout? && !e.TakeVote?
    ensures Next(s, e).asking == s.asking && Next(s, e).ballots == s.ballots && Next(s, e).wins == s.wins
    ensures |Next(s, e).nodes| == |s.nodes|
    ensures forall i: nat | i < |s.nodes| :: Next(s, e).nodes[i].voteCount == s.nodes[i].voteCount
  {
    hide StartElection, DecideVote, OnVoteReply, OnHeartbeatReply, HeartbeatFollower, BeginPut, CommitStaged;
    match e
    case Vote(p) => HandlersDoNotCount(s.nodes[p.to]);
    case Deliver(p) => HandlersDoNotCount(s.nodes[p.to]);
    case TakeBeat(p) => HandlersDoNotCount(s.nodes[p.to]);
    case StartPut(i, _) => HandlersDoNotCount(s.nodes[i]);
    case FinishPut(i) => HandlersDoNotCount(s.nodes[i]);
    case _ =>
  }

  // A reply that counts, in its round, is a new vote for the round being counted.
  lemma CountedReplyIsNew(s: State, e: Step)
    requires Honest(s) && Enabled(s, e) && InRound(s, e) && e.TakeVote?
    requires Counts(s.nodes[e.p.cand], e.p.choice)
    ensures e.p.round == s.ballots[e.p.cand].round == s.nodes[e.p.cand].term
    ensures e.p.voter !in s.ballots[e.p.cand].counted
    ensures e.p.voter in Granters(s, e.p.round, e.p.cand)
  {
    assert AskingOk(s, Asking(e.p.cand, e.p.voter, e.p.round));
    assert Tallied(s, e.p.cand);
    assert PacketOk(s, e.p);
  }

  lemma TimeoutKeepsTallied(s: State, j: Addr, i: Addr)
    requires Honest(s) && Enabled(s, Timeout(j)) && i < |s.nodes|
    ensures Inside(Next(s, Timeout(j)), i) && Tallied(Next(s, Timeout(j)), i)
  {
    hide Safe, WinOk, AskingOk, Granters;
    assert Tallied(s, i);
    GrantersGrow(s, Timeout(j), s.ballots[i].round, i);
    StepCasts(s, Timeout(j));
    assert Grant(j, StartElection(s.nodes[j]).term, j) in Next(s, Timeout(j)).grants;
  }

  lemma OtherBallotsStay(s: State, p: Packet, i: Addr)
    requires Enabled(s, TakeVote(p)) && Inside(s, i) && i != p.cand
    ensures var t := Next(s, TakeVote(p)); Inside(t, i) && t.ballots[i] == s.ballots[i] && t.nodes[i] == s.nodes[i]
  {}

  lemma ReplyKeepsTallied(s: State, p: Packet, i: Addr)
    requires Honest(s) && Enabled(s, TakeVote(p)) && InRound(s, TakeVote(p)) && i < |s.nodes|
    ensures Inside(Next(s, TakeVote(p)), i) && Tallied(Next(s, TakeVote(p)), i)
  {
    hide Safe, WinOk, AskingOk, Granters, InRound;
    assert Tallied(s, i);
    GrantersGrow(s, TakeVote(p), s.ballots[i].round, i);
    if i != p.cand {
      hide Next, Enabled;
      OtherBallotsStay(s, p, i);
    } else if Counts(s.nodes[p.cand], p.choice) {
      CountedReplyIsNew(s, TakeVote(p));
    }
  }

  lemma StepKeepsTallied(s: State, e: Step, i: Addr)
    requires Honest(s) && Enabled(s, e) && InRound(s, e) && i < |s.nodes|
    ensures Inside(Next(s, e), i) && Tallied(Next(s, e), i)
  {
    hide Next;
    match e
    case Timeout(j) => TimeoutKeepsTallied(s, j, i);
    case TakeVote(p) => ReplyKeepsTallied(s, p, i);
    case _ =>
      NodesGrow(s, e);
      assert Tallied(s, i);
      GrantersGrow(s, e, s.ballots[i].round, i);
      OtherStepsDoNotCount(s, e);
  }

  lemma StepKeepsAsking(s: State, e: Step, a: Asking)
    requires Honest(s) && Enabled(s, e) && InRound(s, e) && a in Next(s, e).asking
    ensures AskingOk(Next(s, e), a)
  {
    StepKeepsShape(s, e);
    if e.TakeVote? {
      assert AskingOk(s, a);
      assert AskingOk(s, Asking(e.p.cand, e.p.voter, e.p.round));
      if Counts(s.nodes[e.p.cand], e.p.choice) { CountedReplyIsNew(s, e); }
    } else if e.Timeout? {
      if a in s.asking {
        assert AskingOk(s, a);
        assert Tallied(s, a.cand);
      }
    } else {
      OtherStepsDoNotCount(s, e);
      assert AskingOk(s, a);
    }
  }

  // A node that has just become leader counted a majority in the round of its term.
  lemma NewWin(s: State, e: Step, w: Win)
    requires Honest(s) && Enabled(s, e) && InRound(s, e)
    requires w in Next(s, e).wins && w !in s.wins
    ensures Inside(Next(s, e), w.who) && Next(s, e).ballots[w.who].round == w.term
    ensures |Next(s, e).nodes| == |s.nodes|
    ensures Next(s, e).nodes[w.who].voteCount >= MajorityOf(|s.nodes|)
  {
    StepKeepsShape(s, e);
    if e.TakeVote? {
      CountedReplyIsNew(s, e);
    } else if !e.Timeout? {
      OtherStepsDoNotCount(s, e);
    }
  }

  lemma StepKeepsWin(s: State, e: Step, w: Win)
    requires Honest(s) && Enabled(s, e) && InRound(s, e) && w in Next(s, e).wins
    ensures WinOk(Next(s, e), w)
  {
    var t := Next(s, e);
    StepKeepsShape(s, e);
    GrantersGrow(s, e, w.term, w.who);
    if w in s.wins {
      assert WinOk(s, w);
      SubsetCount(Granters(s, w.term, w.who), Granters(t, w.term, w.who));
    } else {
      NewWin(s, e, w);
      StepKeepsTallied(s, e, w.who);
      SubsetCount(t.ballots[w.who].counted, Granters(t, w.term, w.who));
    }
  }

  lemma StepKeepsHonest(s: State, e: Step)
    requires Honest(s) && Enabled(s, e) && InRound(s, e)
    ensures Honest(Next(s, e))
  {
    StepKeepsSafe(s, e);
    var t := Next(s, e);
    forall i: nat | i < |t.nodes| ensures Tallied(t, i) { StepKeepsTallied(s, e, i); }
    forall a | a in t.asking ensures AskingOk(t, a) { StepKeepsAsking(s, e, a); }
    forall w | w in t.wins ensures WinOk(t, w) { StepKeepsWin(s, e, w); }
  }

  lemma {:induction false} RunKeepsHonest(n: nat, run: seq<Step>)
    requires n > 0 && Legal(Start(n), run) && AllInRound(Start(n), run)
    ensures Honest(After(Start(n), run)) && |After(Start(n), run).nodes| == n
    decreases |run|
  {
    StartIsSafe(n);
    RunKeepsSafe(Start(n), run);
    if run != [] {
      var k := |run| - 1;
      RunKeepsHonest(n, run[..k]);
      StepKeepsHonest(After(Start(n), run[..k]), run[k]);
    }
  }

  // If every yes is counted in the round that asked for it, a leader had a majority of the
  // votes of its term, and each term has at most one leader.
  lemma OneLeaderPerTerm(n: nat, run: seq<Step>, v: Win, w: Win)
    requires n > 0 && Legal(Start(n), run) && AllInRound(Start(n), run)
    requires v in After(Start(n), run).wins && w in After(Start(n), run).wins && v.term == w.term
    ensures v == w
    ensures IsMajority(Granters(After(Start(n), run), v.term, v.who), n)
  {
    RunKeepsHonest(n, run);
    var s := After(Start(n), run);
    assert WinOk(s, v) && WinOk(s, w);
    OneMajorityPerTerm(n, run, v.term, v.who, w.who);
  }
}
