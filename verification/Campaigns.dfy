// Building blocks of runs: a node collects votes, a leader puts a payload.
module Campaigns {
  import opened Wrappers
  import opened NodeSpec
  import opened Cluster
  import opened Quorum
  import opened Elections
  import opened AcceptedPut

  ghost function At(n: nat, run: seq<Step>): State
    requires n > 0 && Legal(Start(n), run)
  {
    After(Start(n), run)
  }

  // What all building blocks do: they go on with the run, and confirm nothing that was not staged.
  ghost predicate Goes(n: nat, run: seq<Step>, more: seq<Step>) {
    n > 0 && Legal(Start(n), more) && run <= more && (AllGenuine(run) ==> AllGenuine(more))
  }

  lemma OneStep(n: nat, run: seq<Step>, e: Step)
    requires n > 0 && Legal(Start(n), run) && Enabled(At(n, run), e) && GenuineStep(e)
    ensures Goes(n, run, run + [e]) && At(n, run + [e]) == Next(At(n, run), e)
  {
    Extend(Start(n), run, e);
  }

  // ---------- votes ----------

  ghost predicate CanAsk(s: State, c: Addr, v: Addr, r: nat) {
    && Inside(s, c) && Inside(s, v) && v != c
    && s.nodes[c].status == Candidate && s.nodes[c].term == r
    && Asking(c, v, r) in s.asking
    && Grants(s.nodes[v], RequestOf(s.nodes[c], r))
  }

  function Yes(v: Addr, c: Addr, r: nat): Packet {
    VoteReply(v, c, r, true, r)
  }

  // Asking `v`, which votes yes; the reply is under way.
  lemma AskOne(n: nat, run: seq<Step>, c: Addr, v: Addr, r: nat) returns (more: seq<Step>)
    requires n > 0 && Legal(Start(n), run) && CanAsk(At(n, run), c, v, r)
    ensures Goes(n, run, more)
    ensures more == run + [Ask(Asking(c, v, r)), Vote(VoteAsk(c, v, RequestOf(At(n, run).nodes[c], r)))]
    ensures var s, t := At(n, run), At(n, more);
            && t.nodes == s.nodes[v := s.nodes[v].(term := r)] && |t.ballots| == |s.ballots|
            && t.asking == s.asking && t.puts == s.puts && t.wins == s.wins
            && s.net <= t.net && Yes(v, c, r) in t.net
  {
    var s := At(n, run);
    var request := VoteAsk(c, v, RequestOf(s.nodes[c], r));
    OneStep(n, run, Ask(Asking(c, v, r)));
    more := run + [Ask(Asking(c, v, r))];
    OneStep(n, more, Vote(request));
    more := more + [Vote(request)];
  }

  // Counting a yes.
  lemma CountOne(n: nat, run: seq<Step>, c: Addr, v: Addr, r: nat) returns (more: seq<Step>)
    requires n > 0 && Legal(Start(n), run)
    requires var s := At(n, run);
             Inside(s, c) && s.nodes[c].status == Candidate && Yes(v, c, r) in s.net && Asking(c, v, r) in s.asking
    ensures Goes(n, run, more) && more == run + [TakeVote(Yes(v, c, r))]
    ensures var s, t := At(n, run), At(n, more); var node := IncrementVote(s.nodes[c]);
            && t.nodes == s.nodes[c := node] && |t.ballots| == |s.ballots|
            && t.asking == s.asking - {Asking(c, v, r)} && t.puts == s.puts && t.net == s.net
            && t.wins == s.wins + WonBy(c, node)
  {
    OneStep(n, run, TakeVote(Yes(v, c, r)));
    more := run + [TakeVote(Yes(v, c, r))];
  }

  // A yes was cast, and so was the vote of the candidate for itself.
  lemma SaidYes(s: State, v: Addr, c: Addr, round: nat)
    requires Safe(s) && Yes(v, c, round) in s.net
    ensures v in Granters(s, round, c) && c in Granters(s, round, c)
  {
    assert PacketOk(s, Yes(v, c, round));
  }

  lemma GrantersAreMembers(s: State, term: nat, c: Addr)
    requires Safe(s)
    ensures Granters(s, term, c) <= Ids(|s.nodes|)
  {}

  lemma FirstOfMany<T>(s: seq<T>)
    requires NoDuplicates(s) && s != []
    ensures NoDuplicates(s[1..]) && s[0] !in s[1..]
    ensures forall x :: x in s <==> x == s[0] || x in s[1..]
  {
    assert s == [s[0]] + s[1..];
  }

  lemma StillCanAsk(s: State, t: State, c: Addr, v: Addr, w: Addr, r: nat)
    requires CanAsk(s, c, v, r) && CanAsk(s, c, w, r) && v != w
    requires t.nodes == s.nodes[v := s.nodes[v].(term := r)] && |t.ballots| == |s.ballots| && t.asking == s.asking
    ensures CanAsk(t, c, w, r)
  {}

  lemma {:induction false} AskAll(n: nat, run: seq<Step>, c: Addr, voters: seq<Addr>, r: nat) returns (more: seq<Step>)
    requires n > 0 && Legal(Start(n), run) && NoDuplicates(voters)
    requires forall v | v in voters :: CanAsk(At(n, run), c, v, r)
    ensures Goes(n, run, more)
    ensures var s, t := At(n, run), At(n, more);
            && |t.nodes| == |s.nodes| && |t.ballots| == |s.ballots|
            && (forall j | 0 <= j < |s.nodes| ::
                  t.nodes[j] == if j in voters then s.nodes[j].(term := r) else s.nodes[j])
            && t.asking == s.asking && t.puts == s.puts && t.wins == s.wins
            && s.net <= t.net && forall v | v in voters :: Yes(v, c, r) in t.net
    decreases |voters|
  {
    if voters == [] {
      more := run;
    } else {
      hide After, Legal, AllGenuine, NoDuplicates;
      var v, others := voters[0], voters[1..];
      FirstOfMany(voters);
      more := AskOne(n, run, c, v, r);
      forall w | w in others ensures CanAsk(At(n, more), c, w, r) { StillCanAsk(At(n, run), At(n, more), c, v, w, r); }
      hide CanAsk;
      more := AskAll(n, more, c, others, r);
    }
  }

  // Exactly the missing votes: the candidate leads its current term.
  lemma {:induction false} CountAll(n: nat, run: seq<Step>, c: Addr, voters: seq<Addr>, r: nat)
      returns (more: seq<Step>)
    requires n > 0 && Legal(Start(n), run) && NoDuplicates(voters) && voters != []
    requires var s := At(n, run);
             && Inside(s, c) && s.nodes[c].status == Candidate
             && s.nodes[c].voteCount + |voters| == s.nodes[c].Majority()
             && forall v | v in voters :: Yes(v, c, r) in s.net && Asking(c, v, r) in s.asking
    ensures Goes(n, run, more)
    ensures var s, t := At(n, run), At(n, more);
            && t.nodes == s.nodes[c := s.nodes[c].(voteCount := s.nodes[c].Majority(), status := Leader)]
            && |t.ballots| == |s.ballots| && t.puts == s.puts && t.net == s.net
            && (forall a | a in s.asking && a.cand != c :: a in t.asking)
            && s.wins <= t.wins && Win(c, s.nodes[c].term) in t.wins
    decreases |voters|
  {
    hide After, Legal, AllGenuine, NoDuplicates;
    var v, others := voters[0], voters[1..];
    FirstOfMany(voters);
    more := CountOne(n, run, c, v, r);
    if others != [] {
      more := CountAll(n, more, c, others, r);
    }
  }

  function Members(voters: seq<nat>): (r: set<nat>)
    ensures forall v :: v in r <==> v in voters
  {
    set v | v in voters
  }

  lemma {:induction false} DistinctMembers(voters: seq<nat>)
    requires NoDuplicates(voters)
    ensures |Members(voters)| == |voters|
    decreases |voters|
  {
    if voters == [] {
      assert Members(voters) == {};
    } else {
      FirstOfMany(voters);
      DistinctMembers(voters[1..]);
      assert Members(voters) == Members(voters[1..]) + {voters[0]};
    }
  }

  lemma MakeMajority(q: set<nat>, voters: seq<nat>, c: nat, n: nat)
    requires NoDuplicates(voters) && c !in voters && |voters| + 1 >= MajorityOf(n)
    requires q <= Ids(n) && c in q && forall v | v in voters :: v in q
    ensures IsMajority(q, n)
  {
    DistinctMembers(voters);
    SubsetCount(Members(voters) + {c}, q);
  }

  // Those who said yes, and the candidate itself, are a majority.
  lemma RoundIsWon(n: nat, run: seq<Step>, c: Addr, voters: seq<Addr>, round: nat)
    requires n > 0 && Legal(Start(n), run)
    requires NoDuplicates(voters) && c !in voters && voters != [] && |voters| + 1 >= MajorityOf(n)
    requires forall v | v in voters :: Yes(v, c, round) in At(n, run).net
    ensures IsMajority(Granters(At(n, run), round, c), n)
  {
    var s := At(n, run);
    StartIsSafe(n);
    RunKeepsSafe(Start(n), run);
    hide After, Legal, Next, Safe, Granters, Start;
    forall v | v in voters ensures v in Granters(s, round, c) { SaidYes(s, v, c, round); }
    SaidYes(s, voters[0], c, round);
    GrantersAreMembers(s, round, c);
    hide *;
    MakeMajority(Granters(s, round, c), voters, c, n);
  }

  lemma RoundIsNew(n: nat, run: seq<Step>, c: Addr, round: nat)
    requires n > 0 && Legal(Start(n), run) && Inside(At(n, run), c) && At(n, run).nodes[c].term < round
    ensures Grant(c, round, c) !in At(n, run).grants
  {
    StartIsSafe(n);
    hide After, Legal;
    RunKeepsSafe(Start(n), run);
  }

  // ---------- elections ----------

  lemma ElectionTerm(x: NodeState)
    ensures StartElection(x).term == x.term + 1 && StartElection(x).fellow == x.fellow
  {}

  lemma TimesOut(n: nat, run: seq<Step>, c: Addr) returns (more: seq<Step>)
    requires n > 0 && Legal(Start(n), run) && Inside(At(n, run), c) && At(n, run).nodes[c].status != Leader
    ensures Goes(n, run, more) && more == run + [Timeout(c)]
    ensures var s, t := At(n, run), At(n, more);
            && t.nodes == s.nodes[c := StartElection(s.nodes[c])] && |t.ballots| == |s.ballots|
            && s.asking <= t.asking && t.net == s.net && t.puts == s.puts && s.wins <= t.wins
            && forall j | j in s.nodes[c].fellow :: Asking(c, j, s.nodes[c].term + 1) in t.asking
  {
    hide After, Legal, AllGenuine, StartElection;
    ElectionTerm(At(n, run).nodes[c]);
    OneStep(n, run, Timeout(c));
    more := run + [Timeout(c)];
  }

  // A whole election, in which exactly `voters` vote for `c`.
  lemma Elect(n: nat, run: seq<Step>, c: Addr, voters: seq<Addr>) returns (more: seq<Step>)
    requires n > 0 && Legal(Start(n), run) && NoDuplicates(voters) && voters != []
    requires var s := At(n, run);
             && Inside(s, c) && s.nodes[c].status != Leader && s.nodes[c].Majority() == |voters| + 1
             && forall v | v in voters ::
                  v < |s.nodes| && v != c && v in s.nodes[c].fellow &&
                  Grants(s.nodes[v], RequestOf(s.nodes[c], s.nodes[c].term + 1))
    ensures Goes(n, run, more)
    ensures var s, t := At(n, run), At(n, more); var term := s.nodes[c].term + 1;
            && |t.nodes| == |s.nodes| && |t.ballots| == |s.ballots|
            && t.nodes[c] == s.nodes[c].(term := term, voteCount := |voters| + 1, status := Leader)
            && (forall j | 0 <= j < |s.nodes| && j != c ::
                  t.nodes[j] == if j in voters then s.nodes[j].(term := term) else s.nodes[j])
            && s.net <= t.net && t.puts == s.puts && s.wins <= t.wins && Win(c, term) in t.wins
  {
    var term := At(n, run).nodes[c].term + 1;
    more := TimesOut(n, run, c);
    more := AskAll(n, more, c, voters, term);
    more := CountAll(n, more, c, voters, term);
  }

  // ---------- puts ----------

  lemma LogIsTaken(x: NodeState, m: Beat)
    requires m.Log? && x.term <= m.term
    ensures Answers(x, m) && HeartbeatFollower(x, m).term == m.term
    ensures HeartbeatFollower(x, m).commitIdx == x.commitIdx
  {}

  // A leader starts to put `q`, and follower `j`, not ahead of it, stages it and confirms.
  lemma OpenPut(n: nat, run: seq<Step>, i: Addr, j: Addr, q: Payload) returns (more: seq<Step>)
    requires n > 0 && Legal(Start(n), run)
    requires var s := At(n, run);
             && Inside(s, i) && Inside(s, j) && i != j && j in s.nodes[i].fellow && s.nodes[i].addr == i
             && HasLed(s, i) && i !in s.puts
             && s.nodes[j].term <= s.nodes[i].term && s.nodes[j].commitIdx >= s.nodes[i].commitIdx
    ensures Goes(n, run, more)
    ensures var s := At(n, run); var m := LogMessage(s.nodes[i], q);
            more == run + [StartPut(i, q), Deliver(BeatTo(i, j, m)),
                           Confirm(BeatReply(j, i, m, m.term, s.nodes[j].commitIdx))]
    ensures var s, t := At(n, run), At(n, more); var m := LogMessage(s.nodes[i], q);
            && t.nodes == s.nodes[i := BeginPut(s.nodes[i], q)][j := HeartbeatFollower(s.nodes[j], m)]
            && |t.ballots| == |s.ballots| && s.net <= t.net && t.asking == s.asking && t.wins == s.wins
            && t.puts == s.puts[i := Put(m, q, {j}, false)]
  {
    hide After, Legal, AllGenuine, HeartbeatFollower, HasLed;
    var s := At(n, run);
    var m := LogMessage(s.nodes[i], q);
    LogIsTaken(s.nodes[j], m);
    OneStep(n, run, StartPut(i, q));
    more := run + [StartPut(i, q)];
    assert BeatTo(i, j, m) in At(n, more).net;
    OneStep(n, more, Deliver(BeatTo(i, j, m)));
    more := more + [Deliver(BeatTo(i, j, m))];
    var reply := BeatReply(j, i, m, m.term, s.nodes[j].commitIdx);
    OneStep(n, more, Confirm(reply));
    more := more + [Confirm(reply)];
    assert {} + {j} == {j};
    assert s.puts[i := Put(m, q, {}, false)][i := Put(m, q, {j}, false)] == s.puts[i := Put(m, q, {j}, false)];
  }

  // A whole put, accepted with that one confirmation.
  lemma PutWith(n: nat, run: seq<Step>, i: Addr, j: Addr, q: Payload) returns (more: seq<Step>)
    requires n > 0 && Legal(Start(n), run)
    requires var s := At(n, run);
             && Inside(s, i) && Inside(s, j) && i != j && j in s.nodes[i].fellow && s.nodes[i].addr == i
             && HasLed(s, i) && i !in s.puts && s.nodes[i].Majority() == 2
             && s.nodes[j].term <= s.nodes[i].term && s.nodes[j].commitIdx >= s.nodes[i].commitIdx
    ensures Goes(n, run, more) && FinishPut(i) in more
    ensures var s, t := At(n, run), At(n, more); var m := LogMessage(s.nodes[i], q);
            && t.nodes == s.nodes[i := CommitStaged(BeginPut(s.nodes[i], q))][j := HeartbeatFollower(s.nodes[j], m)]
            && |t.ballots| == |s.ballots| && t.asking == s.asking && t.wins == s.wins && t.puts == s.puts
            && s.net <= t.net
            && forall k | k in s.nodes[i].fellow :: BeatTo(i, k, CommitMessage(BeginPut(s.nodes[i], q), q)) in t.net
  {
    hide After, Legal, AllGenuine, HeartbeatFollower, CommitStaged, HasLed;
    var s := At(n, run);
    var m := LogMessage(s.nodes[i], q);
    more := OpenPut(n, run, i, j, q);
    var t := At(n, more);
    assert t.nodes[i] == BeginPut(s.nodes[i], q);
    assert t.nodes[i].staged == Some(q) && t.puts[i] == Put(m, q, {j}, false);
    OneStep(n, more, FinishPut(i));
    more := more + [FinishPut(i)];
    assert more[|more| - 1] == FinishPut(i);
    var u := At(n, more);
    assert u.nodes == t.nodes[i := CommitStaged(t.nodes[i])];
    assert u.net == t.net + ToFellows(t, i, CommitMessage(t.nodes[i], q));
    assert u.puts == t.puts - {i} && t.puts - {i} == s.puts;
    assert u.nodes == s.nodes[i := CommitStaged(t.nodes[i])][j := HeartbeatFollower(s.nodes[j], m)];
    forall k | k in s.nodes[i].fellow
      ensures BeatTo(i, k, CommitMessage(t.nodes[i], q)) in u.net
    {
      assert BeatTo(i, k, CommitMessage(t.nodes[i], q)) in ToFellows(t, i, CommitMessage(t.nodes[i], q));
    }
  }
}
