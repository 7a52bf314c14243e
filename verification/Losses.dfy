// How large a group has to be for an accepted put to be lost.
module Losses {
  import opened Wrappers
  import opened NodeSpec
  import opened Quorum
  import opened Cluster
  import opened Elections
  import opened UpToDate
  import opened AcceptedPut
  import opened AcceptedPayload
  import opened Campaigns
  import opened Scenarios

  // After the run `before` the put of `i` is accepted; in the continuation `rest` replica `c` starts
  // a round, is voted for by a majority in it, and has nothing at the place of that put.
  ghost predicate Loses(n: nat, before: seq<Step>, i: Addr, rest: seq<Step>, c: Addr, round: nat) {
    && n > 0 && Legal(Start(n), before)
    && var s := At(n, before);
    && Enabled(s, FinishPut(i)) && s.nodes[i].staged.Some?
    && Legal(s, [FinishPut(i)] + rest)
    && var t := After(s, [FinishPut(i)] + rest);
    && Grant(c, round, c) !in s.grants && IsMajority(Granters(t, round, c), n)
    && c < |t.nodes| && !Has(PlaceOf(s.puts[i]), t.nodes[c])
  }

  // ---------- one or two replicas: never ----------

  // Whatever is confirmed, whoever has a put open has its place filled or staged.
  ghost predicate HolderOk(s: State, i: Addr) {
    i in s.puts ==> s.puts[i].message.Log? && i < |s.nodes| && Has(s.puts[i].message.commitIdx, s.nodes[i])
  }

  lemma StepKeepsHolder(s: State, e: Step, i: Addr)
    requires Safe(s) && Enabled(s, e) && HolderOk(s, i)
    ensures HolderOk(Next(s, e), i)
  {
    if i in s.puts && i in Next(s, e).puts {
      OpenPutChanges(s, e, i);
      hide *;
      StepKeepsHas(s.puts[i].message.commitIdx, s, e, i);
    } else {
      hide StartElection, DecideVote, OnVoteReply, OnHeartbeatReply, HeartbeatFollower, CommitStaged, Safe, HasLed;
    }
  }

  lemma {:induction false} RunKeepsHolder(n: nat, run: seq<Step>, i: Addr)
    requires n > 0 && Legal(Start(n), run)
    ensures HolderOk(After(Start(n), run), i)
    decreases |run|
  {
    if run != [] {
      var k := |run| - 1;
      RunKeepsHolder(n, run[..k], i);
      StartIsSafe(n);
      RunKeepsSafe(Start(n), run[..k]);
      StepKeepsHolder(After(Start(n), run[..k]), run[k], i);
    }
  }

  lemma SmallMajority(n: nat, q: set<nat>, i: nat)
    requires n <= 2 && IsMajority(q, n) && i < n
    ensures i in q
  {
    if i !in q { SubsetCount(q + {i}, Ids(n)); }
  }

  lemma HolderHasPlace(n: nat, before: seq<Step>, i: Addr)
    requires n > 0 && Legal(Start(n), before) && Enabled(At(n, before), FinishPut(i))
    ensures var s := At(n, before);
            Safe(s) && |s.nodes| == n && i < n && i in s.puts && Has(PlaceOf(s.puts[i]), s.nodes[i])
  {
    StartIsSafe(n);
    hide After, Legal, Safe;
    RunKeepsSafe(Start(n), before);
    RunKeepsHolder(n, before, i);
  }

  // Every majority has the holder of the put among its voters.
  lemma SmallGroupsKeepIt(n: nat, before: seq<Step>, i: Addr, more: seq<Step>, c: Addr, round: nat)
    requires 0 < n <= 2 && Legal(Start(n), before) && Enabled(At(n, before), FinishPut(i))
    requires i in At(n, before).puts && Legal(At(n, before), more)
    requires Grant(c, round, c) !in At(n, before).grants
    requires IsMajority(Granters(After(At(n, before), more), round, c), n)
    ensures var t := After(At(n, before), more);
            c < |t.nodes| && Has(PlaceOf(At(n, before).puts[i]), t.nodes[c])
  {
    hide *;
    HolderHasPlace(n, before, i);
    var s := At(n, before);
    SmallMajority(n, Granters(After(s, more), round, c), i);
    VotedForHasIt(PlaceOf(s.puts[i]), s, more, i, c, round);
  }

  lemma SmallGroupsLoseNothing(n: nat, before: seq<Step>, i: Addr, rest: seq<Step>, c: Addr, round: nat)
    requires n <= 2
    ensures !Loses(n, before, i, rest, c, round)
  {
    hide After, Legal, IsMajority, Granters, Has, Next;
    if Loses(n, before, i, rest, c, round) {
      SmallGroupsKeepIt(n, before, i, [FinishPut(i)] + rest, c, round);
    }
  }

  // ---------- three or more: a run that loses one ----------

  // Replica 0 leads, replica 1 is the rival; the replicas from 2 on that make a majority with
  // either are in `term`.
  function Voter(n: nat, j: nat, term: nat): NodeState
    requires j < n
  {
    Initial(j, Others(j, n)).(term := term)
  }

  function Chief(n: nat): NodeState
    requires n > 0
  {
    Voter(n, 0, 1).(voteCount := n / 2 + 1, status := Leader)
  }

  function Rival(n: nat, term: nat): NodeState
    requires n > 1
  {
    Voter(n, 1, term).(voteCount := 1, status := Candidate)
  }

  ghost predicate Lineup(n: nat, s: State, chief: NodeState, rival: NodeState, term: nat) {
    && |s.nodes| == n == |s.ballots| && n >= 3
    && s.nodes[0] == chief && s.nodes[1] == rival
    && forall j: nat | 2 <= j < n :: s.nodes[j] == Voter(n, j, if j <= n / 2 + 1 then term else 0)
  }

  lemma OthersOf(n: nat, i: nat, voters: seq<nat>)
    requires i < n && forall v | v in voters :: v < n && v != i
    ensures forall v | v in voters :: v in Others(i, n)
  {
    forall v | v in voters ensures v in Others(i, n) { OthersAreAll(i, n, v); }
  }

  lemma ChiefIsElected(n: nat) returns (run: seq<Step>)
    requires n >= 3
    ensures Legal(Start(n), run) && Lineup(n, At(n, run), Chief(n), Voter(n, 1, 0), 1)
    ensures var s := At(n, run); Win(0, 1) in s.wins && s.puts == map[]
  {
    OthersOf(n, 0, Voters(n));
    hide Voters;
    run := Elect(n, [], 0, Voters(n));
  }

  // The voters of the chief, and later of the rival.
  function Voters(n: nat): (r: seq<nat>)
    requires n >= 3
    ensures |r| == n / 2 && NoDuplicates(r) && forall v :: v in r <==> 2 <= v <= n / 2 + 1
  {
    Range(2, n / 2 + 2)
  }

  lemma RivalCanAsk(n: nat, s: State, chief: NodeState, round: nat, term: nat)
    requires n > 1 && Lineup(n, s, chief, Rival(n, round), term) && term < round
    requires forall v | v in Others(1, n) :: Asking(1, v, round) in s.asking
    ensures forall v | v in Voters(n) :: CanAsk(s, 1, v, round) && Asking(1, v, round) in s.asking
  {
    OthersOf(n, 1, Voters(n));
  }

  // The rival times out, and asks the voters of the chief in the new term.
  lemma RivalAsks(n: nat, run: seq<Step>, chief: NodeState, rival: NodeState, term: nat) returns (more: seq<Step>)
    requires n > 1 && Legal(Start(n), run) && Lineup(n, At(n, run), chief, rival, term)
    requires rival.status != Leader && rival.term >= term && rival.fellow == Others(1, n)
    requires StartElection(rival) == Rival(n, rival.term + 1)
    ensures Goes(n, run, more) && Lineup(n, At(n, more), chief, Rival(n, rival.term + 1), rival.term + 1)
    ensures var s, t := At(n, run), At(n, more); var round := rival.term + 1;
            && s.wins <= t.wins && s.puts == t.puts
            && forall v | v in Voters(n) :: Yes(v, 1, round) in t.net && Asking(1, v, round) in t.asking
  {
    hide After, Legal, Voters, StartElection, CanAsk, Others;
    more := TimesOut(n, run, 1);
    RivalCanAsk(n, At(n, more), chief, rival.term + 1, term);
    more := AskAll(n, more, 1, Voters(n), rival.term + 1);
  }

  // The rival in term 2, its voters too, and nothing staged anywhere.
  lemma RivalIsAhead(n: nat) returns (run: seq<Step>)
    requires n >= 3
    ensures Legal(Start(n), run) && Lineup(n, At(n, run), Chief(n), Rival(n, 2), 2)
    ensures var s := At(n, run); Win(0, 1) in s.wins && s.puts == map[]
  {
    run := ChiefIsElected(n);
    assert StartElection(Voter(n, 1, 0)) == Rival(n, 1) && StartElection(Rival(n, 1)) == Rival(n, 2);
    hide After, Legal, StartElection;
    run := TimesOut(n, run, 1);
    run := RivalAsks(n, run, Chief(n), Rival(n, 1), 1);
  }

  // ---------- the put, confirmed by replicas in a later term ----------

  // Replica `j` is in a later term: it ignores the log message, but it replies.
  lemma EmptyConfirmation(n: nat, run: seq<Step>, i: Addr, j: Addr) returns (more: seq<Step>)
    requires n > 0 && Legal(Start(n), run)
    requires var s := At(n, run);
             && Inside(s, i) && Inside(s, j) && i in s.puts && s.puts[i].message.Log?
             && BeatTo(i, j, s.puts[i].message) in s.net && s.nodes[j].term > s.puts[i].message.term
    ensures Legal(Start(n), more) && run <= more
    ensures var s, t := At(n, run), At(n, more); var put := s.puts[i];
            && t.nodes == s.nodes && t.ballots == s.ballots && t.wins == s.wins && s.net <= t.net
            && t.puts == s.puts[i := put.(confirmed := put.confirmed + {j})]
  {
    hide After, Legal;
    var s := At(n, run);
    var m := s.puts[i].message;
    var reply := BeatReply(j, i, m, s.nodes[j].term, s.nodes[j].commitIdx);
    Extend(Start(n), run, Deliver(BeatTo(i, j, m)));
    more := run + [Deliver(BeatTo(i, j, m))];
    assert At(n, more).nodes == s.nodes;
    Extend(Start(n), more, Confirm(reply));
    more := more + [Confirm(reply)];
  }

  lemma {:induction false} EmptyConfirmations(n: nat, run: seq<Step>, i: Addr, js: seq<Addr>) returns (more: seq<Step>)
    requires n > 0 && Legal(Start(n), run) && NoDuplicates(js)
    requires var s := At(n, run);
             && Inside(s, i) && i in s.puts && s.puts[i].message.Log?
             && forall j | j in js ::
                  && Inside(s, j) && j !in s.puts[i].confirmed
                  && BeatTo(i, j, s.puts[i].message) in s.net && s.nodes[j].term > s.puts[i].message.term
    ensures Legal(Start(n), more) && run <= more
    ensures var s, t := At(n, run), At(n, more); var put := s.puts[i];
            && t.nodes == s.nodes && t.ballots == s.ballots && t.wins == s.wins
            && i in t.puts && t.puts[i] == put.(confirmed := t.puts[i].confirmed)
            && |t.puts[i].confirmed| == |put.confirmed| + |js|
    decreases |js|
  {
    if js == [] {
      more := run;
    } else {
      hide After, Legal, NoDuplicates;
      FirstOfMany(js);
      more := EmptyConfirmation(n, run, i, js[0]);
      more := EmptyConfirmations(n, more, i, js[1..]);
    }
  }

  lemma SendsPut(n: nat, run: seq<Step>, i: Addr, q: Payload) returns (more: seq<Step>)
    requires n > 0 && Legal(Start(n), run)
    requires var s := At(n, run); Inside(s, i) && HasLed(s, i) && i !in s.puts
    ensures Legal(Start(n), more) && run <= more
    ensures var s, t := At(n, run), At(n, more); var m := LogMessage(s.nodes[i], q);
            && t.nodes == s.nodes[i := BeginPut(s.nodes[i], q)] && t.ballots == s.ballots
            && t.puts == s.puts[i := Put(m, q, {}, false)]
            && forall j | j in s.nodes[i].fellow :: BeatTo(i, j, m) in t.net
  {
    hide After, Legal, HasLed;
    Extend(Start(n), run, StartPut(i, q));
    more := run + [StartPut(i, q)];
  }

  // The put of replica 0 is under way to replicas in a later term.
  lemma PutIsSent(n: nat, run: seq<Step>, js: seq<Addr>) returns (more: seq<Step>)
    requires n > 1 && Legal(Start(n), run) && Lineup(n, At(n, run), Chief(n), Rival(n, 2), 2)
    requires Win(0, 1) in At(n, run).wins && At(n, run).puts == map[]
    requires forall j | j in js :: 1 <= j <= n / 2
    ensures Legal(Start(n), more) && run <= more
    ensures Lineup(n, At(n, more), BeginPut(Chief(n), P), Rival(n, 2), 2)
    ensures var t := At(n, more); 0 in t.puts && t.puts[0] == Put(Log(1, 0, P, 0), P, {}, false)
    ensures var t := At(n, more);
            forall j | j in js :: Inside(t, j) && BeatTo(0, j, Log(1, 0, P, 0)) in t.net && t.nodes[j].term > 1
  {
    OthersOf(n, 0, js);
    WinnersLed(At(n, run), Win(0, 1));
    LineupTerms(n, At(n, run), Chief(n), Rival(n, 2), 2, js);
    assert At(n, run).nodes[0] == Chief(n) && At(n, run).ballots != [];
    hide After, Legal, HasLed, Others, Enabled, Next, BeginPut, Start, Lineup, Rival;
    more := SendsPut(n, run, 0, P);
    ChiefChanges(n, At(n, run), At(n, more), Chief(n), BeginPut(Chief(n), P), Rival(n, 2), 2);
  }

  lemma LineupTerms(n: nat, s: State, chief: NodeState, rival: NodeState, term: nat, js: seq<Addr>)
    requires Lineup(n, s, chief, rival, term) && rival.term > 1 && term > 1
    requires forall j | j in js :: 1 <= j <= n / 2
    ensures forall j | j in js :: Inside(s, j) && s.nodes[j].term > 1
  {
    hide Others;
  }

  lemma ChiefChanges(n: nat, s: State, t: State, chief: NodeState, other: NodeState, rival: NodeState, term: nat)
    requires Lineup(n, s, chief, rival, term) && t.nodes == s.nodes[0 := other] && t.ballots == s.ballots
    ensures Lineup(n, t, other, rival, term)
  {
    hide Voter;
  }

  // The put of replica 0 has a majority of replies, and nobody else has staged it.
  lemma PutIsConfirmed(n: nat, run: seq<Step>) returns (more: seq<Step>)
    requires n > 1 && Legal(Start(n), run) && Lineup(n, At(n, run), Chief(n), Rival(n, 2), 2)
    requires Win(0, 1) in At(n, run).wins && At(n, run).puts == map[]
    ensures Legal(Start(n), more) && run <= more
    ensures Lineup(n, At(n, more), BeginPut(Chief(n), P), Rival(n, 2), 2)
    ensures var t := At(n, more); 0 in t.puts && t.puts[0].message == Log(1, 0, P, 0) && !t.puts[0].crashed
    ensures |At(n, more).puts[0].confirmed| + 1 == n / 2 + 1
  {
    var js := Range(1, n / 2 + 1);
    hide *;
    more := PutIsSent(n, run, js);
    LineupHasSize(n, At(n, more), BeginPut(Chief(n), P), Rival(n, 2), 2);
    var sent := more;
    more := EmptyConfirmations(n, more, 0, js);
    LineupStays(n, At(n, sent), At(n, more), BeginPut(Chief(n), P), Rival(n, 2), 2);
  }

  lemma LineupHasSize(n: nat, s: State, chief: NodeState, rival: NodeState, term: nat)
    requires Lineup(n, s, chief, rival, term)
    ensures Inside(s, 0)
  {}

  lemma LineupStays(n: nat, s: State, t: State, chief: NodeState, rival: NodeState, term: nat)
    requires Lineup(n, s, chief, rival, term) && t.nodes == s.nodes && t.ballots == s.ballots
    ensures Lineup(n, t, chief, rival, term)
  {}

  // The chief with the put committed; nobody else has anything at its place.
  function Committed(n: nat): NodeState
    requires n > 0
  {
    CommitStaged(BeginPut(Chief(n), P))
  }

  lemma PutIsAccepted(n: nat, run: seq<Step>)
    requires n > 1 && Legal(Start(n), run) && Lineup(n, At(n, run), BeginPut(Chief(n), P), Rival(n, 2), 2)
    requires var s := At(n, run);
             0 in s.puts && !s.puts[0].crashed && |s.puts[0].confirmed| + 1 == n / 2 + 1
    ensures Enabled(At(n, run), FinishPut(0)) && At(n, run).nodes[0].staged == Some(P)
    ensures Legal(Start(n), run + [FinishPut(0)])
    ensures Lineup(n, At(n, run + [FinishPut(0)]), Committed(n), Rival(n, 2), 2)
  {
    hide After, Legal, CommitStaged;
    Extend(Start(n), run, FinishPut(0));
  }

  // The rival starts round 3 and wins it with the same voters.
  lemma RivalWins(n: nat, run: seq<Step>) returns (more: seq<Step>)
    requires n > 1 && Legal(Start(n), run) && Lineup(n, At(n, run), Committed(n), Rival(n, 2), 2)
    ensures Legal(Start(n), more) && run <= more && Win(1, 3) in At(n, more).wins
    ensures |At(n, more).nodes| == n && At(n, more).nodes[0].log == [Some(P)]
    ensures forall j: nat | 0 < j < n :: !Has(0, At(n, more).nodes[j])
    ensures forall v | v in Voters(n) :: Yes(v, 1, 3) in At(n, more).net
  {
    assert StartElection(Rival(n, 2)) == Rival(n, 3);
    assert Committed(n).log == [Some(P)];
    hide After, Legal, StartElection, Committed, Voters;
    more := RivalAsks(n, run, Committed(n), Rival(n, 2), 2);
    more := CountAll(n, more, 1, Voters(n), 3);
  }

  // With three replicas or more: the put is accepted, only its leader has it, and the leader of
  // term 3 is elected without it.
  lemma AcceptedPutCanBeLost(n: nat) returns (before: seq<Step>, rest: seq<Step>)
    requires n >= 3
    ensures Loses(n, before, 0, rest, 1, 3)
    ensures var t := After(At(n, before), [FinishPut(0)] + rest);
            && Win(1, 3) in t.wins && |t.nodes| == n && t.nodes[0].log == [Some(P)]
            && forall j: nat | 0 < j < n :: !Has(0, t.nodes[j])
  {
    hide After, Legal, Voters, Granters, Lineup, Has, IsMajority, BeginPut, Chief, Rival, Committed, Enabled, Next;
    hide Start;
    before := ConfirmedByReplies(n);
    var more := RivalWins(n, before + [FinishPut(0)]);
    RoundIsWon(n, more, 1, Voters(n), 3);
    rest := more[|before| + 1..];
    assert more[|before|..] == [FinishPut(0)] + rest && more[..|before|] == before;
    Cut(Start(n), more, |before|);
  }

  lemma ConfirmedByReplies(n: nat) returns (before: seq<Step>)
    requires n >= 3
    ensures Legal(Start(n), before)
    ensures var s := At(n, before);
            && Enabled(s, FinishPut(0)) && s.nodes[0].staged == Some(P) && s.puts[0].message == Log(1, 0, P, 0)
            && Grant(1, 3, 1) !in s.grants
    ensures Legal(Start(n), before + [FinishPut(0)])
    ensures Lineup(n, At(n, before + [FinishPut(0)]), Committed(n), Rival(n, 2), 2)
  {
    assert Rival(n, 2).term == 2;
    hide After, Legal, Lineup, BeginPut, Chief, Rival, Committed, Next, Start;
    before := RivalIsAhead(n);
    before := PutIsConfirmed(n, before);
    PutIsAccepted(n, before);
    RivalsTerm(n, At(n, before), BeginPut(Chief(n), P), Rival(n, 2), 2);
    RoundIsNew(n, before, 1, 3);
  }

  lemma RivalsTerm(n: nat, s: State, chief: NodeState, rival: NodeState, term: nat)
    requires Lineup(n, s, chief, rival, term)
    ensures Inside(s, 1) && s.nodes[1].term == rival.term
  {}

  // Some run loses an accepted put to a later winner exactly if the group has three members or
  // more.
  lemma LossExactly(n: nat)
    ensures (exists before, i, rest, c, round :: Loses(n, before, i, rest, c, round)) <==> n >= 3
  {
    if n >= 3 {
      var before, rest := AcceptedPutCanBeLost(n);
      assert Loses(n, before, 0, rest, 1, 3);
    } else {
      forall before, i, rest, c, round
        ensures !Loses(n, before, i, rest, c, round)
      {
        SmallGroupsLoseNothing(n, before, i, rest, c, round);
      }
    }
  }
}
