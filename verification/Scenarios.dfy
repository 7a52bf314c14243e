// Runs that show what the election and the put do not guarantee.
module Scenarios {
  import opened Wrappers
  import opened NodeSpec
  import opened Cluster
  import opened Quorum
  import opened Elections
  import opened AcceptedPut
  import opened AcceptedPayload
  import opened Campaigns

  // ---------- a vote counted in a later round: two leaders of one term ----------

  // The members from `a` up to `b`.
  function Range(a: nat, b: nat): (r: seq<nat>)
    requires a <= b
    ensures |r| == b - a && NoDuplicates(r) && forall v :: v in r <==> a <= v < b
  {
    if a == b then []
    else
      var r := Range(a, b - 1);
      assert forall i | 0 <= i < |r| :: r[i] in r;
      r + [b - 1]
  }

  lemma OthersAreAll(i: nat, n: nat, j: nat)
    requires i < n && j < n && i != j
    ensures j in Others(i, n)
  {
    assert Others(i, n)[if j < i then j else j - 1] == j;
  }

  function Asked(n: nat, j: nat): NodeState
    requires j < n
  {
    Initial(j, Others(j, n)).(
      term := if j <= n / 2 then 1 else 0,
      voteCount := if j == 0 then 1 else 0,
      status := if j == 0 then Candidate else Follower)
  }

  // Replica 0 has asked in term 1 and a majority votes yes, but no reply is back yet.
  ghost predicate Uncounted(n: nat, s: State) {
    && |s.nodes| == n == |s.ballots|
    && (forall j | 0 <= j < n :: s.nodes[j] == Asked(n, j))
    && forall v | 1 <= v <= n / 2 :: Yes(v, 0, 1) in s.net && Asking(0, v, 1) in s.asking
  }

  lemma FirstRound(n: nat) returns (run: seq<Step>)
    requires n >= 2
    ensures n > 0 && Legal(Start(n), run)
    ensures var s := At(n, run);
            && |s.nodes| == n == |s.ballots|
            && s.nodes[0] == Asked(n, 0)
            && (forall j | 1 <= j < n :: s.nodes[j] == Initial(j, Others(j, n)))
            && forall j | 1 <= j < n :: Asking(0, j, 1) in s.asking
  {
    run := TimesOut(n, [], 0);
    hide After, Legal;
    forall j | 1 <= j < n ensures Asking(0, j, 1) in At(n, run).asking { OthersAreAll(0, n, j); }
  }

  lemma UncountedVotes(n: nat) returns (run: seq<Step>)
    requires n >= 2
    ensures n > 0 && Legal(Start(n), run) && Uncounted(n, At(n, run))
  {
    var first := FirstRound(n);
    var voters := Range(1, n / 2 + 1);
    hide After, Legal, Range;
    forall v | v in voters ensures CanAsk(At(n, first), 0, v, 1) {}
    hide CanAsk;
    run := AskAll(n, first, 0, voters, 1);
  }

  // Replica 1 starts term 2 and is voted for by all of them, replica 0 included, which takes over
  // the term but stays a candidate.
  lemma RivalAsks(n: nat, run: seq<Step>, voters: seq<Addr>) returns (more: seq<Step>)
    requires n >= 2 && Legal(Start(n), run) && Uncounted(n, At(n, run))
    requires NoDuplicates(voters) && forall v :: v in voters <==> v == 0 || 2 <= v <= n / 2
    ensures Goes(n, run, more)
    ensures var t := At(n, more);
            && |t.nodes| == n == |t.ballots|
            && t.nodes[0] == Asked(n, 0).(term := 2)
            && t.nodes[1] == Asked(n, 1).(term := 2, voteCount := 1, status := Candidate)
            && (forall v | v in voters :: Yes(v, 1, 2) in t.net && Asking(1, v, 2) in t.asking)
            && (forall v | 1 <= v <= n / 2 :: Yes(v, 0, 1) in t.net && Asking(0, v, 1) in t.asking)
  {
    more := TimesOut(n, run, 1);
    hide After, Legal;
    forall v | v in voters ensures CanAsk(At(n, more), 1, v, 2) { OthersAreAll(1, n, v); }
    hide CanAsk;
    more := AskAll(n, more, 1, voters, 2);
  }

  // After replica 1 has won term 2, replica 0, in term 2 and still a candidate, counts the votes
  // of its first round and leads term 2 too.
  lemma TwoLeadersInOneTerm(n: nat) returns (run: seq<Step>)
    requires n >= 2
    ensures n > 0 && Legal(Start(n), run)
    ensures Win(0, 2) in At(n, run).wins && Win(1, 2) in At(n, run).wins
  {
    run := UncountedVotes(n);
    var rest := Range(2, n / 2 + 1);
    var voters := [0] + rest;
    assert 0 !in rest && NoDuplicates(voters);
    assert forall v :: v in voters <==> v == 0 || v in rest;
    assert |voters| + 1 == n / 2 + 1 && |Range(1, n / 2 + 1)| == n / 2;
    hide After, Legal;
    run := RivalAsks(n, run, voters);
    run := CountAll(n, run, 1, voters, 2);
    run := CountAll(n, run, 0, Range(1, n / 2 + 1), 1);
  }

  ghost predicate TwoLeaders(n: nat, run: seq<Step>) {
    n > 0 && Legal(Start(n), run) &&
    exists v, w :: v in At(n, run).wins && w in At(n, run).wins && v.term == w.term && v != w
  }

  // Some run has two leaders in one term exactly if the group has two members or more.
  lemma TwoLeadersExactly(n: nat)
    requires n > 0
    ensures (exists run :: TwoLeaders(n, run)) <==> n >= 2
  {
    if n >= 2 {
      var run := TwoLeadersInOneTerm(n);
      assert TwoLeaders(n, run);
    } else {
      forall run | Legal(Start(n), run)
        ensures !TwoLeaders(n, run)
      {
        StartIsSafe(n);
        RunKeepsSafe(Start(n), run);
      }
    }
  }

  // ---------- three replicas ----------

  const P := Payload("u:dropbox/a.txt", Doc("1", "text"))
  const Q := Payload("u:dropbox/b.txt", Doc("1", "other"))

  ghost predicate Three(run: seq<Step>, a: NodeState, b: NodeState, c: NodeState) {
    Legal(Start(3), run) && At(3, run).nodes == [a, b, c] && |At(3, run).ballots| == 3
  }

  function Replica(i: nat, term: nat, status: Status, votes: nat): NodeState
    requires i < 3
  {
    Initial(i, Others(i, 3)).(term := term, status := status, voteCount := votes)
  }

  lemma OthersOfThree()
    ensures Others(0, 3) == [1, 2] && Others(1, 3) == [0, 2] && Others(2, 3) == [0, 1]
  {}

  lemma WinnersLed(s: State, w: Win)
    requires w in s.wins
    ensures HasLed(s, w.who)
  {}

  lemma StepsStay(run: seq<Step>, more: seq<Step>, e: Step)
    requires run <= more && e in run
    ensures e in more
  {
    var k :| 0 <= k < |run| && run[k] == e;
    assert more[k] == e;
  }

  // Replica 0 leads term 1 with the vote of 2.
  lemma FirstLeader() returns (run: seq<Step>)
    ensures Three(run, Replica(0, 1, Leader, 2), Replica(1, 0, Follower, 0), Replica(2, 1, Follower, 0))
    ensures var s := At(3, run); Win(0, 1) in s.wins && s.puts == map[]
    ensures AllGenuine(run) && forall e | e in run :: Harmless(P, e)
  {
    OthersOfThree();
    run := TimesOut(3, [], 0);
    hide After, Legal, AllGenuine;
    run := AskOne(3, run, 0, 2, 1);
    run := CountOne(3, run, 0, 2, 1);
  }

  // ---------- a rejected put in between: an accepted put is replaced ----------

  // Replica 0 has put P with the confirmation of 2, which staged it; nobody hears of the commit.
  lemma FirstPut() returns (run: seq<Step>)
    ensures Three(run, CommitStaged(BeginPut(Replica(0, 1, Leader, 2), P)), Replica(1, 0, Follower, 0),
                  Replica(2, 1, Follower, 0).(staged := Some(P), leader := Some(0)))
    ensures At(3, run).puts == map[] && AllGenuine(run) && FinishPut(0) in run
  {
    OthersOfThree();
    var first := FirstLeader();
    WinnersLed(At(3, first), Win(0, 1));
    hide After, Legal, HasLed, AllGenuine;
    run := PutWith(3, first, 0, 2, P);
  }

  function Second(staged: Option<Payload>): NodeState {
    Replica(2, 2, Leader, 2).(staged := staged, leader := Some(0))
  }

  // Replica 2 leads term 2 with P staged.
  lemma SecondLeader() returns (run: seq<Step>)
    ensures Three(run, CommitStaged(BeginPut(Replica(0, 1, Leader, 2), P)), Replica(1, 2, Follower, 0), Second(Some(P)))
    ensures var s := At(3, run); s.puts == map[] && HasLed(s, 2)
    ensures AllGenuine(run) && FinishPut(0) in run
  {
    OthersOfThree();
    var first := FirstPut();
    var x := Replica(2, 1, Follower, 0).(staged := Some(P), leader := Some(0));
    assert Grants(Replica(1, 0, Follower, 0), RequestOf(x, 2)) && x.Majority() == 2 && x.fellow == [0, 1];
    assert x.(term := 2, voteCount := 2, status := Leader) == Second(Some(P)) && x.status == Follower && x.term == 1;
    assert Replica(1, 0, Follower, 0).(term := 2) == Replica(1, 2, Follower, 0);
    hide After, Legal, AllGenuine, CommitStaged, Grants, RequestOf, BeginPut, Replica, Second, HasLed;
    run := Elect(3, first, 2, [1]);
    StepsStay(first, run, FinishPut(0));
    WinnersLed(At(3, run), Win(2, 2));
  }

  // It puts what it has staged, as every new leader does, and is rejected: nobody answers in time.
  lemma RejectedPut() returns (run: seq<Step>)
    ensures Three(run, CommitStaged(BeginPut(Replica(0, 1, Leader, 2), P)), Replica(1, 2, Follower, 0), Second(Some(P)))
    ensures var s := At(3, run); s.puts == map[] && HasLed(s, 2)
    ensures AllGenuine(run) && FinishPut(0) in run
  {
    var first := SecondLeader();
    hide After, Legal, AllGenuine, CommitStaged, Replica;
    OneStep(3, first, StartPut(2, P));
    var second := first + [StartPut(2, P)];
    OneStep(3, second, RejectPut(2));
    run := second + [RejectPut(2)];
    assert At(3, run).puts == map[];
  }

  // The next put of replica 2 stages Q in its stead; replica 1 takes it and its commit.
  lemma NextPut() returns (run: seq<Step>)
    ensures Three(run, CommitStaged(BeginPut(Replica(0, 1, Leader, 2), P)),
                  CommitStaged(Replica(1, 2, Follower, 0).(staged := Some(Q), leader := Some(2))),
                  CommitStaged(Second(Some(Q))))
    ensures AllGenuine(run) && FinishPut(0) in run && FinishPut(2) in run
  {
    OthersOfThree();
    var first := RejectedPut();
    hide After, Legal, AllGenuine, HasLed;
    var second := PutWith(3, first, 2, 1, Q);
    var commit := BeatTo(2, 1, CommitMessage(Second(Some(Q)), Q));
    assert BeginPut(Second(Some(P)), Q) == Second(Some(Q));
    assert commit in At(3, second).net;
    OneStep(3, second, Deliver(commit));
    run := second + [Deliver(commit)];
    StepsStay(first, run, FinishPut(0));
    StepsStay(second, run, FinishPut(2));
  }

  // All confirmations are genuine, the put of P was accepted, and the winner of term 3 has Q in
  // the place of P, and P nowhere.
  lemma AcceptedPutCanBeReplaced() returns (run: seq<Step>)
    ensures Legal(Start(3), run) && AllGenuine(run) && FinishPut(0) in run
    ensures var s := At(3, run);
            && |s.nodes| == 3 && Win(1, 3) in s.wins
            && s.nodes[0].log == [Some(P)]
            && forall i | 1 <= i < 3 ::
                 s.nodes[i].log == [Some(Q)] && s.nodes[i].staged.None? && P.key !in s.nodes[i].db
  {
    OthersOfThree();
    var first := NextPut();
    hide After, Legal, AllGenuine;
    run := Elect(3, first, 1, [2]);
    StepsStay(first, run, FinishPut(0));
  }

  // ---------- a commit between the two halves of a put: the put crashes ----------

  // Replica 0, leader of term 1, has a put of P open that replica 1 has confirmed.
  ghost predicate Confirmed(run: seq<Step>) {
    && Three(run, BeginPut(Replica(0, 1, Leader, 2), P),
             Replica(1, 1, Follower, 0).(staged := Some(P), leader := Some(0)), Replica(2, 1, Follower, 0))
    && At(3, run).puts == map[0 := Put(Log(1, 0, P, 0), P, {1}, false)]
    && AllGenuine(run) && forall e | e in run :: Harmless(P, e)
  }

  lemma ConfirmedPut() returns (run: seq<Step>)
    ensures Confirmed(run)
  {
    OthersOfThree();
    var first := FirstLeader();
    WinnersLed(At(3, first), Win(0, 1));
    hide After, Legal, HasLed, AllGenuine;
    run := OpenPut(3, first, 0, 1, P);
  }

  // The put is accepted, and replica 1, which confirmed it, asks for votes in term 2.
  lemma ConfirmerAsks(before: seq<Step>) returns (rest: seq<Step>)
    requires Confirmed(before)
    ensures Legal(Start(3), before + ([FinishPut(0)] + rest)) && forall e | e in rest :: Harmless(P, e)
    ensures Yes(2, 1, 2) in At(3, before + ([FinishPut(0)] + rest)).net
  {
    OthersOfThree();
    hide After, Legal, AllGenuine;
    OneStep(3, before, FinishPut(0));
    var accepted := before + [FinishPut(0)];
    var more := TimesOut(3, accepted, 1);
    assert 2 in [0, 2];
    more := AskOne(3, more, 1, 2, 2);
    rest := more[|accepted|..];
    assert more == before + ([FinishPut(0)] + rest);
  }

  lemma ConfirmedIsReady(before: seq<Step>)
    requires Confirmed(before)
    ensures var s := At(3, before);
            && Enabled(s, FinishPut(0)) && Offers(0, P, s, FinishPut(0))
            && s.puts[0] == Put(Log(1, 0, P, 0), P, {1}, false)
            && Inside(s, 1) && s.nodes[1].term == 1
  {
    OthersOfThree();
    hide After, Legal, AllGenuine;
  }

  // It wins: confirmations are genuine and nothing but P is ever offered, which is what
  // `AcceptedPayload.AcceptedPutIsKept` asks.
  lemma AcceptedPutIsElected() returns (before: seq<Step>, rest: seq<Step>)
    ensures WinsLater(3, before, 0, rest, 1, 2) && NothingElseOffered(3, before, 0, rest)
  {
    before := ConfirmedPut();
    rest := ConfirmerAsks(before);
    var more := before + ([FinishPut(0)] + rest);
    assert more[..|before|] == before && more[|before|..] == [FinishPut(0)] + rest;
    hide After, Legal, AllGenuine, Enabled, Next, Harmless, AllOffer, Offers, IsMajority, Granters, Three,
         Replica, Start;
    ConfirmedIsReady(before);
    Cut(Start(3), more, |before|);
    RoundIsWon(3, more, 1, [2], 2);
    RoundIsNew(3, before, 1, 2);
    HarmlessRun(0, P, Start(3), before);
    HarmlessAfter(0, P, At(3, before), FinishPut(0), rest);
  }

  // Replica 1 leads term 2 and puts what it has staged.
  lemma OvertakingPut() returns (run: seq<Step>)
    ensures Legal(Start(3), run)
    ensures var s := At(3, run);
            && |s.nodes| == 3 == |s.ballots|
            && s.nodes[0] == BeginPut(Replica(0, 1, Leader, 2), P)
            && s.puts == map[0 := Put(Log(1, 0, P, 0), P, {1}, false)]
            && BeatTo(1, 0, Commit(2, 1, Some(P), Some(0))) in s.net
  {
    OthersOfThree();
    var first := ConfirmedPut();
    hide After, Legal, AllGenuine;
    var second := Elect(3, first, 1, [2]);
    WinnersLed(At(3, second), Win(1, 2));
    hide HasLed;
    run := PutWith(3, second, 1, 2, P);
  }

  // Its commit message reaches replica 0, whose own put then has nothing left to commit: it fails
  // after an empty entry was appended, and the lock stays taken.
  lemma PutCanCrash() returns (run: seq<Step>)
    ensures Legal(Start(3), run)
    ensures var s := At(3, run);
            && 0 in s.puts && s.puts[0].crashed
            && |s.nodes| == 3 && s.nodes[0].log == [Some(P), None]
  {
    OthersOfThree();
    var first := OvertakingPut();
    hide After, Legal;
    var commit := BeatTo(1, 0, Commit(2, 1, Some(P), Some(0)));
    Extend(Start(3), first, Deliver(commit));
    var second := first + [Deliver(commit)];
    Extend(Start(3), second, FinishPut(0));
    run := second + [FinishPut(0)];
  }
}
