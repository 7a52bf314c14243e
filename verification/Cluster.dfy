// The replicas of one group together with everything ever sent between them.
//
// The network is a set that only grows: a packet may be delivered never, late, out of order
// or many times.  Each handler of `node.py` is one atomic step.
module Cluster {
  import opened Wrappers
  import opened NodeSpec
  import opened Quorum

  datatype Packet =
    | VoteAsk(from: Addr, to: Addr, request: VoteRequest)
    | VoteReply(voter: Addr, cand: Addr, round: nat, choice: bool, term: nat)
    | BeatTo(from: Addr, to: Addr, beat: Beat)
    | BeatReply(follower: Addr, to: Addr, beat: Beat, term: nat, commitIdx: nat)

  // A thread of `send_vote_req` that has not had its reply yet: any reply, a yes or a no, ends it
  // (the `break` of line 84 belongs to `if reply`).
  datatype Asking = Asking(cand: Addr, voter: Addr, round: nat)

  // A put that holds the lock of its node; `crashed` if `commit` failed, so that the lock is
  // never released.
  datatype Put = Put(message: Beat, payload: Payload, confirmed: set<Addr>, crashed: bool)

  // History, not read by any step: `voter` voted for `cand` in `term`.
  datatype Grant = Grant(voter: Addr, term: nat, cand: Addr)

  // History: the last round a node started and the voters it counted since.
  datatype Ballot = Ballot(round: nat, counted: set<Addr>)

  // History: `who` printed "becomes the leader of term".
  datatype Win = Win(who: Addr, term: nat)

  datatype State = State(
    nodes: seq<NodeState>,
    net: set<Packet>,
    asking: set<Asking>,
    puts: map<Addr, Put>,
    grants: set<Grant>,
    ballots: seq<Ballot>,
    wins: set<Win>)

  datatype Step =
    | Timeout(i: Addr)
    | Ask(a: Asking)
    | Vote(p: Packet)
    | TakeVote(p: Packet)
    | SendBeat(i: Addr, j: Addr)
    | SendCatchUp(i: Addr, j: Addr)
    | Deliver(p: Packet)
    | TakeBeat(p: Packet)
    | StartPut(i: Addr, payload: Payload)
    | Confirm(p: Packet)
    | FinishPut(i: Addr)
    | RejectPut(i: Addr)

  function Others(i: nat, n: nat): (r: seq<nat>)
    requires i < n
    ensures |r| == n - 1 && forall j | j in r :: j < n && j != i
  {
    seq(n - 1, k requires 0 <= k < n - 1 => if k < i then k else k + 1)
  }

  function Start(n: nat): State
    requires n > 0
  {
    State(seq(n, i requires 0 <= i < n => Initial(i, Others(i, n))), {}, {}, map[], {},
          seq(n, _ => Ballot(0, {})), {})
  }

  ghost predicate HasLed(s: State, i: Addr) {
    exists w :: w in s.wins && w.who == i
  }

  function ToFellows(s: State, i: Addr, m: Beat): set<Packet>
    requires i < |s.nodes|
  {
    set j | j in s.nodes[i].fellow :: BeatTo(i, j, m)
  }

  predicate Inside(s: State, i: Addr) {
    i < |s.nodes| == |s.ballots|
  }

  ghost predicate Enabled(s: State, e: Step) {
    match e
    case Timeout(i) => Inside(s, i) && s.nodes[i].status != Leader
    case Ask(a) =>
      && a in s.asking && Inside(s, a.cand)
      && s.nodes[a.cand].status == Candidate && s.nodes[a.cand].term == a.round
    case Vote(p) => p in s.net && p.VoteAsk? && Inside(s, p.to)
    case TakeVote(p) =>
      && p in s.net && p.VoteReply? && Inside(s, p.cand)
      && Asking(p.cand, p.voter, p.round) in s.asking
    case SendBeat(i, j) => Inside(s, i) && HasLed(s, i) && j in s.nodes[i].fellow
    case SendCatchUp(i, j) =>
      Inside(s, i) && HasLed(s, i) && j in s.nodes[i].fellow && s.nodes[i].log != []
    case Deliver(p) => p in s.net && p.BeatTo? && Inside(s, p.to)
    case TakeBeat(p) => p in s.net && p.BeatReply? && p.beat.Plain? && Inside(s, p.to)
    case StartPut(i, payload) => Inside(s, i) && HasLed(s, i) && i !in s.puts
    case Confirm(p) => p in s.net && p.BeatReply? && p.to in s.puts && p.beat == s.puts[p.to].message
    case FinishPut(i) =>
      && Inside(s, i) && i in s.puts && !s.puts[i].crashed
      && |s.puts[i].confirmed| + 1 >= s.nodes[i].Majority()
    case RejectPut(i) => i in s.puts && !s.puts[i].crashed
  }

  function WonBy(i: Addr, node: NodeState): set<Win> {
    if node.voteCount >= node.Majority() then {Win(i, node.term)} else {}
  }

  ghost function Next(s: State, e: Step): State
    requires Enabled(s, e)
  {
    match e
    case Timeout(i) =>
      var node := StartElection(s.nodes[i]);
      s.(nodes := s.nodes[i := node],
         asking := s.asking + (set j | j in node.fellow :: Asking(i, j, node.term)),
         grants := s.grants + {Grant(i, node.term, i)},
         ballots := s.ballots[i := Ballot(node.term, {i})],
         wins := s.wins + WonBy(i, node))
    case Ask(a) =>
      s.(net := s.net + {VoteAsk(a.cand, a.voter, RequestOf(s.nodes[a.cand], a.round))})
    case Vote(p) =>
      var choice := Grants(s.nodes[p.to], p.request);
      var node := DecideVote(s.nodes[p.to], p.request);
      s.(nodes := s.nodes[p.to := node],
         net := s.net + {VoteReply(p.to, p.from, p.request.term, choice, node.term)},
         grants := s.grants + if choice then {Grant(p.to, p.request.term, p.from)} else {})
    case TakeVote(p) =>
      var counts := Counts(s.nodes[p.cand], p.choice);
      var node := OnVoteReply(s.nodes[p.cand], p.choice, p.term);
      var ballot := s.ballots[p.cand];
      s.(nodes := s.nodes[p.cand := node],
         asking := s.asking - {Asking(p.cand, p.voter, p.round)},
         ballots := if counts then s.ballots[p.cand := ballot.(counted := ballot.counted + {p.voter})] else s.ballots,
         wins := s.wins + if counts then WonBy(p.cand, node) else {})
    case SendBeat(i, j) =>
      s.(net := s.net + {BeatTo(i, j, Plain(s.nodes[i].term, i))})
    case SendCatchUp(i, j) =>
      s.(net := s.net + {BeatTo(i, j, CatchUpMessage(s.nodes[i]))})
    case Deliver(p) =>
      var node := HeartbeatFollower(s.nodes[p.to], p.beat);
      s.(nodes := s.nodes[p.to := node],
         net := s.net + if Answers(s.nodes[p.to], p.beat)
                        then {BeatReply(p.to, p.from, p.beat, node.term, node.commitIdx)} else {})
    case TakeBeat(p) =>
      s.(nodes := s.nodes[p.to := OnHeartbeatReply(s.nodes[p.to], p.term)])
    case StartPut(i, payload) =>
      var m := LogMessage(s.nodes[i], payload);
      s.(nodes := s.nodes[i := BeginPut(s.nodes[i], payload)],
         net := s.net + ToFellows(s, i, m),
         puts := s.puts[i := Put(m, payload, {}, false)])
    case Confirm(p) =>
      var put := s.puts[p.to];
      s.(puts := s.puts[p.to := put.(confirmed := put.confirmed + {p.follower})])
    case FinishPut(i) =>
      var t := s.(nodes := s.nodes[i := CommitStaged(s.nodes[i])]);
      if s.nodes[i].staged.Some?
      then t.(net := s.net + ToFellows(s, i, CommitMessage(s.nodes[i], s.puts[i].payload)), puts := s.puts - {i})
      else t.(puts := s.puts[i := s.puts[i].(crashed := true)])
    case RejectPut(i) => s.(puts := s.puts - {i})
  }

  // ---------- runs ----------

  ghost predicate Legal(s: State, run: seq<Step>)
    decreases |run|, 0
  {
    run == [] ||
    (var k := |run| - 1; Legal(s, run[..k]) && Enabled(After(s, run[..k]), run[k]))
  }

  ghost function After(s: State, run: seq<Step>): State
    requires Legal(s, run)
    decreases |run|, 1
  {
    if run == [] then s else var k := |run| - 1; Next(After(s, run[..k]), run[k])
  }

  // ---------- what every step keeps ----------

  ghost predicate Shape(s: State) {
    && 0 < |s.nodes| == |s.ballots|
    && forall i | 0 <= i < |s.nodes| ::
         s.nodes[i].addr == i && |s.nodes[i].fellow| == |s.nodes| - 1 &&
         forall j | j in s.nodes[i].fellow :: j < |s.nodes| && j != i
  }

  // Votes were cast at terms the voter has reached, and one per term.
  ghost predicate VotesOnce(s: State) {
    && (forall g | g in s.grants ::
          g.voter < |s.nodes| && g.cand < |s.nodes| && g.term <= s.nodes[g.voter].term)
    && (forall g, h | g in s.grants && h in s.grants && g.voter == h.voter && g.term == h.term :: g == h)
    && (forall g | g in s.grants :: Grant(g.cand, g.term, g.cand) in s.grants)
  }

  ghost predicate PacketOk(s: State, p: Packet) {
    match p
    case VoteAsk(from, to, request) =>
      from < |s.nodes| && to < |s.nodes| && Grant(from, request.term, from) in s.grants
    case VoteReply(voter, cand, round, choice, term) =>
      voter < |s.nodes| && cand < |s.nodes| && (choice ==> Grant(voter, round, cand) in s.grants)
    case BeatTo(from, to, beat) => from < |s.nodes| && to < |s.nodes| && from != to
    case BeatReply(follower, to, beat, term, commitIdx) => follower < |s.nodes| && to < |s.nodes| && follower != to
  }

  ghost predicate TrafficOk(s: State) {
    && (forall p | p in s.net :: PacketOk(s, p))
    && (forall a | a in s.asking ::
          a.cand < |s.nodes| && a.voter < |s.nodes| && a.voter != a.cand && Grant(a.cand, a.round, a.cand) in s.grants)
    && (forall w | w in s.wins :: w.who < |s.nodes|)
    && (forall i | i in s.puts :: i < |s.nodes| && s.puts[i].confirmed <= Ids(|s.nodes|) - {i})
  }

  ghost predicate Safe(s: State) {
    Shape(s) && VotesOnce(s) && TrafficOk(s)
  }

  lemma StartIsSafe(n: nat)
    requires n > 0
    ensures Safe(Start(n))
  {}

  // Every handler keeps who a node is, takes neither its term nor its commit index back, and
  // clears what is staged only by committing it.
  ghost predicate Grows(x: NodeState, y: NodeState) {
    && y.addr == x.addr && y.fellow == x.fellow
    && x.term <= y.term && x.commitIdx <= y.commitIdx
    && (x.staged.Some? ==> x.commitIdx < y.commitIdx || y.staged.Some?)
  }

  lemma HandlersGrow(x: NodeState)
    ensures Grows(x, StartElection(x)) && Grows(x, CommitStaged(x))
    ensures forall r :: Grows(x, DecideVote(x, r))
    ensures forall choice, term :: Grows(x, OnVoteReply(x, choice, term))
    ensures forall term :: Grows(x, OnHeartbeatReply(x, term))
    ensures forall m :: Grows(x, HeartbeatFollower(x, m))
    ensures forall payload :: Grows(x, BeginPut(x, payload))
  {}

  lemma NodesGrow(s: State, e: Step)
    requires Enabled(s, e)
    ensures |Next(s, e).nodes| == |s.nodes| && |Next(s, e).ballots| == |s.ballots|
    ensures forall i | 0 <= i < |s.nodes| :: Grows(s.nodes[i], Next(s, e).nodes[i])
  {
    hide StartElection, DecideVote, OnVoteReply, OnHeartbeatReply, HeartbeatFollower, BeginPut, CommitStaged;
    match e
    case Timeout(i) => HandlersGrow(s.nodes[i]);
    case Vote(p) => HandlersGrow(s.nodes[p.to]);
    case TakeVote(p) => HandlersGrow(s.nodes[p.cand]);
    case Deliver(p) => HandlersGrow(s.nodes[p.to]);
    case TakeBeat(p) => HandlersGrow(s.nodes[p.to]);
    case StartPut(i, _) => HandlersGrow(s.nodes[i]);
    case FinishPut(i) => HandlersGrow(s.nodes[i]);
    case _ =>
  }

  lemma StepKeepsShape(s: State, e: Step)
    requires Shape(s) && Enabled(s, e)
    ensures Shape(Next(s, e)) && |Next(s, e).nodes| == |s.nodes|
  {
    hide Next;
    NodesGrow(s, e);
  }

  // The vote a step casts, if it casts one.
  ghost function Cast(s: State, e: Step): set<Grant>
    requires Enabled(s, e)
  {
    match e
    case Timeout(i) => {Grant(i, StartElection(s.nodes[i]).term, i)}
    case Vote(p) => if Grants(s.nodes[p.to], p.request) then {Grant(p.to, p.request.term, p.from)} else {}
    case _ => {}
  }

  lemma StepCasts(s: State, e: Step)
    requires Enabled(s, e)
    ensures Next(s, e).grants == s.grants + Cast(s, e)
  {
    hide StartElection, DecideVote, OnVoteReply, OnHeartbeatReply, HeartbeatFollower, BeginPut, CommitStaged, Grants;
  }

  // A vote is cast for a term the voter had not reached, by a node or by one that voted for itself.
  lemma CastIsNew(s: State, e: Step, g: Grant)
    requires Safe(s) && Enabled(s, e) && g in Cast(s, e)
    ensures g.voter < |s.nodes| == |Next(s, e).nodes| && s.nodes[g.voter].term < g.term
    ensures g.term == Next(s, e).nodes[g.voter].term
    ensures g.cand < |s.nodes| && (g.cand == g.voter || Grant(g.cand, g.term, g.cand) in s.grants)
    ensures Cast(s, e) == {g}
  {
    if e.Vote? { assert PacketOk(s, e.p); }
  }

  lemma StepKeepsVotes(s: State, e: Step)
    requires Safe(s) && Enabled(s, e)
    ensures VotesOnce(Next(s, e))
  {
    hide Next, Cast;
    var t := Next(s, e);
    NodesGrow(s, e);
    StepCasts(s, e);
    forall g | g in Cast(s, e)
      ensures g.voter < |s.nodes| && s.nodes[g.voter].term < g.term == t.nodes[g.voter].term
      ensures g.cand < |s.nodes| && (g.cand == g.voter || Grant(g.cand, g.term, g.cand) in s.grants)
      ensures Cast(s, e) == {g}
    {
      CastIsNew(s, e, g);
    }
  }

  lemma OldPacketsStayOk(s: State, e: Step, p: Packet)
    requires Safe(s) && Enabled(s, e) && p in s.net
    ensures PacketOk(Next(s, e), p)
  {
    hide Next, Cast, Enabled, VotesOnce, Grows;
    NodesGrow(s, e);
    StepCasts(s, e);
    assert PacketOk(s, p);
  }

  lemma NewPacketsAreOk(s: State, e: Step, p: Packet)
    requires Safe(s) && Enabled(s, e) && p in Next(s, e).net && p !in s.net
    ensures PacketOk(Next(s, e), p)
  {
    hide StartElection, DecideVote, OnVoteReply, OnHeartbeatReply, HeartbeatFollower, BeginPut, CommitStaged,
         Grows, VotesOnce;
    NodesGrow(s, e);
    StepCasts(s, e);
    if e.Deliver? || e.Vote? {
      assert PacketOk(s, e.p);
    }
  }

  lemma StepKeepsAskers(s: State, e: Step, a: Asking)
    requires Safe(s) && Enabled(s, e) && a in Next(s, e).asking
    ensures a.cand < |s.nodes| && a.voter < |s.nodes| && a.voter != a.cand
    ensures Grant(a.cand, a.round, a.cand) in Next(s, e).grants
  {
    hide DecideVote, OnVoteReply, OnHeartbeatReply, HeartbeatFollower, BeginPut, CommitStaged;
  }

  lemma StepKeepsPuts(s: State, e: Step)
    requires Safe(s) && Enabled(s, e)
    ensures forall w | w in Next(s, e).wins :: w.who < |s.nodes|
    ensures forall i | i in Next(s, e).puts ::
              i < |s.nodes| && Next(s, e).puts[i].confirmed <= Ids(|s.nodes|) - {i}
  {
    hide StartElection, DecideVote, OnVoteReply, OnHeartbeatReply, HeartbeatFollower, BeginPut, CommitStaged;
    if e.Confirm? { assert PacketOk(s, e.p); }
  }

  lemma StepKeepsTraffic(s: State, e: Step)
    requires Safe(s) && Enabled(s, e)
    ensures TrafficOk(Next(s, e))
  {
    hide Next, PacketOk;
    NodesGrow(s, e);
    forall p | p in Next(s, e).net ensures PacketOk(Next(s, e), p) {
      if p in s.net { OldPacketsStayOk(s, e, p); } else { NewPacketsAreOk(s, e, p); }
    }
    forall a | a in Next(s, e).asking
      ensures a.cand < |s.nodes| && a.voter < |s.nodes| && a.voter != a.cand
      ensures Grant(a.cand, a.round, a.cand) in Next(s, e).grants
    {
      StepKeepsAskers(s, e, a);
    }
    StepKeepsPuts(s, e);
  }

  lemma StepKeepsSafe(s: State, e: Step)
    requires Safe(s) && Enabled(s, e)
    ensures Safe(Next(s, e)) && |Next(s, e).nodes| == |s.nodes|
  {
    StepKeepsShape(s, e);
    StepKeepsVotes(s, e);
    StepKeepsTraffic(s, e);
  }

  lemma {:induction false} RunKeepsSafe(s: State, run: seq<Step>)
    requires Safe(s) && Legal(s, run)
    ensures Safe(After(s, run)) && |After(s, run).nodes| == |s.nodes|
    decreases |run|
  {
    if run != [] {
      var k := |run| - 1;
      RunKeepsSafe(s, run[..k]);
      StepKeepsSafe(After(s, run[..k]), run[k]);
    }
  }

  lemma Extend(s: State, run: seq<Step>, e: Step)
    requires Legal(s, run) && Enabled(After(s, run), e)
    ensures Legal(s, run + [e]) && After(s, run + [e]) == Next(After(s, run), e)
  {
    assert (run + [e])[..|run|] == run;
  }

  // One run after another is a run.
  lemma {:induction false} Append(s: State, run: seq<Step>, more: seq<Step>)
    requires Legal(s, run) && Legal(After(s, run), more)
    ensures Legal(s, run + more) && After(s, run + more) == After(After(s, run), more)
    decreases |more|
  {
    hide Next, Enabled;
    if more == [] {
      assert run + more == run;
    } else {
      var k := |more| - 1;
      Append(s, run, more[..k]);
      Extend(s, run + more[..k], more[k]);
      assert run + more == (run + more[..k]) + [more[k]];
    }
  }

  // And the two parts of a run are runs.
  lemma {:induction false} Cut(s: State, run: seq<Step>, k: nat)
    requires Legal(s, run) && k <= |run|
    ensures Legal(s, run[..k]) && Legal(After(s, run[..k]), run[k..])
    ensures After(After(s, run[..k]), run[k..]) == After(s, run)
    decreases |run|
  {
    hide Next, Enabled;
    if k == |run| {
      assert run[..k] == run && run[k..] == [];
    } else {
      var last := |run| - 1;
      Cut(s, run[..last], k);
      assert run[..last][..k] == run[..k] && run[..last][k..] + [run[last]] == run[k..];
      Extend(After(s, run[..k]), run[..last][k..], run[last]);
    }
  }
}
