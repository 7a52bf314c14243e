// Replication while one leader stays: its messages reach each follower once and in the order
// sent, after any delay.
module SingleLeader {
  import opened Wrappers
  import opened NodeSpec

  // A follower and the messages on their way to it.
  datatype Link = Link(node: NodeState, channel: seq<Beat>)

  datatype OpenPut = Closed | Open(payload: Payload, confirmed: set<nat>)

  datatype Group = Group(leader: NodeState, followers: seq<Link>, put: OpenPut)

  datatype Step =
    | SendBeat(i: nat)
    | SendCatchUp(i: nat)
    | Deliver(i: nat)
    | StartPut(payload: Payload)
    | Confirm(i: nat)
    | FinishPut
    | RejectPut

  predicate Enabled(g: Group, e: Step) {
    match e
    case SendBeat(i) => i < |g.followers|
    case SendCatchUp(i) => i < |g.followers| && g.leader.log != []
    case Deliver(i) => i < |g.followers| && g.followers[i].channel != []
    case StartPut(payload) => g.put.Closed?
    case Confirm(i) => g.put.Open? && i < |g.followers| && forall m | m in g.followers[i].channel :: !m.Log?
    case FinishPut => g.put.Open? && |g.put.confirmed| + 1 >= g.leader.Majority()
    case RejectPut => g.put.Open?
  }

  function Send(f: Link, m: Beat): Link {
    f.(channel := f.channel + [m])
  }

  function SendAll(fs: seq<Link>, m: Beat): seq<Link> {
    seq(|fs|, i requires 0 <= i < |fs| => Send(fs[i], m))
  }

  function Take(f: Link): Link
    requires f.channel != []
  {
    Link(HeartbeatFollower(f.node, f.channel[0]), f.channel[1..])
  }

  function Next(g: Group, e: Step): Group
    requires Enabled(g, e)
  {
    match e
    case SendBeat(i) =>
      g.(followers := g.followers[i := Send(g.followers[i], Plain(g.leader.term, g.leader.addr))])
    case SendCatchUp(i) =>
      g.(followers := g.followers[i := Send(g.followers[i], CatchUpMessage(g.leader))])
    case Deliver(i) =>
      g.(followers := g.followers[i := Take(g.followers[i])])
    case StartPut(payload) =>
      Group(BeginPut(g.leader, payload), SendAll(g.followers, LogMessage(g.leader, payload)), Open(payload, {}))
    case Confirm(i) => g.(put := g.put.(confirmed := g.put.confirmed + {i}))
    case FinishPut =>
      Group(CommitStaged(g.leader), SendAll(g.followers, CommitMessage(g.leader, g.put.payload)), Closed)
    case RejectPut => g.(put := Closed)
  }

  predicate Legal(g: Group, run: seq<Step>)
    decreases |run|
  {
    run == [] || (Enabled(g, run[0]) && Legal(Next(g, run[0]), run[1..]))
  }

  function After(g: Group, run: seq<Step>): Group
    requires Legal(g, run)
    decreases |run|
  {
    if run == [] then g else After(Next(g, run[0]), run[1..])
  }

  // ---------- draining a channel ----------

  function Drain(s: NodeState, q: seq<Beat>): NodeState
    decreases |q|
  {
    if q == [] then s else Drain(HeartbeatFollower(s, q[0]), q[1..])
  }

  lemma {:induction false} DrainSnoc(s: NodeState, q: seq<Beat>, m: Beat)
    ensures Drain(s, q + [m]) == HeartbeatFollower(Drain(s, q), m)
    decreases |q|
  {
    if q != [] {
      DrainSnoc(HeartbeatFollower(s, q[0]), q[1..], m);
      assert (q + [m])[1..] == q[1..] + [m];
    }
  }

  lemma {:induction false} DrainOnlyAppends(s: NodeState, q: seq<Beat>)
    ensures s.log <= Drain(s, q).log && s.term <= Drain(s, q).term
    decreases |q|
  {
    if q != [] {
      DrainOnlyAppends(HeartbeatFollower(s, q[0]), q[1..]);
    }
  }

  // ---------- the invariant ----------

  // Once it has taken what is on its way, the follower stores what the leader stores, and
  // during a put it has the payload staged.
  ghost predicate InStep(g: Group, f: Link) {
    var d := Drain(f.node, f.channel);
    && Consistent(f.node)
    && d.log == g.leader.log && d.commitIdx == g.leader.commitIdx && d.db == g.leader.db
    && d.term <= g.leader.term
    && (g.put.Open? ==> d.staged == Some(g.put.payload))
  }

  ghost predicate Good(g: Group) {
    && Consistent(g.leader)
    && (g.put.Open? ==> g.leader.staged == Some(g.put.payload))
    && (forall f | f in g.followers :: InStep(g, f))
  }

  // A fresh leadership: nothing under way, all logs equal, anything staged anywhere.
  ghost predicate Fresh(g: Group) {
    && g.put.Closed? && Consistent(g.leader)
    && (forall f | f in g.followers ::
          f.channel == [] && Consistent(f.node) && f.node.log == g.leader.log && f.node.term <= g.leader.term)
  }

  lemma FreshIsGood(g: Group)
    requires Fresh(g)
    ensures Good(g)
  {}

  lemma SendKeepsInStep(g: Group, h: Group, f: Link, m: Beat)
    requires InStep(g, f)
    requires Consistent(h.leader) && h.leader.term == g.leader.term == m.term
    requires var d := HeartbeatFollower(Drain(f.node, f.channel), m);
             && d.log == h.leader.log && d.commitIdx == h.leader.commitIdx && d.db == h.leader.db
             && (h.put.Open? ==> d.staged == Some(h.put.payload))
    ensures InStep(h, Send(f, m))
  {
    DrainSnoc(f.node, f.channel, m);
  }

  lemma StepKeepsInStep(g: Group, e: Step, k: nat)
    requires Good(g) && Enabled(g, e) && k < |g.followers|
    ensures |Next(g, e).followers| == |g.followers| && InStep(Next(g, e), Next(g, e).followers[k])
  {
    var h := Next(g, e);
    var f := g.followers[k];
    assert InStep(g, f);
    match e
    case SendBeat(i) => if i == k { SendKeepsInStep(g, h, f, Plain(g.leader.term, g.leader.addr)); }
    case SendCatchUp(i) => if i == k { SendKeepsInStep(g, h, f, CatchUpMessage(g.leader)); }
    case Deliver(i) => if i == k { HeartbeatKeepsConsistent(f.node, f.channel[0]); }
    case StartPut(payload) => SendKeepsInStep(g, h, f, LogMessage(g.leader, payload));
    case FinishPut =>
      CommitKeepsConsistent(g.leader);
      SendKeepsInStep(g, h, f, CommitMessage(g.leader, g.put.payload));
    case Confirm(i) =>
    case RejectPut =>
  }

  lemma StepKeepsGood(g: Group, e: Step)
    requires Good(g) && Enabled(g, e)
    ensures Good(Next(g, e))
  {
    var h := Next(g, e);
    if e.FinishPut? { CommitKeepsConsistent(g.leader); }
    forall k: nat | k < |h.followers|
      ensures InStep(h, h.followers[k])
    {
      StepKeepsInStep(g, e, k);
    }
  }

  lemma {:induction false} RunKeepsGood(g: Group, run: seq<Step>)
    requires Good(g) && Legal(g, run)
    ensures Good(After(g, run)) && |After(g, run).followers| == |g.followers|
    decreases |run|
  {
    if run != [] {
      StepKeepsGood(g, run[0]);
      RunKeepsGood(Next(g, run[0]), run[1..]);
    }
  }

  // At every moment, through rejected puts too, each follower's log is a prefix of the
  // leader's and its database is the replay of its own log.
  lemma FollowersArePrefixes(g: Group, run: seq<Step>, i: nat)
    requires Fresh(g) && Legal(g, run) && i < |g.followers|
    ensures var h := After(g, run);
            && |h.followers| == |g.followers|
            && h.followers[i].node.log <= h.leader.log
            && h.followers[i].node.db == Replay(h.followers[i].node.log)
            && h.leader.db == Replay(h.leader.log)
  {
    FreshIsGood(g);
    RunKeepsGood(g, run);
    var f := After(g, run).followers[i];
    assert InStep(After(g, run), f);
    DrainOnlyAppends(f.node, f.channel);
  }

  // Taking what is left in the channel makes log and database equal to the leader's.
  lemma DrainedFollowersAreEqual(g: Group, run: seq<Step>, i: nat)
    requires Fresh(g) && Legal(g, run) && i < |g.followers|
    ensures var h := After(g, run);
            && |h.followers| == |g.followers|
            && var d := Drain(h.followers[i].node, h.followers[i].channel);
            d.log == h.leader.log && d.db == h.leader.db && d.commitIdx == h.leader.commitIdx
  {
    FreshIsGood(g);
    RunKeepsGood(g, run);
    assert InStep(After(g, run), After(g, run).followers[i]);
  }
}
