// Which payload fills the place of an accepted put.  A leader that was rejected leaves its payload
// staged, and the next thing staged for the same place takes its turn; messages do not say for
// which place they are.
module AcceptedPayload {
  import opened Wrappers
  import opened NodeSpec
  import opened Quorum
  import opened Cluster
  import opened Elections
  import opened UpToDate
  import opened CommitBound
  import opened AcceptedPut

  // At place `n` the node has nothing but `p`, in its log or staged.
  predicate Only(n: nat, p: Payload, x: NodeState) {
    && (|x.log| > n ==> x.log[n] == Some(p))
    && (|x.log| == n && x.staged.Some? ==> x.staged == Some(p))
  }

  ghost predicate OnlyAt(n: nat, p: Payload, s: State) {
    forall i: nat | i < |s.nodes| :: Only(n, p, s.nodes[i])
  }

  // What a heartbeat gives a node whose log has reached place `n` is `p`.
  predicate BeatOffers(n: nat, p: Payload, x: NodeState, m: Beat) {
    |x.log| == n && x.term <= m.term ==>
      && (m.Log? ==> m.payload == p)
      && (TakesCommit(x, m) && x.staged.None? ==> m.entry == Some(p))
  }

  // What a step gives a node whose log has reached place `n` is `p`: a put, a log message, the
  // entry of a commit message where nothing is staged.
  ghost predicate Offers(n: nat, p: Payload, s: State, e: Step)
    requires Enabled(s, e)
  {
    match e
    case StartPut(i, q) => |s.nodes[i].log| == n ==> q == p
    case Deliver(d) => BeatOffers(n, p, s.nodes[d.to], d.beat)
    case FinishPut(i) => |s.nodes[i].log| == n ==> s.nodes[i].staged.Some?
    case _ => true
  }

  lemma QuietHandlers(x: NodeState)
    ensures StartElection(x).log == x.log && StartElection(x).staged == x.staged
    ensures forall r :: DecideVote(x, r).log == x.log && DecideVote(x, r).staged == x.staged
    ensures forall c, t :: OnVoteReply(x, c, t).log == x.log && OnVoteReply(x, c, t).staged == x.staged
    ensures forall t :: OnHeartbeatReply(x, t).log == x.log && OnHeartbeatReply(x, t).staged == x.staged
  {}

  lemma PutOffers(n: nat, p: Payload, x: NodeState, q: Payload)
    requires Only(n, p, x)
    ensures Only(n, p, BeginPut(x, q)) <==> (|x.log| == n ==> q == p)
  {}

  lemma CommitOffers(n: nat, p: Payload, x: NodeState)
    requires |x.log| == n || Only(n, p, x)
    ensures Only(n, p, CommitStaged(x)) <==> (|x.log| == n ==> x.staged == Some(p))
  {}

  lemma HeartbeatOffers(n: nat, p: Payload, x: NodeState, m: Beat)
    requires Only(n, p, x)
    ensures Only(n, p, HeartbeatFollower(x, m)) <==> BeatOffers(n, p, x, m)
  {
    if x.term <= m.term && !m.Log? && TakesCommit(x, m) {
      var heard := x.(leader := Some(m.addr), status := Follower, term := m.term);
      CommitOffers(n, p, if x.staged.None? then heard.(staged := m.entry) else heard);
    }
  }

  // One step keeps the place of `p` exactly if it offers nothing else for it.
  lemma StepKeepsPlace(n: nat, p: Payload, s: State, e: Step)
    requires Enabled(s, e) && OnlyAt(n, p, s)
    ensures OnlyAt(n, p, Next(s, e)) <==> Offers(n, p, s, e)
  {
    hide StartElection, DecideVote, OnVoteReply, OnHeartbeatReply, HeartbeatFollower, BeginPut, CommitStaged,
         BeatOffers;
    var t := Next(s, e);
    NodesGrow(s, e);
    match e
    case Timeout(i) => QuietHandlers(s.nodes[i]);
    case Vote(d) => QuietHandlers(s.nodes[d.to]);
    case TakeVote(d) => QuietHandlers(s.nodes[d.cand]);
    case TakeBeat(d) => QuietHandlers(s.nodes[d.to]);
    case StartPut(i, q) =>
      PutOffers(n, p, s.nodes[i], q);
      assert t.nodes[i] == BeginPut(s.nodes[i], q);
    case Deliver(d) =>
      HeartbeatOffers(n, p, s.nodes[d.to], d.beat);
      assert t.nodes[d.to] == HeartbeatFollower(s.nodes[d.to], d.beat);
    case FinishPut(i) =>
      CommitOffers(n, p, s.nodes[i]);
      assert t.nodes[i] == CommitStaged(s.nodes[i]);
    case _ =>
  }

  ghost predicate AllOffer(n: nat, p: Payload, s: State, run: seq<Step>)
    requires Legal(s, run)
    decreases |run|
  {
    run == [] ||
    (var k := |run| - 1; AllOffer(n, p, s, run[..k]) && Offers(n, p, After(s, run[..k]), run[k]))
  }

  // A step that offers nothing but `p`, whatever the state.
  predicate Harmless(p: Payload, e: Step) {
    match e
    case StartPut(_, q) => q == p
    case Deliver(d) =>
      d.BeatTo? ==> (d.beat.Log? ==> d.beat.payload == p) && (d.beat.Commit? ==> d.beat.entry == Some(p))
    case FinishPut(_) => false
    case _ => true
  }

  lemma HarmlessStep(n: nat, p: Payload, s: State, e: Step)
    requires Enabled(s, e) && Harmless(p, e)
    ensures Offers(n, p, s, e)
  {}

  lemma {:induction false} HarmlessOffers(n: nat, p: Payload, s: State, run: seq<Step>, more: seq<Step>)
    requires Legal(s, run + more) && Legal(s, run) && AllOffer(n, p, s, run)
    requires forall e | e in more :: Harmless(p, e)
    ensures AllOffer(n, p, s, run + more)
    decreases |more|
  {
    hide Next, Enabled, Offers, Harmless;
    if more == [] {
      assert run + more == run;
    } else {
      var k := |more| - 1;
      assert (run + more)[..|run + more| - 1] == run + more[..k] && (run + more)[|run + more| - 1] == more[k];
      HarmlessOffers(n, p, s, run, more[..k]);
      HarmlessStep(n, p, After(s, run + more[..k]), more[k]);
    }
  }

  lemma HarmlessRun(n: nat, p: Payload, s: State, run: seq<Step>)
    requires Legal(s, run) && forall e | e in run :: Harmless(p, e)
    ensures AllOffer(n, p, s, run)
  {
    assert [] + run == run;
    HarmlessOffers(n, p, s, [], run);
  }

  lemma HarmlessAfter(n: nat, p: Payload, s: State, first: Step, rest: seq<Step>)
    requires Enabled(s, first) && Offers(n, p, s, first)
    requires Legal(s, [first] + rest) && forall e | e in rest :: Harmless(p, e)
    ensures AllOffer(n, p, s, [first] + rest)
  {
    assert [first][..0] == [] && [first][0] == first;
    assert After(s, []) == s && Legal(s, []);
    assert AllOffer(n, p, s, []) && AllOffer(n, p, s, [first]);
    hide After, Legal, AllOffer, Next, Enabled, Offers;
    HarmlessOffers(n, p, s, [first], rest);
  }

  ghost predicate OnlyThroughout(n: nat, p: Payload, s: State, run: seq<Step>)
    requires Legal(s, run)
    decreases |run|
  {
    OnlyAt(n, p, After(s, run)) && (run == [] || OnlyThroughout(n, p, s, run[..|run| - 1]))
  }

  // At every moment of a run all nodes have only `p` at place `n` exactly if no step of the run
  // offers anything else for it.
  lemma {:induction false} PlaceIsKeptExactly(n: nat, p: Payload, s: State, run: seq<Step>)
    requires Legal(s, run) && OnlyAt(n, p, s)
    ensures OnlyThroughout(n, p, s, run) <==> AllOffer(n, p, s, run)
    decreases |run|
  {
    if run != [] {
      var k := |run| - 1;
      PlaceIsKeptExactly(n, p, s, run[..k]);
      if AllOffer(n, p, s, run[..k]) { StepKeepsPlace(n, p, After(s, run[..k]), run[k]); }
    }
  }

  // The place a put is for: the commit index its log message carries.
  function PlaceOf(put: Put): nat {
    if put.message.Log? then put.message.commitIdx else 0
  }

  // At its place the node has `p`, in its log or staged.
  predicate Holding(n: nat, p: Payload, x: NodeState) {
    (|x.log| > n && x.log[n] == Some(p)) || (|x.log| == n && x.staged == Some(p))
  }

  lemma OnlyAndHas(n: nat, p: Payload, x: NodeState)
    requires Only(n, p, x) && Has(n, x) && x.commitIdx == |x.log|
    ensures Holding(n, p, x)
  {}

  lemma PlaceStays(n: nat, p: Payload, s: State, run: seq<Step>, c: Addr)
    requires Legal(s, run) && OnlyAt(n, p, s) && AllOffer(n, p, s, run) && c < |After(s, run).nodes|
    ensures OnlyAt(n, p, After(s, run)) && Only(n, p, After(s, run).nodes[c])
  {
    PlaceIsKeptExactly(n, p, s, run);
  }

  // Through the whole run nothing but the accepted payload is offered for its place.
  ghost predicate NothingElseOffered(size: nat, before: seq<Step>, i: Addr, rest: seq<Step>)
    requires GoesOn(size, before, i, rest)
  {
    var n, p := PlaceOf(AcceptedOne(size, before, i)), AcceptedOne(size, before, i).payload;
    && AllOffer(n, p, Start(size), before)
    && AllOffer(n, p, After(Start(size), before), [FinishPut(i)] + rest)
  }

  // If all confirmations are genuine and nothing else is offered for its place, an accepted put is
  // never lost: every later winner has it, in its log or staged for its place.
  lemma {:induction false} AcceptedPutIsKept(size: nat, before: seq<Step>, i: Addr, rest: seq<Step>, c: Addr,
                                             round: nat)
    requires WinsLater(size, before, i, rest, c, round) && NothingElseOffered(size, before, i, rest)
    ensures var put, t := AcceptedOne(size, before, i), Later(size, before, i, rest);
            c < |t.nodes| && Holding(PlaceOf(put), put.payload, t.nodes[c])
  {
    AcceptedPlaceIsFilled(size, before, i, rest, c, round);
    hide After, Legal, Next, Granters, IsMajority, AllOffer, AllGenuine, Has, Holding, Enabled;
    var put := AcceptedOne(size, before, i);
    PlaceIsHeld(PlaceOf(put), put.payload, size, before, [FinishPut(i)] + rest, c);
  }

  lemma PlaceIsHeld(n: nat, p: Payload, size: nat, before: seq<Step>, more: seq<Step>, c: Addr)
    requires size > 0 && Legal(Start(size), before) && AllOffer(n, p, Start(size), before)
    requires var s := After(Start(size), before);
             && Legal(s, more) && AllOffer(n, p, s, more)
             && c < |After(s, more).nodes| && Has(n, After(s, more).nodes[c])
    ensures Holding(n, p, After(After(Start(size), before), more).nodes[c])
  {
    hide *;
    var s := After(Start(size), before);
    PlaceIsKeptThroughStart(n, p, size, before);
    PlaceStays(n, p, s, more, c);
    Append(Start(size), before, more);
    LogsAreCounted(size, before + more, c);
    OnlyAndHas(n, p, After(s, more).nodes[c]);
  }

  lemma LogsAreCounted(size: nat, run: seq<Step>, c: Addr)
    requires size > 0 && Legal(Start(size), run) && c < |After(Start(size), run).nodes|
    ensures After(Start(size), run).nodes[c].commitIdx == |After(Start(size), run).nodes[c].log|
  {
    hide *;
    StartIsSafe(size);
    RunKeepsSafe(Start(size), run);
    StartSize(size);
    EveryDatabaseIsItsLog(size, run, c);
  }

  lemma StartSize(size: nat)
    requires size > 0
    ensures |Start(size).nodes| == size
  {}

  lemma StartHasNothing(n: nat, p: Payload, size: nat)
    requires size > 0
    ensures OnlyAt(n, p, Start(size)) && |Start(size).nodes| == size
  {}

  lemma PlaceIsKeptThroughStart(n: nat, p: Payload, size: nat, run: seq<Step>)
    requires size > 0 && Legal(Start(size), run) && AllOffer(n, p, Start(size), run)
    ensures OnlyAt(n, p, After(Start(size), run))
  {
    StartHasNothing(n, p, size);
    PlaceIsKeptExactly(n, p, Start(size), run);
  }
}
