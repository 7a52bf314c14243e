// When the end of a put fails: `commit` finds nothing staged, after it has appended an empty entry,
// and the lock of the node is never released.
module PutCrash {
  import opened Wrappers
  import opened NodeSpec
  import opened Cluster

  // A commit message that node `i` acts on; afterwards nothing is staged.
  ghost predicate Clears(s: State, e: Step, i: Addr)
    requires Enabled(s, e)
  {
    e.Deliver? && e.p.to == i && s.nodes[i].term <= e.p.beat.term && TakesCommit(s.nodes[i], e.p.beat)
  }

  // A put of node `i`, or a log message that it acts on; afterwards something is staged.
  ghost predicate Stages(s: State, e: Step, i: Addr)
    requires Enabled(s, e)
  {
    || (e.StartPut? && e.i == i)
    || (e.Deliver? && e.p.to == i && s.nodes[i].term <= e.p.beat.term && e.p.beat.Log?)
  }

  lemma HeartbeatStages(x: NodeState, m: Beat)
    ensures HeartbeatFollower(x, m).staged ==
            if x.term > m.term then x.staged
            else if m.Log? then Some(m.payload)
            else if TakesCommit(x, m) then None
            else x.staged
  {}

  lemma OthersDoNotStage(x: NodeState)
    ensures StartElection(x).staged == x.staged
    ensures forall r :: DecideVote(x, r).staged == x.staged
    ensures forall c, t :: OnVoteReply(x, c, t).staged == x.staged
    ensures forall t :: OnHeartbeatReply(x, t).staged == x.staged
  {}

  // What a step does to what is staged at a node that is not ending a put.
  lemma StepStages(s: State, e: Step, i: Addr)
    requires Enabled(s, e) && i < |s.nodes| && !(e.FinishPut? && e.i == i)
    ensures |Next(s, e).nodes| == |s.nodes|
    ensures Next(s, e).nodes[i].staged.None? <==> Clears(s, e, i) || (!Stages(s, e, i) && s.nodes[i].staged.None?)
  {
    NodesGrow(s, e);
    hide StartElection, DecideVote, OnVoteReply, OnHeartbeatReply, HeartbeatFollower, CommitStaged, TakesCommit, Grows;
    OthersDoNotStage(s.nodes[i]);
    if e.Deliver? && e.p.to == i { HeartbeatStages(s.nodes[i], e.p.beat); }
  }

  // What a step does to the put of a node that is neither starting nor ending one.
  lemma StepKeepsPut(s: State, e: Step, i: Addr)
    requires Enabled(s, e) && !(e.StartPut? && e.i == i) && !(e.FinishPut? && e.i == i)
    ensures i in Next(s, e).puts ==> i in s.puts && Next(s, e).puts[i].crashed == s.puts[i].crashed
  {
    hide StartElection, DecideVote, OnVoteReply, OnHeartbeatReply, HeartbeatFollower, CommitStaged, HasLed;
  }

  // The last step of the run that touched what is staged at `i` was a commit message.
  ghost predicate Cleared(s: State, run: seq<Step>, i: Addr)
    requires Legal(s, run)
    decreases |run|
  {
    run != [] &&
    var k := |run| - 1;
    var before := After(s, run[..k]);
    Clears(before, run[k], i) || (!Stages(before, run[k], i) && Cleared(s, run[..k], i))
  }

  ghost predicate PutIsStaged(s: State, i: Addr, cleared: bool) {
    i in s.puts && !s.puts[i].crashed ==> i < |s.nodes| && (s.nodes[i].staged.None? <==> cleared)
  }

  lemma StepKeepsStaged(s: State, e: Step, i: Addr, cleared: bool)
    requires Enabled(s, e) && Safe(s) && PutIsStaged(s, i, cleared)
    ensures PutIsStaged(Next(s, e), i, Clears(s, e, i) || (!Stages(s, e, i) && cleared))
  {
    StepKeepsSafe(s, e);
    if !(e.FinishPut? && e.i == i) {
      if i < |s.nodes| { StepStages(s, e, i); }
      if !(e.StartPut? && e.i == i) { StepKeepsPut(s, e, i); }
      hide Next, Enabled, Stages, Clears;
    }
  }

  lemma {:induction false} RunKeepsStaged(n: nat, run: seq<Step>, i: Addr)
    requires n > 0 && Legal(Start(n), run)
    ensures Safe(After(Start(n), run)) && PutIsStaged(After(Start(n), run), i, Cleared(Start(n), run, i))
    decreases |run|
  {
    StartIsSafe(n);
    RunKeepsSafe(Start(n), run);
    if run != [] {
      var k := |run| - 1;
      RunKeepsStaged(n, run[..k], i);
      StepKeepsStaged(After(Start(n), run[..k]), run[k], i, Cleared(Start(n), run[..k], i));
    }
  }

  // The end of a put crashes exactly if, since the put began, the node acted on a commit message
  // and on no log message after it.
  lemma CrashesExactly(n: nat, run: seq<Step>, i: Addr)
    requires n > 0 && Legal(Start(n), run) && Enabled(After(Start(n), run), FinishPut(i))
    ensures var t := Next(After(Start(n), run), FinishPut(i));
            (i in t.puts && t.puts[i].crashed) <==> Cleared(Start(n), run, i)
  {
    RunKeepsStaged(n, run, i);
  }

  // ---------- no commit message during a put ----------

  ghost predicate Undisturbed(s: State, e: Step)
    requires Enabled(s, e)
  {
    forall i | i in s.puts :: !Clears(s, e, i)
  }

  ghost predicate AllUndisturbed(s: State, run: seq<Step>)
    requires Legal(s, run)
    decreases |run|
  {
    run == [] ||
    (var k := |run| - 1; AllUndisturbed(s, run[..k]) && Undisturbed(After(s, run[..k]), run[k]))
  }

  ghost predicate NoneCrashed(s: State) {
    forall i | i in s.puts :: i < |s.nodes| && !s.puts[i].crashed && s.nodes[i].staged.Some?
  }

  lemma StepKeepsUncrashed(s: State, e: Step, i: Addr)
    requires Enabled(s, e) && Safe(s) && NoneCrashed(s) && Undisturbed(s, e) && i in Next(s, e).puts
    ensures i < |Next(s, e).nodes| && !Next(s, e).puts[i].crashed && Next(s, e).nodes[i].staged.Some?
  {
    StepKeepsSafe(s, e);
    if !(e.FinishPut? && e.i == i) {
      if i < |s.nodes| { StepStages(s, e, i); }
      if !(e.StartPut? && e.i == i) {
        StepKeepsPut(s, e, i);
        hide Next, Enabled, Stages, Clears;
      }
    }
  }

  // In a run in which no node with an open put acts on a commit message, no put ever crashes.
  lemma {:induction false} UndisturbedPutsDoNotCrash(n: nat, run: seq<Step>)
    requires n > 0 && Legal(Start(n), run) && AllUndisturbed(Start(n), run)
    ensures Safe(After(Start(n), run)) && NoneCrashed(After(Start(n), run))
    decreases |run|
  {
    StartIsSafe(n);
    RunKeepsSafe(Start(n), run);
    if run != [] {
      var k := |run| - 1;
      UndisturbedPutsDoNotCrash(n, run[..k]);
      var s := After(Start(n), run[..k]);
      forall i | i in Next(s, run[k]).puts
        ensures i < |Next(s, run[k]).nodes| && !Next(s, run[k]).puts[i].crashed && Next(s, run[k]).nodes[i].staged.Some?
      {
        StepKeepsUncrashed(s, run[k], i);
      }
    }
  }
}
