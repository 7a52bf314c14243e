// What one replica of the block store does, as functions on its state.
//
// A handler of `node.py` is one atomic step here.  The class in NodeImpl.dfy is the
// imperative form; each of its methods is proved to compute the function of the same name.
module NodeSpec {
  import opened Wrappers

  datatype Status = Follower | Candidate | Leader

  // A replica is named by its position in the list of addresses.
  type Addr = nat

  // A stored value: the deletion mark, or a document with its version number.
  datatype Value = Tombstone | Doc(version: string, data: string)

  datatype Payload = Payload(key: string, value: Value)

  // The three shapes of a message on the heartbeat route.  A commit message may come without
  // a commit index: that is what `update_follower_commitIdx` sends.
  datatype Beat =
    | Plain(term: nat, addr: Addr)
    | Log(term: nat, addr: Addr, payload: Payload, commitIdx: nat)
    | Commit(term: nat, addr: Addr, entry: Option<Payload>, index: Option<nat>)

  datatype VoteRequest = VoteRequest(term: nat, commitIdx: nat, staged: Option<Payload>)

  datatype NodeState = NodeState(
    addr: Addr,
    fellow: seq<Addr>,
    db: map<string, Value>,
    log: seq<Option<Payload>>,
    staged: Option<Payload>,
    term: nat,
    status: Status,
    voteCount: nat,
    commitIdx: nat,
    leader: Option<Addr>)
  {
    function Majority(): nat {
      (|fellow| + 1) / 2 + 1
    }
  }

  function Initial(addr: Addr, fellow: seq<Addr>): NodeState {
    NodeState(addr, fellow, map[], [], None, 0, Follower, 0, 0, None)
  }

  // ---------- elections ----------

  function IncrementVote(s: NodeState): NodeState {
    var counted := s.(voteCount := s.voteCount + 1);
    if counted.voteCount >= counted.Majority() then counted.(status := Leader) else counted
  }

  function StartElection(s: NodeState): NodeState {
    IncrementVote(s.(term := s.term + 1, voteCount := 0, status := Candidate))
  }

  function RequestOf(s: NodeState, round: nat): VoteRequest {
    VoteRequest(round, s.commitIdx, s.staged)
  }

  predicate Grants(s: NodeState, r: VoteRequest) {
    && s.term < r.term
    && s.commitIdx <= r.commitIdx
    && (r.staged.Some? || s.staged == r.staged)
  }

  function DecideVote(s: NodeState, r: VoteRequest): NodeState {
    if Grants(s, r) then s.(term := r.term) else s
  }

  // The reply is counted when it says yes and the node is a candidate: the round it answers
  // is not looked at again.
  predicate Counts(s: NodeState, choice: bool) {
    choice && s.status == Candidate
  }

  function OnVoteReply(s: NodeState, choice: bool, term: nat): NodeState {
    if Counts(s, choice) then IncrementVote(s)
    else if !choice && term > s.term then s.(term := term, status := Follower)
    else s
  }

  // ---------- heartbeats ----------

  function OnHeartbeatReply(s: NodeState, term: nat): NodeState {
    if term > s.term then s.(term := term, status := Follower) else s
  }

  // `commit` first raises the index and appends to the log; only then does it read the staged
  // payload, so with nothing staged it fails after having appended an empty entry.
  function CommitStaged(s: NodeState): NodeState {
    var appended := s.(commitIdx := s.commitIdx + 1, log := s.log + [s.staged]);
    match s.staged
    case None => appended
    case Some(p) => appended.(db := s.db[p.key := p.value], staged := None)
  }

  predicate TakesCommit(s: NodeState, m: Beat) {
    m.Commit? && m.index.Some? && s.commitIdx <= m.index.value
  }

  function HeartbeatFollower(s: NodeState, m: Beat): NodeState {
    if s.term <= m.term then
      var heard := s.(leader := Some(m.addr), status := Follower, term := m.term);
      if m.Log? then heard.(staged := Some(m.payload))
      else if TakesCommit(s, m) then
        CommitStaged(if s.staged.None? then heard.(staged := m.entry) else heard)
      else heard
    else s
  }

  // A follower answers unless `commit` failed with nothing to commit.
  predicate Answers(s: NodeState, m: Beat) {
    s.term <= m.term && TakesCommit(s, m) ==> s.staged.Some? || m.entry.Some?
  }

  // ---------- puts ----------

  function BeginPut(s: NodeState, p: Payload): NodeState {
    s.(staged := Some(p))
  }

  function LogMessage(s: NodeState, p: Payload): Beat {
    Log(s.term, s.addr, p, s.commitIdx)
  }

  function CommitMessage(s: NodeState, p: Payload): Beat {
    Commit(s.term, s.addr, Some(p), Some(s.commitIdx))
  }

  // The second message of `update_follower_commitIdx`.
  function CatchUpMessage(s: NodeState): Beat
    requires s.log != []
  {
    Commit(s.term, s.addr, s.log[|s.log| - 1], None)
  }

  // Without a commit index it changes nothing that is stored; with one it would be taken by every
  // node that is neither in a later term nor further on.
  lemma CatchUpIsIgnored(x: NodeState, s: NodeState, index: nat)
    requires s.log != []
    ensures var y := HeartbeatFollower(x, CatchUpMessage(s));
            y.log == x.log && y.staged == x.staged && y.db == x.db && y.commitIdx == x.commitIdx
    ensures var y := HeartbeatFollower(x, CatchUpMessage(s).(index := Some(index)));
            y.commitIdx == x.commitIdx + 1 <==> x.term <= s.term && x.commitIdx <= index
  {}

  // ---------- what the database is ----------

  function Apply(db: map<string, Value>, entry: Option<Payload>): map<string, Value> {
    match entry
    case None => db
    case Some(p) => db[p.key := p.value]
  }

  function Replay(log: seq<Option<Payload>>): map<string, Value> {
    if log == [] then map[] else Apply(Replay(log[..|log| - 1]), log[|log| - 1])
  }

  lemma ReplaySnoc(log: seq<Option<Payload>>, entry: Option<Payload>)
    ensures Replay(log + [entry]) == Apply(Replay(log), entry)
  {
    assert (log + [entry])[..|log|] == log;
  }

  // Every node counts its log and its database is the replay of its log.
  predicate Consistent(s: NodeState) {
    s.commitIdx == |s.log| && s.db == Replay(s.log)
  }

  lemma {:induction false} CommitKeepsConsistent(s: NodeState)
    requires Consistent(s)
    ensures Consistent(CommitStaged(s))
  {
    ReplaySnoc(s.log, s.staged);
  }

  lemma {:induction false} HeartbeatKeepsConsistent(s: NodeState, m: Beat)
    requires Consistent(s)
    ensures Consistent(HeartbeatFollower(s, m))
  {
    if s.term <= m.term && TakesCommit(s, m) {
      var heard := s.(leader := Some(m.addr), status := Follower, term := m.term);
      CommitKeepsConsistent(if s.staged.None? then heard.(staged := m.entry) else heard);
    }
  }
}
