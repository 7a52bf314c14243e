// Settling a conflict of one file: `Conflict` and `uploadFile` call each other, and need not end.
module Conflicts {
  import opened Wrappers
  import opened Decimal
  import S = NodeSpec
  import B = BlockServer

  // The file on disk, its record, the file on the server, and the conflict copy, if one was made.
  // Versions are the numbers their texts print.
  datatype State = State(local: string, version: nat, base: string, remoteVersion: nat, remote: string,
                         copy: Option<string>)

  // The merge of base, local and remote text, if there is one.
  type Merge = (string, string, string) -> Option<string>

  // A call ends, or calls `Conflict` once more.
  datatype Outcome = Ended(state: State) | Again(state: State)

  // The server takes the text exactly if the record has its version.
  function Upload(s: State): Outcome {
    if s.version == s.remoteVersion then
      Ended(s.(base := s.local, version := s.version + 1, remote := s.local, remoteVersion := s.remoteVersion + 1))
    else Again(s)
  }

  // After a merge the text is written to disk, but the record is not stored before the upload.
  function Conflict(s: State, merge: Merge): Outcome {
    if s.local == s.remote then Ended(s.(base := s.remote, version := s.remoteVersion))
    else
      match merge(s.base, s.local, s.remote)
      case Some(merged) => Upload(s.(local := merged))
      case None =>
        Ended(s.(local := s.remote, base := s.remote, version := s.remoteVersion, copy := Some(s.local)))
  }

  lemma UploadIsDecided(db: map<string, S.Value>, user: string, path: string, s: State)
    requires B.KeyOf(user, path) in db
    requires db[B.KeyOf(user, path)] == S.Doc(Str(s.remoteVersion), s.remote)
    ensures var d := B.Decide(db, B.Write(path, Some(user), Str(s.version), s.local));
            && (Upload(s).Ended? <==> d.Store?)
            && (d.Store? ==> d.payload.value == S.Doc(Str(Upload(s).state.remoteVersion), Upload(s).state.remote))
  {
    IntOfStr(s.version);
    IntOfStr(s.remoteVersion);
    hide Int, Str;
  }

  // What `k` calls in a row lead to.
  function After(s: State, merge: Merge, k: nat): Outcome {
    if k == 0 then Again(s)
    else
      match After(s, merge, k - 1)
      case Ended(t) => Ended(t)
      case Again(t) => Conflict(t, merge)
  }

  ghost predicate Ends(s: State, merge: Merge) {
    exists k :: After(s, merge, k).Ended?
  }

  // The text on disk merged `k` times with the server's.
  function Text(s: State, merge: Merge, k: nat): Option<string> {
    if k == 0 then Some(s.local)
    else
      match Text(s, merge, k - 1)
      case None => None
      case Some(text) => merge(s.base, text, s.remote)
  }

  // As long as no call has ended only the text on disk has changed.
  lemma {:induction false} StillCalling(s: State, merge: Merge, k: nat)
    requires After(s, merge, k).Again?
    ensures Text(s, merge, k).Some? && After(s, merge, k) == Again(s.(local := Text(s, merge, k).value))
    ensures k > 0 ==> s.version != s.remoteVersion
    ensures forall j: nat | j < k :: Text(s, merge, j) != Some(s.remote)
  {
    if k > 0 {
      StillCalling(s, merge, k - 1);
      forall j: nat | j < k
        ensures Text(s, merge, j) != Some(s.remote)
      {
        if j < k - 1 { assert Text(s, merge, j) != Some(s.remote); }
      }
    }
  }

  ghost predicate MergesInto(s: State, merge: Merge, k: nat) {
    Text(s, merge, k) == None || Text(s, merge, k) == Some(s.remote)
  }

  // The calls end exactly if the record has the server's version, or merging with the server's text
  // again and again at some point fails or gives that text.
  lemma EndsExactly(s: State, merge: Merge)
    ensures Ends(s, merge) <==> s.version == s.remoteVersion || exists k :: MergesInto(s, merge, k)
  {
    if Ends(s, merge) {
      var k := FirstEnd(s, merge);
      StillCalling(s, merge, k - 1);
      if s.version != s.remoteVersion {
        assert MergesInto(s, merge, k - 1) || MergesInto(s, merge, k);
      }
    }
    if s.version == s.remoteVersion { assert After(s, merge, 1) == Conflict(s, merge); }
    if k: nat :| MergesInto(s, merge, k) {
      if After(s, merge, k + 1).Again? { StillCalling(s, merge, k + 1); StillCallingBefore(s, merge, k + 1); }
    }
  }

  lemma StillCallingBefore(s: State, merge: Merge, k: nat)
    requires k > 0 && After(s, merge, k).Again?
    ensures After(s, merge, k - 1).Again? && Text(s, merge, k - 1).Some?
  {
    StillCalling(s, merge, k - 1);
  }

  lemma {:induction false} FirstEndUpTo(s: State, merge: Merge, n: nat) returns (k: nat)
    requires After(s, merge, n).Ended?
    ensures 0 < k <= n && After(s, merge, k) == After(s, merge, n) && After(s, merge, k - 1).Again?
  {
    if After(s, merge, n - 1).Again? { k := n; } else { k := FirstEndUpTo(s, merge, n - 1); }
  }

  lemma FirstEnd(s: State, merge: Merge) returns (k: nat)
    requires Ends(s, merge)
    ensures k > 0 && After(s, merge, k).Ended? && After(s, merge, k - 1).Again?
  {
    var n: nat :| After(s, merge, n).Ended?;
    k := FirstEndUpTo(s, merge, n);
  }

  // With a merge that gives a merged text back, what both sides changed without overlap is never
  // settled once the server has a version the record has not: the calls end exactly if there is no
  // conflict, no merge, nothing to merge, or no newer version.
  lemma CleanMergeEndsExactly(s: State, merge: Merge)
    requires forall m | merge(s.base, s.local, s.remote) == Some(m) :: merge(s.base, m, s.remote) == Some(m)
    ensures Ends(s, merge) <==>
              || s.local == s.remote
              || merge(s.base, s.local, s.remote) == None
              || merge(s.base, s.local, s.remote) == Some(s.remote)
              || s.version == s.remoteVersion
  {
    EndsExactly(s, merge);
    assert Text(s, merge, 0) == Some(s.local) && Text(s, merge, 1) == merge(s.base, s.local, s.remote);
    if s.local == s.remote { assert MergesInto(s, merge, 0); }
    if merge(s.base, s.local, s.remote) in {None, Some(s.remote)} { assert MergesInto(s, merge, 1); }
    if k: nat :| MergesInto(s, merge, k) {
      if k > 0 && merge(s.base, s.local, s.remote).Some? { SameText(s, merge, k); }
    }
  }

  lemma {:induction false} SameText(s: State, merge: Merge, k: nat)
    requires k > 0 && merge(s.base, s.local, s.remote).Some?
    requires forall m | merge(s.base, s.local, s.remote) == Some(m) :: merge(s.base, m, s.remote) == Some(m)
    ensures Text(s, merge, k) == merge(s.base, s.local, s.remote)
  {
    if k > 1 { SameText(s, merge, k - 1); } else { assert Text(s, merge, 0) == Some(s.local); }
  }

  // When the calls end, disk, record and server agree, and no text was lost: what is there then is
  // the text on disk, merged or not, or the server's, with the one on disk in the conflict copy.
  lemma EndsInStep(s: State, merge: Merge, n: nat) returns (j: nat)
    requires s.copy == None && After(s, merge, n).Ended?
    ensures var t := After(s, merge, n).state;
            && t.local == t.base == t.remote && t.version == t.remoteVersion
            && (t.copy == None ==> Text(s, merge, j) == Some(t.remote))
            && (t.copy.Some? ==> t.remote == s.remote && Text(s, merge, j) == t.copy)
            && (t.remote != s.remote ==> t.remoteVersion == s.remoteVersion + 1)
  {
    var k := FirstEndUpTo(s, merge, n);
    StillCalling(s, merge, k - 1);
    var u := s.(local := Text(s, merge, k - 1).value);
    assert After(s, merge, k) == Conflict(u, merge);
    j := if u.local == u.remote || merge(u.base, u.local, u.remote) == None then k - 1 else k;
  }

  // The input: version 1 recorded, version 2 on the server, and both sides changed.
  lemma BothChangedNeverEnds(merge: Merge, base: string, local: string, remote: string, merged: string)
    requires local != remote && merged != remote
    requires merge(base, local, remote) == Some(merged) && merge(base, merged, remote) == Some(merged)
    ensures !Ends(State(local, 1, base, 2, remote, None), merge)
  {
    CleanMergeEndsExactly(State(local, 1, base, 2, remote, None), merge);
  }
}
