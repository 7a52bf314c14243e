# A file-synchronisation service, verified

This project models the parts of a file-synchronisation service that other parts rely on, and
proves what they promise. `dafny verify dfyconfig.toml` checks all of it.

* **The replicated block store.** `NodeSpec` gives the handlers of one replica as functions,
  `NodeImpl` the object that updates its fields in place, each method proved to compute its
  function. `Cluster` is n replicas and a network that loses, delays, reorders and repeats
  packets, as a state machine; `Elections`, `UpToDate`, `AcceptedPut`, `AcceptedPayload`,
  `PutCrash`, `Leadership` and `CommitBound` prove safety over all its runs, `Scenarios` and
  `Losses` give runs that show where the protocol falls short (put together from the pieces in
  `Campaigns`), and `SingleLeader` has the in-order channels of one leader. `BlockServer` is the
  versioned PUT on top, `BlockContents` what it stores over whole runs, with Python's number texts
  in `Decimal`.
* **The namespace and booting.** `Namespace` is the metadata server's tree of entries keyed by
  path (`Paths`), `Database` the client's ordered key-value store, `DiskSync` the pass that brings
  it in line with the disk, `ListEdits` the edits of stored lists, and `Boot` (with its sets in
  `BootSets` and its records in `BootRecords`) the two walks that merge disk and server.
  `Conflicts` is how a conflict of one file is settled.
* **The endpoint cache.** `CacheSpec` is the cache on values, `Cache` the object with its map,
  list and running size, `CacheRuns` and `CacheOrder` what it means over whole runs, and
  `CacheCleaner` when a cleaner pass can be seen.
* **Byte and bit code.** `Bits` and `MatchLength` are Snappy's bit scans and match finders,
  `Varint` its variable-length integers, `Hex`, `Url` and `Chunked` the number, URL and chunked
  coding of the HTTP library. Word operations have names, so that proofs above them can hide
  their bits.
* **The watcher.** `Watcher` is what a directory move does to watches, snapshot and event queue.

## Findings

* A yes to a vote request is counted without looking at the round again (node.py line 74), so in
  every group of two or more two replicas can lead the same term: `Scenarios.TwoLeadersExactly`.
  With each yes counted in the round that asked for it there is at most one leader per term:
  `Elections.OneLeaderPerTerm`.
* Any reply confirms a put, also one from a replica in a later term that did not stage it
  (node.py lines 235-237), so in groups of three or more, and only there, a later candidate with a
  majority of the votes may lack an accepted put: `Losses.LossExactly`. With genuine confirmations
  its place in the log stays taken, `AcceptedPut.AcceptedPlaceIsFilled`, but not by this payload: a
  new leader whose put is rejected keeps it staged, and its next put overwrites it, so the accepted
  put can be replaced: `Scenarios.AcceptedPutCanBeReplaced`. It is kept when nothing else is offered
  for its place: `AcceptedPayload.AcceptedPutIsKept`, with the exact condition in
  `AcceptedPayload.PlaceIsKeptExactly`.
* `commit` with nothing staged appends an empty entry and raises the commit index before it fails
  (node.py lines 283-285). At the end of a put, where the lock then stays taken, this happens:
  `Scenarios.PutCanCrash`; `PutCrash.CrashesExactly` says exactly when.
* The catch-up message has no commit index, so line 196 of node.py ignores it and it never brings
  a follower further: `NodeSpec.CatchUpIsIgnored`.
* `delete_path` picks the parent's list by the suffix of the name, and both create handlers
  accept a file as parent; `Namespace.KeptExactly` says exactly which requests keep the tree.
  `Namespace.DeletedDirectoryStaysListed` is an input.
* After a deletion, version 0 of a key is accepted again: `BlockServer.DeletionStartsOver`.
* A client that settles a conflict uploads the merged text under the version still in its record
  (serverUtils.cpp lines 253-258), which the server refuses if it has a newer one, and the refusal
  settles the conflict again. When both sides changed and the texts merge, this never ends:
  `Conflicts.BothChangedNeverEnds`; `Conflicts.CleanMergeEndsExactly` says exactly when it ends.
* A stale key with `.txt` anywhere in it is taken for a file, so the records below a directory of
  such a name, or within one, stay: `DiskSync.RemoveStale`.
* Adding to a directory whose key holds a file record overwrites that record:
  `ListEdits.RemoveUndoesAdd`.
* The relocation loop and `is_descendant` would disagree for an old path that ends in a slash
  (`Watcher.LoopMovesTheSubtree`); move events always carry a name, so their paths never do, and
  the relocation is right for all of them: `Watcher.MoveRelocatesTheSubtree`.
* A moved directory is taken out of the snapshot and not put back:
  `Watcher.MovedSnapshotLacksItsBase`.
* A cleaner pass is not invisible in every run: `CacheCleaner.PassChangesAnAnswer` gives the input.
  It is invisible in every continuation if and only if no live entry was used less recently than an
  expired one: `CacheCleaner.CleanerIsInvisibleExactly`. Otherwise it can save the live one from
  being evicted. Entries have a name and a value there; the client caches only non-empty lists.
* A content provider that writes nothing once ends the chunked body without its last chunk, and
  the reader then fails: `Chunked.ReadsWhatWasWritten`.

## Assumptions

* Each handler is one atomic step; in the put, sending, each confirmation and the end are steps of
  their own, and PUT requests run one at a time. Clocks, timeouts and what the network delivers
  are arbitrary. `HandlePut` is given what it sees of its confirmations at each look, and
  adds its half milliseconds as doubles, which `Ticks` rounds as IEEE 754 does.
* A node sends heartbeats and takes puts once it has led, even after it stepped down: the threads
  of the original look at the status at different moments, so this allows more runs.
* Keys of the metadata server are modelled for one user. The base directory of the client is written with
  a slash at its end, so that the root key is `dropbox`.
* Booting takes it that requests succeed, that settling a conflict ends and changes only the record
  and the text of its file, that names on disk are `.txt` for text files only, and that stored lists
  name only paths below their own directory; the last is what line 188 of metadata.cpp needs to end.
* Sizes in the cache are unbounded numbers; list iterators are the position of the key.
* A move event of the watcher carries the name of an entry: not empty, without a slash.
* A stream may cut its reads anywhere. Results of the chunked reader are stated for streams whose
  reads do not fail. `strtoul` follows the C standard with a 64-bit `unsigned long`.
* The order in which hash maps and sets are walked is arbitrary.

## Model

| member | source | states |
|---|---|---|
| `NodeImpl.Node.constructor` | CODE/src/data_blockserver/node.py:13-26 | a new replica has an empty log, term 0, and a database that is the replay of its log |
| `NodeImpl.Node.IncrementVote` | CODE/src/data_blockserver/node.py:30-35 | the in-place update is the transition the cluster theorems use: leader exactly when the count reaches the majority |
| `NodeImpl.Node.StartElection` | CODE/src/data_blockserver/node.py:39-45 | the in-place update is the cluster's election step: the next term, one vote, its own |
| `NodeImpl.Node.VoteReply` | CODE/src/data_blockserver/node.py:72-84 | a yes counts whenever the node is a candidate; a no with a higher term makes it a follower; nothing else changes |
| `NodeImpl.Node.DecideVote` | CODE/src/data_blockserver/node.py:90-101 | votes exactly for a higher term with a commit index and staged payload not behind its own; only the term changes and it never goes back |
| `NodeImpl.Node.HeartbeatReply` | CODE/src/data_blockserver/node.py:149-155 | a higher term in the reply makes the node a follower of it |
| `NodeImpl.Node.Commit` | CODE/src/data_blockserver/node.py:282-289 | moves the staged payload to log and database and keeps the database the replay of the log; with nothing staged it has already appended an empty entry when it fails |
| `NodeImpl.Node.HeartbeatFollower` | CODE/src/data_blockserver/node.py:167-201 | every shape of heartbeat, field by field, and when the reply is missing because commit failed; what this means for status, term, leader and reply is in the rows of Leadership |
| `NodeImpl.Node.SpreadUpdate` | CODE/src/data_blockserver/node.py:232-239 | marks exactly the followers that replied, whatever they replied |
| `Ticks.NearestDoubles` | CODE/src/data_blockserver/node.py:261-263 | the two numbers the wait is counted with are the doubles nearest to half a millisecond and to 50 ms |
| `Ticks.OverTheLimit` | CODE/src/data_blockserver/node.py:261-263 | in the double precision the code adds in, the hundredth wait of half a millisecond is the first that goes over 50 ms |
| `NodeImpl.Node.AwaitMajority` | CODE/src/data_blockserver/node.py:256-266 | succeeds at the first look that shows a majority, and fails exactly if none of the hundred looks (0 to 99) does |
| `NodeImpl.Node.HandlePut` | CODE/src/data_blockserver/node.py:241-279 | accepted exactly if some look shows a majority; accepted puts are committed, rejected ones stay staged; the messages sent carry the commit index before the put |
| `NodeImpl.CountTrueIsCardinality` | CODE/src/data_blockserver/node.py:257-260 | the summed confirmation list is the number of followers that replied |
| `NodeSpec.CommitKeepsConsistent` | CODE/src/data_blockserver/node.py:282-289 | commit index equals log length and database equals replayed log, also after a commit with nothing staged |
| `NodeSpec.HeartbeatKeepsConsistent` | CODE/src/data_blockserver/node.py:167-201 | the same through every kind of heartbeat |
| `NodeSpec.CatchUpIsIgnored` | CODE/src/data_blockserver/node.py:120-130 | the catch-up message of any leader leaves log, staged payload, database and commit index of every node as they are; with a commit index it would be taken exactly by nodes in no later term and no further on |
| `Leadership.StepDownIsDone` | CODE/src/data_blockserver/node.py:171-185 | a heartbeat of its term or a later one makes a node a follower of that term and of the sender, whatever it was; a vote or heartbeat reply of a later term makes it a follower of that term |
| `Leadership.HeartbeatIsAnswered` | CODE/src/data_blockserver/node.py:171-201 | a heartbeat of an earlier term changes nothing; any delivered heartbeat is answered exactly unless the log just grew by an empty entry |
| `Leadership.LeadsAfterStep` | CODE/src/data_blockserver/node.py:30-35 | a node leads after a step if and only if the step gave it the last vote it needed, or it led and the step was no heartbeat of its term or later and no reply of a later term |
| `Leadership.LeadsExactly` | CODE/src/data_blockserver/node.py:30-185 | over whole runs: a node leads if and only if it won at some step and has since acted on no such heartbeat or reply |
| `Leadership.LeadersHaveWon` | CODE/src/data_blockserver/node.py:167-185 | in every run the leader a node knows, to which it sends writers, has won an election, of the node's term or an earlier one |
| `Quorum.Overlap` | CODE/src/data_blockserver/node.py:22 | two majorities of the group share a member |
| `Cluster.NodesGrow` | CODE/src/data_blockserver/node.py:39-45 | no step of the cluster changes who a node is, takes a term or a commit index back, or clears a staged payload without committing it |
| `Cluster.StepCasts` | CODE/src/data_blockserver/node.py:39-45 | only the start of an election and a granted vote request cast a vote |
| `Cluster.CastIsNew` | CODE/src/data_blockserver/node.py:90-99 | a cast vote is for a term its voter had not reached and is the voter's term afterwards |
| `Cluster.StepKeepsVotes` | CODE/src/data_blockserver/node.py:90-101 | every step keeps: one vote per voter and term, and nobody votes for a term it has not reached |
| `Cluster.StepKeepsTraffic` | CODE/src/data_blockserver/node.py:52-84 | every step keeps: a yes on the network is backed by a cast vote, a request by its sender's own vote, and confirmations come from other members |
| `Cluster.RunKeepsSafe` | CODE/src/data_blockserver/node.py:22-101 | all of these over whole runs with packets lost, delayed, reordered or repeated; a thread that asks for a vote asks again until it has a reply, and ends with any reply, a yes or a no (line 84) |
| `Elections.OneVotePerTerm` | CODE/src/data_blockserver/node.py:39-101 | in every run each replica votes at most once per term, its vote for itself included |
| `Elections.OneMajorityPerTerm` | CODE/src/data_blockserver/node.py:22-101 | in every run, for each term, a majority votes for at most one candidate |
| `Elections.CountedReplyIsNew` | CODE/src/data_blockserver/node.py:69-75 | a yes counted in the round that asked for it is a vote not counted before, for the term being counted |
| `Elections.StepKeepsHonest` | CODE/src/data_blockserver/node.py:30-84 | if yes replies are counted in their round, vote counts are sets of real votes and every win is backed by a majority of votes |
| `Elections.OneLeaderPerTerm` | CODE/src/data_blockserver/node.py:30-84 | if every yes is counted in the round that asked for it, each term elects at most one leader, and by a majority of its votes |
| `Scenarios.TwoLeadersExactly` | CODE/src/data_blockserver/node.py:69-75 | without that, some run has two leaders in one term if and only if the group has two members or more |
| `Scenarios.TwoLeadersInOneTerm` | CODE/src/data_blockserver/node.py:69-75 | the run, for every group of two or more: a majority's yes for term 1 counted in term 2 |
| `UpToDate.VotersOnlyChooseUpToDate` | CODE/src/data_blockserver/node.py:95-99 | a node whose place n is filled, or next with something staged, votes only for requests of which the same is true |
| `UpToDate.GrantsExactly` | CODE/src/data_blockserver/node.py:90-101 | a vote is given exactly to a later term whose log is no shorter and which has something staged if the voter has |
| `UpToDate.StepKeepsHas` | CODE/src/data_blockserver/node.py:186-199 | no step of any node loses 'place n is filled, or it is next and something is staged' |
| `UpToDate.RunKeepsHas` | CODE/src/data_blockserver/node.py:282-289 | nor does any run |
| `UpToDate.LaterWinnersHaveIt` | CODE/src/data_blockserver/node.py:61-101 | once a majority has place n filled or something staged for it, so has every candidate that later starts a round and is voted for by a majority |
| `AcceptedPut.RunKeepsBacked` | CODE/src/data_blockserver/node.py:232-266 | if confirmations come from followers that took the message, the holder of an open put and all confirmers have its place filled or something staged for it, in every run |
| `AcceptedPut.AcceptedPlaceIsFilled` | CODE/src/data_blockserver/node.py:241-279 | then every later election winner has the place of an accepted put filled or something staged for it; which payload that is, it does not say |
| `AcceptedPayload.StepKeepsPlace` | CODE/src/data_blockserver/node.py:186-289 | one step leaves every node with nothing but p at place n if and only if it offers nothing else for that place |
| `AcceptedPayload.PlaceIsKeptExactly` | CODE/src/data_blockserver/node.py:186-289 | at every moment of a run all nodes have nothing but p at place n if and only if no step of it starts a put of, delivers a log message with, or commits anything else there |
| `AcceptedPayload.AcceptedPutIsKept` | CODE/src/data_blockserver/node.py:241-279 | if confirmations are genuine and nothing else is offered for its place, an accepted put is held by every later election winner, in its log or staged for its place |
| `Scenarios.AcceptedPutCanBeReplaced` | CODE/src/data_blockserver/node.py:106-111 | without the second condition, a run with genuine confirmations in which an accepted put is gone and the winner of term 3 has another payload in its place: a new leader's put was rejected, left staged, and overwritten |
| `Losses.AcceptedPutCanBeLost` | CODE/src/data_blockserver/node.py:232-238 | without genuine confirmations, for every group of three or more, a run in which an accepted put is on its leader only and the leader of term 3 is elected without it: replies from a later term were counted |
| `Losses.LossExactly` | CODE/src/data_blockserver/node.py:232-279 | some run loses an accepted put, so that a candidate voted for by a majority in a later round has its place empty, if and only if the group has three members or more |
| `Scenarios.AcceptedPutIsElected` | CODE/src/data_blockserver/node.py:241-279 | both conditions of AcceptedPutIsKept are met by a run in which the put is accepted and a follower that confirmed it wins the next term |
| `PutCrash.CrashesExactly` | CODE/src/data_blockserver/node.py:241-289 | the end of a put crashes if and only if, since it began, its node acted on a commit message and on no log message after it |
| `PutCrash.UndisturbedPutsDoNotCrash` | CODE/src/data_blockserver/node.py:186-289 | in a run in which no node with an open put acts on a commit message, no put ever crashes |
| `Scenarios.PutCanCrash` | CODE/src/data_blockserver/node.py:282-289 | a run in which the put of an old leader crashes: the commit of a new one cleared what it had staged |
| `CommitBound.EveryDatabaseIsItsLog` | CODE/src/data_blockserver/node.py:282-289 | in every run, with several leaders too, every commit index is the log length and every database the replay of its log |
| `CommitBound.OneCommitIdx` | CODE/src/data_blockserver/node.py:196-199 | no step raises one node's commit index above the cluster's largest, except the end of a put, by one |
| `CommitBound.OnlyPutsRaiseTheMaximum` | CODE/src/data_blockserver/node.py:186-289 | in every run a step that does not end a put leaves the largest commit index of the cluster as it is; ending a put raises it by at most one |
| `SingleLeader.DrainSnoc` | CODE/src/data_blockserver/node.py:167-201 | taking one more message at the end of a channel is one more heartbeat |
| `SingleLeader.StepKeepsInStep` | CODE/src/data_blockserver/node.py:232-289 | with one leader and messages in order, every step keeps: what a follower stores after emptying its channel is what the leader stores |
| `SingleLeader.FollowersArePrefixes` | CODE/src/data_blockserver/node.py:186-289 | at every moment, through rejected puts too, each follower's log is a prefix of the leader's and its database is the replay of its own log |
| `SingleLeader.DrainedFollowersAreEqual` | CODE/src/data_blockserver/node.py:186-289 | emptying the channel makes log, database and commit index equal to the leader's |
| `Decimal.IntOfStr` | CODE/src/data_blockserver/server.py:113-114 | Python's `int` reads back what `str` printed, for every natural number |
| `BlockServer.Server.ValuePut` | CODE/src/data_blockserver/server.py:67-160 | as leader: the stored map and the reply are those of the decision and of whether the put is accepted; a follower sends the writer to the leader it knows and a candidate fails, both without a change |
| `BlockServer.VersionsCountUp` | CODE/src/data_blockserver/server.py:77-155 | between deletions of a key the accepted PUTs quote 0, 1, 2, ... and store 1, 2, 3, ...; the stored version is their number |
| `BlockServer.BaseVersionsAreUsedOnce` | CODE/src/data_blockserver/server.py:107-146 | no base version of a key is accepted twice between deletions |
| `BlockServer.AcceptedExactlyAtCurrentVersion` | CODE/src/data_blockserver/server.py:107-146 | a PUT is sent to the store exactly if it quotes the number of PUTs accepted so far (for a new file: exactly the text 0) |
| `BlockServer.DeletionStartsOver` | CODE/src/data_blockserver/server.py:77-109 | after a deletion version 0 is accepted again |
| `BlockContents.EveryRunStores` | CODE/src/data_blockserver/server.py:68-155 | after every run, for every user and path: the stored data is that of the last accepted PUT since the last deletion, under the number of PUTs since then as version; without one nothing is stored but a deletion mark |
| `BlockContents.EveryRunDecides` | CODE/src/data_blockserver/server.py:77-155 | after every run: what a PUT of a user and path is answered and what it stores depends on that document alone, in every case of token, version text, creation and update |
| `BlockContents.OtherKeyStays` | CODE/src/data_blockserver/server.py:104-146 | a PUT of a user and path leaves every key other than user, colon, path as it is |
| `BlockContents.SharedKeyExactly` | CODE/src/data_blockserver/server.py:104 | two users share a key for some of their paths if and only if one is the other followed by a colon and more |
| `Decimal.StrIsDecimal` | CODE/src/data_blockserver/server.py:112-113 | the printed version has the ten digits in their order and no leading zero |
| `Decimal.IntOfSpaced` | CODE/src/data_blockserver/server.py:139 | `int` skips spaces around the number and reads a sign |
| `Namespace.MetaServer.constructor` | CODE/src/metaserver/metadata_server_L1.cpp:87-101 | the namespace starts as the tree with nothing but the signup root |
| `Namespace.MetaServer.CreateDirectory` | CODE/src/metaserver/metadata_server_L1.cpp:87-197 | status and stored map for an existing path, a path without parent, a missing parent, and a parent without a list of subdirectories, where the unlisted entry stays |
| `Namespace.MetaServer.CreateFile` | CODE/src/metaserver/metadata_server_L1.cpp:317-418 | the same for files; an existing path is answered with success and no change |
| `Namespace.MetaServer.DeletePath` | CODE/src/metaserver/metadata_server_L1.cpp:473-540 | removes the entry and every occurrence in the list of its parent that its name points to; 404 exactly for a missing path, else 200 |
| `Namespace.KeptExactly` | CODE/src/metaserver/metadata_server_L1.cpp:87-540 | a request keeps the tree if and only if it creates below a directory, or deletes a file or an empty directory other than the root whose name has the suffix of its kind |
| `Namespace.CreateBelowFileBreaksTree` | CODE/src/metaserver/metadata_server_L1.cpp:103-191 | creating below a file always breaks the tree |
| `Namespace.BadDeleteBreaksTree` | CODE/src/metaserver/metadata_server_L1.cpp:479-530 | deleting the root, a directory with children, or an entry whose suffix says the other kind always breaks the tree |
| `Namespace.EveryEntryIsReachable` | CODE/src/metaserver/metadata_server_L1.cpp:170-191 | in a tree every entry is at the end of a chain of listings from the root |
| `Namespace.RunKeepsTree` | CODE/src/metaserver/metadata_server_L1.cpp:87-540 | every run of requests that name files with the suffix and directories without it keeps the tree |
| `Namespace.EveryRunIsATree` | CODE/src/metaserver/metadata_server_L1.cpp:87-540 | from the signup root: after every such run the store is a tree, and every entry is reachable |
| `Namespace.KindsFollow` | CODE/src/metaserver/metadata_server_L1.cpp:87-540 | the paths and their kinds after a request are those of the same request on paths and kinds alone, on any store |
| `Namespace.EveryRunListsChildren` | CODE/src/metaserver/metadata_server_L1.cpp:87-540 | from the signup root, after every such run: what is stored is what was created and not deleted since, and each directory lists exactly its children, each by its kind |
| `Namespace.DeletedDirectoryStaysListed` | CODE/src/metaserver/metadata_server_L1.cpp:479-530 | the input of the finding: a directory with the suffix of a file is deleted and stays listed |
| `Database.PrefixesAreTogether` | CODE/src/client/metadata/metadata.cpp:159-163 | in byte order the keys with a prefix are consecutive from the first key at or after it |
| `Database.ScanSorted` | CODE/src/client/metadata/metadata.cpp:157-174 | seek-and-break over sorted keys finds exactly the keys that are the prefix plus a non-empty name without slash, the same as filtering all keys |
| `Database.Db.PrefixScan` | CODE/src/client/metadata/metadata.cpp:149-175 | the same for the whole store |
| `Database.Db.RemoveDirectory` | CODE/src/client/metadata/metadata.cpp:188-215 | ends, removes the record, every file and directory record it lists, nothing that is not at or below it, and changes no record; when what is listed as a file has no lists, with every record that goes all that it lists goes |
| `Database.ReachableIsGone` | CODE/src/client/metadata/metadata.cpp:188-215 | then everything that a chain of stored lists leads to from the removed record is gone |
| `Database.ListedTwiceStays` | CODE/src/client/metadata/metadata.cpp:201-213 | otherwise it need not: a directory that is listed as a file too loses its record before it is gone into, and what it lists stays |
| `DiskSync.SyncedDependsOnSubtree` | CODE/src/client/boot/boot.cpp:9-98 | whether a directory is in sync depends only on the keys at and below it |
| `DiskSync.SyncDir` | CODE/src/client/boot/boot.cpp:9-98 | afterwards every directory on disk is listed exactly, its direct keys are exactly its children, every text file has the record it had, or that of a new file if it had none, all the way down, and nothing outside changed |
| `DiskSync.RemoveStale` | CODE/src/client/boot/boot.cpp:80-97 | removing what the scan finds and the disk does not have leaves exactly the children and harms no other subtree; a key with .txt anywhere in it loses its own record only, so that what was below a directory stays |
| `DiskSync.LocalSync` | CODE/src/client/boot/boot.cpp:5-8 | the same from the root, from any old records whose lists stay below their own directories |
| `ListEdits.Apply` | CODE/src/client/metadata/metadata.cpp:221-353 | each of the four edits changes one list of the parent's record, and only when it has to; it fails exactly without a stored parent |
| `ListEdits.EditsKeepListsBelow` | CODE/src/client/metadata/metadata.cpp:221-353 | any run of edits keeps stored lists naming only paths below their directory, which the first pass of booting needs |
| `ListEdits.RemoveUndoesAdd` | CODE/src/client/metadata/metadata.cpp:221-353 | removing what was added restores the store if and only if the parent, when stored, is a directory record: a file record in its place stays overwritten |
| `ListEdits.EditedLists` | CODE/src/client/metadata/metadata.cpp:221-353 | an edit puts its key into, or takes it out of, the list of its kind in the record of its parent, and changes no other list and no other record |
| `ListEdits.LastEditDecides` | CODE/src/client/metadata/metadata.cpp:221-353 | after any edits a stored directory lists a file, or a directory, exactly if the last such edit of that key added it, or there was none and it was listed before |
| `BootSets.WholeTree` | CODE/src/client/boot/boot.cpp:210-217 | what lies under the root in the namespace is all of it |
| `BootSets.UnderDirectory` | CODE/src/client/boot/boot.cpp:253-290 | the files and directories below a listed directory are those of its two lists and of what is below them |
| `BootSets.Disk.EnsureDirectoryExists` | CODE/src/client/boot/boot.cpp:315 | creates the directory and all directories above it, nothing else |
| `Boot.Client.FetchDirRecursively` | CODE/src/client/boot/boot.cpp:297-352 | ends, and adds to the disk exactly the subtree the server has |
| `Boot.Client.RemoteToLocalDirCheck` | CODE/src/client/boot/boot.cpp:219-295 | ends, and adds to the disk exactly what the server has below the directory, keeping what was there |
| `Boot.Client.SendDirRecursively` | CODE/src/client/boot/boot.cpp:183-208 | adds to the server exactly the local subtree, and keeps the namespace a tree |
| `Boot.Client.LocalToRemoteDirCheck` | CODE/src/client/boot/boot.cpp:108-181 | adds to the server exactly what is local below the directory, and keeps the namespace a tree |
| `Boot.Client.Boot` | CODE/src/client/boot/boot.cpp:5-352 | the three passes end; disk and server both have exactly the union of the text files and of the directories they had before; the record of a file only the server had is what was fetched, of one both had what settling left, of one only the disk had its text under the version after the recorded one; directories list their contents |
| `BootRecords.UploadCountsUp` | CODE/src/client/serverUtils/serverUtils.cpp:57-100 | an upload raises the recorded version by one, as the server does |
| `BootRecords.FetchedLists` | CODE/src/client/boot/boot.cpp:297-352 | a fetched directory lists what an old record of it did and exactly the entries the server has in it |
| `Conflicts.UploadIsDecided` | CODE/src/client/serverUtils/serverUtils.cpp:57-106 | an upload is accepted, and stored as the model says, exactly when the server's version is the recorded one |
| `Conflicts.EndsExactly` | CODE/src/client/serverUtils/serverUtils.cpp:211-320 | settling a conflict ends if and only if the recorded version is the server's, or merging with the server's text again and again at some point fails or gives that text |
| `Conflicts.CleanMergeEndsExactly` | CODE/src/client/serverUtils/serverUtils.cpp:249-258 | if merging a merged text gives it back: settling ends if and only if the texts are equal, do not merge, merge into the server's, or the recorded version is the server's |
| `Conflicts.BothChangedNeverEnds` | CODE/src/client/serverUtils/serverUtils.cpp:249-258 | the input: the server is one version ahead and both sides changed without overlap |
| `Conflicts.EndsInStep` | CODE/src/client/serverUtils/serverUtils.cpp:211-320 | when settling ends, disk, record and server have one text and one version, and the text that was on disk is in it or in the conflict copy |
| `CacheImpl.Cache.ComputeValueSize` | CODE/src/client/cache/cache.cpp:31-39 | the length of all strings written one after another |
| `CacheImpl.Cache.Remove` | CODE/src/client/cache/cache.cpp:49-54 | map, list and running size lose the key together; the subtraction does not underflow |
| `CacheImpl.Cache.MakeRoom` | CODE/src/client/cache/cache.cpp:67-79 | the eviction loop ends, never meets an empty list, and keeps the longest prefix of the order that leaves room |
| `CacheImpl.Cache.Set` | CODE/src/client/cache/cache.cpp:42-87 | the in-place update is the specified one, for a new key, an old key and an entry that is too large, and keeps the structure valid |
| `CacheImpl.Cache.Get` | CODE/src/client/cache/cache.cpp:90-111 | answer and new state for a missing, an expired and a live key |
| `CacheImpl.Cache.CleanerPass` | CODE/src/client/cache/cache.cpp:146-159 | whatever order the map is walked in, a pass removes exactly the expired entries |
| `CacheRuns.RunKeepsValid` | CODE/src/client/cache/cache.cpp:42-161 | in every run list and map hold the same keys once each, and the running size is the sum of the sizes and within the bound |
| `CacheRuns.OrderAfterSet` | CODE/src/client/cache/cache.cpp:56-86 | after a set that stores, the order is the new key, then the longest prefix of the old order without it that fits |
| `CacheRuns.EntriesAfterSet` | CODE/src/client/cache/cache.cpp:81-86 | and the map has the new value and expiry, with every kept key as it was |
| `CacheRuns.AnswersAreLatest` | CODE/src/client/cache/cache.cpp:90-111 | in every run a get answers as a timed map that forgets nothing, or nothing if the key is not held; a non-empty answer is the latest set value, unexpired |
| `CacheOrder.OrderIsLastUse` | CODE/src/client/cache/cache.cpp:56-111 | after every run the keys held stand in the order of the last set or get that names them, the most recent first |
| `CacheOrder.EvictsLeastRecent` | CODE/src/client/cache/cache.cpp:66-79 | what a set evicts was named longer ago than everything it keeps |
| `CacheOrder.HeldTextFits` | CODE/src/client/cache/cache.cpp:31-86 | after every run the keys held and all strings of their values have no more characters than the bound, and the running size is their number |
| `CacheOrder.AnswersNameTheirSet` | CODE/src/client/cache/cache.cpp:90-111 | a non-empty answer is the value of the last set of its key, and less time has passed since than that set allows |
| `CacheCleaner.CleanerIsInvisible` | CODE/src/client/cache/cache.cpp:138-161 | after any run, a cleaner pass changes no answer of any later run of sets, gets and passes in which no set evicts |
| `CacheCleaner.CleanerIsInvisibleAtTheEnd` | CODE/src/client/cache/cache.cpp:138-161 | after any run, if the expired entries are the least recently used ones, a pass changes no answer of any later run, with evictions too |
| `CacheCleaner.PassSavesAKey` | CODE/src/client/cache/cache.cpp:66-79 | if an expired entry was used more recently than a live one, any new entry whose size falls in the gap makes a get of the live key answer its value after a pass and nothing without it |
| `CacheCleaner.CleanerIsInvisibleExactly` | CODE/src/client/cache/cache.cpp:138-161 | after any run that left entries with a name and a value: a pass changes no answer of any later run if and only if no live entry was used less recently than an expired one |
| `CacheCleaner.PassChangesAnAnswer` | CODE/src/client/cache/cache.cpp:138-161 | a state in which a pass changes the answer to a get is reached by two sets |
| `Bits.FindLSBSetNonZero` | CODE/utils/libraries/snappy/snappy-stubs-internal.h:379-392 | the portable loop finds the lowest set bit of every non-zero word |
| `Bits.FindLSBSetNonZero64` | CODE/utils/libraries/snappy/snappy-stubs-internal.h:418-428 | so does the 64-bit form built from it |
| `Bits.Log2FloorNonZero` | CODE/utils/libraries/snappy/snappy-stubs-internal.h:358-373 | the portable loop finds the highest set bit of every non-zero word |
| `Bits.LeftStepsFind` | CODE/utils/libraries/snappy/snappy-stubs-internal.h:383-391 | the five halving shifts end at the lowest set bit |
| `Bits.RightStepsFind` | CODE/utils/libraries/snappy/snappy-stubs-internal.h:361-371 | the five halving shifts end at the highest set bit, with 1 left of the value |
| `MatchLength.FirstDifference` | CODE/utils/libraries/snappy/snappy-internal.h:234-236 | the lowest set bit of the exclusive or lies in the first byte in which two words differ |
| `MatchLength.MatchedBytes` | CODE/utils/libraries/snappy/snappy-internal.h:234-255 | the number of equal leading bytes, and a word whose low five bytes are the bytes from the difference on, from at most twelve bytes |
| `MatchLength.MatchedBytes32` | CODE/utils/libraries/snappy/snappy-internal.h:320-323 | the number of equal leading bytes of two different 32-bit words |
| `MatchLength.MatchIsLongest` | CODE/utils/libraries/snappy/snappy-internal.h:158-163 | the specified length is the greatest length of a common prefix, and the only one |
| `MatchLength.FindMatchLength` | CODE/utils/libraries/snappy/snappy-internal.h:178-306 | exact match length for every input, the flag n < 8, data stored exactly if eight bytes are left, its low five bytes being the next five, and no read at or past the limit |
| `MatchLength.FindMatchLength32` | CODE/utils/libraries/snappy/snappy-internal.h:309-334 | the same for the other variant, in both byte orders |
| `MatchLength.FindMatchLengthPlain` | CODE/utils/libraries/snappy/snappy-internal.h:337-360 | exact match length, in both byte orders |
| `Varint.RoundTrip` | CODE/utils/libraries/snappy/snappy-stubs-internal.h:455-503 | the encoding of every 32-bit value has one to five bytes, and followed by any bytes is read as the value with reading stopped at its end |
| `Varint.PrefixesAreRejected` | CODE/utils/libraries/snappy/snappy-stubs-internal.h:455-475 | every proper prefix of an encoding is rejected |
| `Varint.AcceptedIsEncoding` | CODE/utils/libraries/snappy/snappy-stubs-internal.h:455-475 | an accepted input is the encoding of its value if and only if it is one byte long or does not end in a zero byte |
| `Varint.EncodingIsBase128` | CODE/utils/libraries/snappy/snappy-stubs-internal.h:477-503 | the encoding is the value in digits to base 128, lowest first, with the high bit on all but the last |
| `Varint.Encode32` | CODE/utils/libraries/snappy/snappy-stubs-internal.h:477-503 | writes exactly the encoding from the pointer on and touches nothing else in the buffer |
| `Varint.Parse32WithLimit` | CODE/utils/libraries/snappy/snappy-stubs-internal.h:455-475 | the straight-line reader reads as the recursive format says, on every input, and never at or past the limit |
| `Hex.FromIToHex` | CODE/utils/libraries/cpp-httplib/httplib.h:2736-2744 | prints the numeral, whose value is the number |
| `Hex.NumeralStandsFor` | CODE/utils/libraries/cpp-httplib/httplib.h:2736-2744 | the printed digits stand for the number |
| `Hex.FromHexToI` | CODE/utils/libraries/cpp-httplib/httplib.h:2720-2734 | succeeds exactly if that many hexadecimal digits are there, with their value, and never reads past the end |
| `Hex.NumeralIsLowerCase` | CODE/utils/libraries/cpp-httplib/httplib.h:2736-2744 | the numeral has the sixteen lower-case digits only and no leading zero |
| `Hex.DigitValues` | CODE/utils/libraries/cpp-httplib/httplib.h:2701-2718 | digits are read in either case |
| `Url.EncodeQueryParam` | CODE/utils/libraries/cpp-httplib/httplib.h:2865-2884 | the loop computes the encoding that decoding is proved to undo |
| `Url.DecodeUrl` | CODE/utils/libraries/cpp-httplib/httplib.h:2918-2953 | the index loop computes the step-by-step decoding, for malformed escapes too |
| `Url.RoundTrip` | CODE/utils/libraries/cpp-httplib/httplib.h:2865-2953 | decoding undoes encoding on every byte string, for both settings of the plus flag |
| `Url.Utf8RoundTrip` | CODE/utils/libraries/cpp-httplib/httplib.h:2746-2777 | a code point is written as well-formed UTF-8 that reads back as itself exactly if it is no surrogate and at most 10FFFF |
| `Url.EncodedByte` | CODE/utils/libraries/cpp-httplib/httplib.h:2870-2880 | letters, digits and nine marks stay; any other byte becomes a percent sign and its two upper-case digits |
| `Url.EncodedIsPlain` | CODE/utils/libraries/cpp-httplib/httplib.h:2865-2884 | encoded text has nothing but those characters and percent signs |
| `Url.UnchangedExactly` | CODE/utils/libraries/cpp-httplib/httplib.h:2865-2884 | encoding leaves a text as it is if and only if there is nothing to escape in it |
| `Url.WideEscape` | CODE/utils/libraries/cpp-httplib/httplib.h:2924-2934 | %u and four digits are read as the UTF-8 of that code point, and as nothing for a surrogate |
| `Url.PlusIsEscapedSpace` | CODE/utils/libraries/cpp-httplib/httplib.h:2945-2946 | on every text, malformed escapes included, reading plus signs as spaces is the same as reading each written as %20 |
| `Chunked.FirstLineEndsFirst` | CODE/utils/libraries/cpp-httplib/httplib.h:3067-3094 | a line ends at the first CR LF, or is everything left if there is none |
| `Chunked.LineReader.Append` | CODE/utils/libraries/cpp-httplib/httplib.h:3096-3107 | the line grows by the byte, through the change from the fixed to the growable buffer |
| `Chunked.LineReader.Getline` | CODE/utils/libraries/cpp-httplib/httplib.h:3061-3094 | reads exactly the first line and nothing behind it; false exactly if nothing is left, on a stream without errors |
| `Chunked.ReadContentWithLength` | CODE/utils/libraries/cpp-httplib/httplib.h:4363-4382 | takes exactly the wanted bytes in whatever pieces the stream gives them, or everything if there are fewer |
| `Chunked.ReadContentChunked` | CODE/utils/libraries/cpp-httplib/httplib.h:4411-4475 | on a stream without errors, however it cuts its reads: result, body and what is left are those of the decoding function |
| `Chunked.SizeLine` | CODE/utils/libraries/cpp-httplib/httplib.h:4424-4432 | the size line of a chunk is read as the size that was printed |
| `Chunked.ReadOneChunk` | CODE/utils/libraries/cpp-httplib/httplib.h:4411-4475 | reading one written chunk gives its bytes and goes on right behind it |
| `Chunked.WriteContentChunked` | CODE/utils/libraries/cpp-httplib/httplib.h:4703-4801 | the calls of a content provider put the specified bytes on the stream, stopping at done or at an empty write |
| `Chunked.ReadsWhatWasWritten` | CODE/utils/libraries/cpp-httplib/httplib.h:4411-4475 | for any calls of the provider, what was sent is read back completely, and the reader succeeds if and only if every write was non-empty up to a final done |
| `Chunked.RoundTrip` | CODE/utils/libraries/cpp-httplib/httplib.h:4411-4475 | a properly ended body is read back in front of any bytes, which stay unread |
| `Chunked.ReadsEveryBody` | CODE/utils/libraries/cpp-httplib/httplib.h:4411-4475 | chunks with any extensions, a last chunk, any trailer lines and an empty line are read, with everything behind left unread |
| `Chunked.MissingEndIsRejected` | CODE/utils/libraries/cpp-httplib/httplib.h:4441-4443 | a chunk without CR LF behind its bytes is rejected |
| `Watcher.LoopMovesTheSubtree` | CODE/src/client/watcher/watcher.cpp:21-29 | the loop's test agrees with is_descendant on all paths if and only if the old path does not end in a slash |
| `Watcher.JoinEndsInSlash` | CODE/src/client/watcher/watcher.cpp:140-143 | the path of an event with a name is not empty and does not end in a slash |
| `Watcher.JoinedPath` | CODE/src/client/watcher/watcher.cpp:140-143 | the path of an event is the directory, one slash and the name; it lies below the directory and its last name is that of the event |
| `Watcher.DirectoryWatcher.RelocateWatches` | CODE/src/client/watcher/watcher.cpp:257-269 | in whatever order the map is walked, every watch is relocated once |
| `Watcher.MoveRelocatesTheSubtree` | CODE/src/client/watcher/watcher.cpp:249-269 | for every move of an entry of one directory to an entry of another: exactly the watches at or below the old path follow, to the same suffix, and none is left behind when neither path lies below the other |
| `Watcher.MoveBackRestores` | CODE/src/client/watcher/watcher.cpp:249-269 | for every such move: moving back restores the map if and only if every watch at or below the new path was at or below the old one |
| `Watcher.RelocatesTheSubtree` | CODE/src/client/watcher/watcher.cpp:257-269 | the same relocation for any two paths that do not end in a slash |
| `Watcher.NoneLeftBehind` | CODE/src/client/watcher/watcher.cpp:257-269 | no watch is left at or below the old path when neither path lies below the other |
| `Watcher.MovedBackExactly` | CODE/src/client/watcher/watcher.cpp:257-269 | the condition for moving back for any two paths that do not end in a slash |
| `Watcher.MovedSnapshotLacksItsBase` | CODE/src/client/watcher/watcher.cpp:284-300 | after both halves of a move the snapshot is the moved one, but without the moved directory itself |
| `Watcher.BelowIsDeeper` | CODE/src/client/watcher/watcher.cpp:56-59 | what is below a directory has a greater depth |
| `Watcher.DirectoryWatcher.GetSnapshotEntries` | CODE/src/client/watcher/watcher.cpp:43-53 | exactly the snapshot paths at or below the base, once each |
| `Watcher.DirectoryWatcher.OnDirectoryMovedFrom` | CODE/src/client/watcher/watcher.cpp:140-247 | the path is the watched directory, a slash and the name; the subtree leaves the snapshot, exactly its paths are reported, each before every directory above it and none twice, and the path is remembered |
| `Watcher.DirectoryWatcher.OnDirectoryMovedTo` | CODE/src/client/watcher/watcher.cpp:249-309 | the new path is the watched directory, a slash and the name; exactly the watches at or below the remembered path follow it; walked paths are added to the snapshot, exactly the directory and its paths are reported, the cookie is dropped |
| `Watcher.NewsIsNew` | CODE/src/client/watcher/watcher.cpp:216-223 | an event is queued exactly if it was not reported before, and once |

## Left out

- CODE/src/meta_blockserver/node.py and CODE/utils/Distributed_KV/node.py: the same protocol again.
- Agreement of logs across leaders or with lost messages: the protocol does not match logs, so it does not hold; `Scenarios.AcceptedPutCanBeReplaced` ends with two different logs.
- Starting a put from `startHeartBeat` when something is staged: in the cluster it is an ordinary put of that payload.
- Releasing the lock after the commit messages went out: the next put may start as soon as the put has ended.
- NodeImpl.Node.HandlePut: the whole put with nothing in between; interleavings with other handlers are the steps StartPut, Confirm, FinishPut and RejectPut of the cluster.
- Decimal.IntOfStr: digits outside ASCII are not read, because the versions the server stores have none.
- HTTP, JSON, tokens, threads, sleeps, inotify, the real file system and RocksDB itself: their results are parameters or steps.
- The three-way merge itself, which a library does: `Conflicts` takes any function for it, and the conflict copy, which booting sends as a new file, stays out of `Boot`.
- Database.Db.RemoveDirectory: that everything reachable goes is stated for stored lists in which no file entry has lists of its own; `Database.ListedTwiceStays` is an input where it does not.
- Boot.Client.Boot: failing requests and files that change during booting are not modelled.
- Failing writes of the metadata server to its store, notifications, timestamps and the deletion queue.
- CacheImpl.Cache.Set: wrap-around of `size_t` at two to the 64 is not modelled, because the bound is far below it.
- The compiler-intrinsic forms of the bit scans: the match finders use the portable ones.
- MatchLength.FindMatchLength32: the `int` counter is unbounded here.
- Prefetching and branch prediction hints, and the x86 conditional move, which is written as the conditional expression beside it.
- Chunked.ReadContentChunked: content receivers that stop early, and storing trailer fields as headers, are not modelled.
- Chunked.WriteContentChunked: failing writes, shutdown, compression, written trailers, and a provider that does several things in one call are not modelled.
- Url.Utf8RoundTrip: overlong forms are not refused by the reading side, because only written sequences matter.
- Create, delete and modify events of the watcher, and files moved on their own: each adds or removes one path.
- Watcher.DirectoryWatcher.OnDirectoryMovedTo: what walking the new directory yields is a parameter, so a walk that fails half way is covered but not explained.
