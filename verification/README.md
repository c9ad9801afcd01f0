# distribd: the replicated registry, verified

distribd is a container image registry whose metadata is a Raft-replicated state machine. This project
models what Raft drives, in Dafny: the state machine and its pending-download sets, the Raft log kept in a
byte-keyed tree, snapshots, import and export, the tag listing, the manifest extractor and the push built
from it, garbage collection with its directory pruning, and mirroring. The committed log is a given
sequence of entries; consensus is not modelled.

`src/store/mod.rs`, `src/garbage.rs`, `src/extractor.rs`, `src/mirror.rs`, `src/network/management.rs` and
`src/registry/manifests/put.rs` work by updating things step by step, so their operations are methods (on
classes where the source has objects) with the source's loops and branches, each proved against a
specification over values. What the system promises is proved about those specifications:

| File | Contents |
|---|---|
| `Types.dfy`, `StateMachine.dfy` | records, actions, log entries; the fold of actions over the three trees, and its projection to one digest or tag |
| `History.dfy` | every field of a folded record read off the list of past changes |
| `Replication.dfy` | log replay; the incrementally maintained pending sets against the filter they cache |
| `Store.dfy` | class `RegistryStore`: applying entries, snapshots in and out, the mark loop |
| `Snapshot.dfy`, `ImportExport.dfy` | round trips and refinement; what a follower and a re-import end up with |
| `Graph.dfy`, `Garbage.dfy`, `GarbageSafety.dfy`, `GarbageConvergence.dfy` | reachability; the two phases; safety of late decisions over whole runs; two rounds suffice |
| `Extractor.dfy`, `Push.dfy` | the worklist over uploaded content; the push transaction and what survives it |
| `Encoding.dfy`, `TagScan.dfy`, `RaftLog.dfy` | big-endian and length-prefixed keys, the range scans that rely on their order, the log store |
| `Mirror.dfy`, `MirrorCluster.dfy` | one transfer; a cluster of members with stale views, progress and convergence |
| `Files.dfy` | the content directory: sharded paths and pruning |
| `FailingCases.dfy` | concrete runs in which a property with a condition fails |

A panic (`unwrap` of `None`) is the outcome `Panic`. Blobs and manifests behave alike in the source, so
their specification is shared (`Kind`), while the imperative code keeps both copies of each branch.

## What the proofs show about the code

The properties below do not hold as one would wish. Each but the last, which is a matter of order only, is
stated with its exact condition, and `FailingCases.dfy` reaches a failing case of it from an empty registry
or an empty log.

- A push can leave an image incomplete. The extractor stops at a blob analysed by an earlier push, and does
  not check that the blob's own children are still there; garbage collection may have taken one while the
  blob itself waited for another node. `Push.PushCompleteIff` and `Push.PushCompleteBeforehandIff` give the
  condition, `FailingCases.ChildCollected` and `FailingCases.CollectedChildIsMissed` a case.
- A digest whose last copy is given up while it is pending stays in the pending set.
  `Replication.BatchExactIff` says when the cache is exact, `Mirror.SkippedAreExtras` that a transfer skips
  exactly the leftovers; `FailingCases.LostDigestStaysPending` is a case.
- Installing a snapshot does not clear the trees. A follower that lags keeps digests deleted in the meantime
  (`Snapshot.FollowerInstallExactIff`, `FailingCases.FollowerKeepsDeletedDigest`); the damage stays confined
  to them (`Snapshot.StaleFollowerKeepsUp`).
- Import panics when an exported object has a copy but no mount, and silently drops one with neither
  (`ImportExport.ImportPanicsIff`, `ImportExport.ImportRestoresIff`; `FailingCases.ImportOfUnmountedCopyPanics`,
  `FailingCases.ImportDropsBareRecord`).
- Not every orphan is collected, although the documentation says that whatever is unreachable from a tag is.
  One round removes an orphan if and only if some node holds it, only nodes of the round do, and it is twelve
  hours old or unmounted already (`GarbageConvergence.RoundRemovesIff`); one that nobody holds stays for good
  (`GarbageSafety.UnheldIsNeverCollected`, `FailingCases.MountedOnlyIsNeverCollected`).
- A pushed image need not be pullable. Where extraction stops it does not ask in which repositories the blob
  is mounted, but a pull does (`src/registry/blobs/get.rs:43-46`). `Push.PushPullableIff` and
  `Push.PushPullableBeforehandIff` give the condition, `FailingCases.ForeignBlobCannotBePulled` a case.
- A member that installs a snapshot stops mirroring until it is restarted: the installation replaces the
  channels its mirror loops subscribed to at start, and the loops end (`Snapshot.MirrorsIff`). When nobody has
  anything left to do, everything is replicated if and only if the members that stopped hold it already
  (`MirrorCluster.QuietIsReplicatedIff`, `MirrorCluster.MirroringConverges`);
  `FailingCases.StoppedMemberStaysWithout` is a case.
- A member that has not applied its own copy yet may transfer the same object again, and such a repetition
  supplies nothing (`MirrorCluster.TransferSuppliesIff`, `MirrorCluster.SameTransferRepeats`,
  `FailingCases.MemberRepeatsTransfer`). It only delays convergence: `MirrorCluster.MirroringConverges` counts
  the repetitions. An ordinary pass over different objects has none (`MirrorCluster.PassDoesNotRepeat`).
- Log truncation is documented as `[since, +oo)` but leaves an entry at index `2^64 - 1`; it does what is
  documented if and only if there is none (`RaftLog.TruncatesFullyIff`,
  `FailingCases.TopEntrySurvivesTruncation`).
- The store's tag listing comes out ordered by length first (`Encoding.NamesSortByLength`); the HTTP handler
  sorts it again.

## Model

| member | source | states |
|---|---|---|
| StateMachine.StepMeans | src/store/mod.rs:934-1177 | what each kind of action does to every record and tag: the one it names changes in the fields given, or appears, or goes with its last holder, and all others stay |
| StateMachine.RunProjects | src/store/mod.rs:923-1177 | after a transaction the record of a digest is the fold of just the changes naming that digest |
| StateMachine.RunTags | src/store/mod.rs:1166-1175 | a tag resolves to its last `HashTagged`, or to what it resolved to before |
| StateMachine.RunPanicsIff | src/store/mod.rs:943-946 | a transaction panics exactly when the changes of some single digest do |
| StateMachine.SameProjectionsSameRun | src/store/mod.rs:923-1194 | two transactions that agree digest by digest and tag by tag have the same outcome, panics included |
| StateMachine.DifferentTargetsCommute | src/store/mod.rs:932-1177 | actions on different records or tags commute |
| History.LocationsHistory | src/store/mod.rs:937-968 | a node is a location of a digest iff its last Stored/Unstored there was Stored, across deletions |
| History.PresenceHistory | src/store/mod.rs:951-993 | a record exists iff some mount was never followed by the loss of the last copy |
| History.RepositoriesHistory | src/store/mod.rs:970-1008 | a repository is listed iff it was mounted since the last deletion and not unmounted after |
| History.MetadataHistory | src/store/mod.rs:970-1037 | created is the mount that made the record, updated the last change; type, dependencies and size are the last given since |
| History.DeletedIffEmptied | src/store/mod.rs:951-968 | an Unstored deletes the record iff nobody holds it afterwards |
| History.TagHistory | src/store/mod.rs:1166-1175 | from an empty registry a tag names a digest iff its last tagging did |
| History.ReplayedLocations | src/store/mod.rs:923-1177 | the location history applied to any record of a replayed log |
| Replication.ReplayRuns | src/store/mod.rs:917-1194 | entry boundaries do not matter to the trees |
| Replication.ReplayAppend | src/store/mod.rs:917-1194 | replaying two lists of entries one after the other gives the trees, last applied id and membership of their concatenation |
| Replication.LastAppliedIsLast | src/store/mod.rs:917-932 | the last applied id of a replay is that of the last entry, or the earlier one if there is none |
| Replication.MembershipIsLast | src/store/mod.rs:1183-1189 | the membership after a replay is that of the last membership entry, stored with the id of that entry |
| Replication.MembershipStays | src/store/mod.rs:1183-1189 | without a membership entry the membership stays |
| Replication.RefreshAllAt | src/store/mod.rs:1207-1280 | what the second pass does to one digest: it matters only whether a move names it and what the final tree says |
| Replication.BatchKeepsPending | src/store/mod.rs:1202-1280 | a batch keeps the pending set in agreement with the filter on every digest with a copy |
| Replication.BatchExactIff | src/store/mod.rs:1202-1280 | an exact pending set stays exact iff the batch deletes no pending digest |
| Replication.BatchingAgrees | src/store/mod.rs:917-1280 | one batch or two give the same trees, and pending sets that differ only where nobody has a copy |
| Store.RegistryStore.constructor | src/store/mod.rs:1387-1430 | the pending sets are the filter of whatever the database holds |
| Store.RegistryStore.ApplyAction | src/store/mod.rs:934-1177 | one action has the specified effect on the three trees |
| Store.RegistryStore.ApplyEntries | src/store/mod.rs:917-1194 | replays all entries; one response each, carrying the entry's index |
| Store.RegistryStore.ApplyToStateMachine | src/store/mod.rs:908-1283 | trees, last applied id and membership are the replay; the pending sets are refreshed against the final trees |
| Store.RegistryStore.RefreshActions | src/store/mod.rs:1211-1280 | the second pass over the actions of one entry |
| Store.RegistryStore.CaptureSnapshot | src/store/mod.rs:121-178 | the snapshot holds the state, tags nested by repository |
| Store.RegistryStore.NestTags | src/store/mod.rs:153-168 | grouping the tag tree repository by repository |
| Store.RegistryStore.InsertAll | src/store/mod.rs:309-318 | a right-biased union, and the pending set of the inserted records |
| Store.RegistryStore.InsertTags | src/store/mod.rs:338-354 | a right-biased union with the flattened tags |
| Store.RegistryStore.InstallSnapshot | src/store/mod.rs:300-373 | the whole new state: unions, last applied id if given, membership, pending sets of the snapshot, on channels nobody subscribed to |
| Store.RegistryStore.Mark | src/store/mod.rs:1546-1582 | for every graph and order of visits: exactly what a dependency path from the roots reaches, and termination |
| Store.RegistryStore.GetOrphanedBlobs | src/store/mod.rs:1546-1582 | exactly the blobs no manifest reaches, with their records |
| Store.RegistryStore.GetOrphanedManifests | src/store/mod.rs:1584-1589 | exactly the manifests no tag names, with their records |
| Graph.OrphanBlobIff | src/store/mod.rs:1546-1582 | a blob is orphaned iff some set of digests without it holds the dependencies of every manifest and is closed under the dependencies of blobs |
| Snapshot.SnapshotMeans | src/store/mod.rs:121-178 | a tag stands in the nested map iff it is in the tree, with the same digest; the other components are the state's own |
| Snapshot.InstallMeans | src/store/mod.rs:300-373 | digest by digest and tag by tag: the snapshot's where it has one, otherwise what was there; its membership, and its last applied id if it gives one |
| Snapshot.NestRoundTrip | src/store/mod.rs:121-178 | nesting then flattening the tag tree is the identity |
| Snapshot.FlattenRoundTripIff | src/store/mod.rs:338-354 | the converse holds iff no repository is listed without tags |
| Snapshot.SnapshotRefines | src/store/mod.rs:720-770 | at every log split, snapshot, install into an empty store and replay the rest: the state of the whole log, pending sets in agreement |
| Snapshot.FollowerInstallExactIff | src/store/mod.rs:306-373 | a lagging follower gets tags, last applied id and membership exactly, and a tree exactly iff no digest it holds was deleted since |
| Snapshot.StaleFollowerKeepsUp | src/store/mod.rs:306-373 | such a follower never panics where the leader does not, and agrees on every digest that is not stale, after any further log |
| Snapshot.InstallPendingIff | src/store/mod.rs:309-336 | after installation the pending set agrees with the filter iff no stale digest is wanted |
| Snapshot.PendingAgreesAlways | src/store/mod.rs:1202-1280 | over every run of commits, restarts and clean installations the pending sets agree with the filter wherever there is a copy |
| Snapshot.MirrorsIff | src/store/mod.rs:356-363 | the mirror loops of a node run iff it has not installed a snapshot since its last start |
| ImportExport.Export | src/network/management.rs:181-192 | the export is the state with its tags nested |
| ImportExport.ImportObject | src/network/management.rs:92-124 | the changes of one object: its mounts, its copies, its info if it has one, its size if it has one, in this order |
| ImportExport.ImportTree | src/network/management.rs:92-159 | each object of one tree is recreated by its own changes, and nothing else is touched |
| ImportExport.ImportTags | src/network/management.rs:160-170 | the last tagging of each key is the imported one, and there are no others |
| ImportExport.Import | src/network/management.rs:85-176 | the transaction recreates exactly the objects and tags of the body, whatever order sets and maps are listed in, with the import's time and name on all of it |
| ImportExport.RecreatesRecord | src/network/management.rs:92-124 | replaying one object's changes: a panic, nothing, or the record as it was up to timestamps, and when |
| ImportExport.ImportPanicsIff | src/network/management.rs:85-192 | import into an empty cluster panics iff some exported object has a copy but no mount |
| ImportExport.ImportRestoresIff | src/network/management.rs:85-192 | import after export is the identity up to timestamps iff every object is mounted somewhere |
| ImportExport.ReachableExportRestores | src/network/management.rs:85-192 | the same for every state a log can reach, without any hypothesis on records |
| Garbage.CollectPhase1 | src/garbage.rs:19-73 | exactly one unmount for each repository of each orphan at least twelve hours old |
| Garbage.Phase1Means | src/garbage.rs:19-73 | a repository's unmount is emitted iff the object is orphaned, at least 43200 seconds old and mounted there; none twice, nothing else, all as `$system` |
| Garbage.SweepStores | src/garbage.rs:126-146 | one kind's loop: in some order each orphan to be given up is cleaned up once, with exactly the disk and the failures that makes; an unstore for each that did not fail |
| Garbage.CollectPhase2 | src/garbage.rs:121-181 | exactly the disk, the failures and the unstores that cleaning up each unmounted orphan held here makes, manifests first; an object none of whose four paths is refused is given up; refused paths and foreign files stay; with nothing refused no empty shard directory is left |
| Garbage.Phase2Means | src/garbage.rs:121-181 | an unstore is emitted iff the object is orphaned, held here, mounted nowhere and its clean-up did not fail; none twice, nothing else, all as `$system` |
| Garbage.SweepMeans | src/garbage.rs:126-146 | over a whole sweep: an object fails only if its own path is a directory or one of its four paths is refused; the others' files are gone; only shard directories go, none refused; a tidy disk stays tidy when nothing is refused |
| Garbage.KeptFilesStay | src/garbage.rs:121-181 | phase 2 leaves the file of every object its node keeps, whatever the kind, untouched |
| GarbageSafety.GcCommit | src/garbage.rs:26-62 | a collection committed in any later state, its manifests and its blobs read in states of their own, never panics, only shrinks records, and leaves what was not orphaned alone |
| GarbageSafety.OneRead | src/garbage.rs:121-181 | a phase decided from one state is such a transaction |
| GarbageSafety.RunShrinks | src/garbage.rs:19-181 | along a run of late collections, tags are constant and records only lose mounts, copies or themselves |
| GarbageSafety.DecisionsStayValid | src/garbage.rs:126-170 | orphanhood, empty repositories and age, once observed, stay true until the object is gone |
| GarbageSafety.TaggedManifestsKept | src/garbage.rs:19-181 | no run changes a tag or a tagged manifest |
| GarbageSafety.SurvivingImagesKept | src/garbage.rs:19-181 | a manifest that survives keeps every blob it reached, unchanged, however late transactions commit |
| GarbageSafety.NothingReachableIsLost | src/garbage.rs:19-181 | the same between any two points of a run |
| GarbageSafety.CompletenessKept | src/garbage.rs:19-181 | collection leaves no manifest with a missing blob that was not missing already |
| GarbageSafety.UnheldIsNeverCollected | src/store/mod.rs:951-968 | an object nobody holds is present in every state of every run; for one round the exact condition is GarbageConvergence.RoundRemovesIff |
| GarbageConvergence.RoundRemovesIff | src/garbage.rs:19-181 | one round, its nodes deciding concurrently from any states after phase 1, removes an orphan iff some node holds it, only nodes of the round do, and it is old enough or unmounted already |
| GarbageConvergence.UnremovableStays | src/garbage.rs:19-181 | what a later and wider round could not remove stays, orphan or not, and still cannot be removed |
| GarbageConvergence.FirstRound | src/garbage.rs:19-181 | a round leaves what the tagged manifests reach untouched, and exactly the tagged manifests iff every other is removable |
| GarbageConvergence.SecondRound | src/garbage.rs:19-181 | with only tagged manifests left, a round removes exactly the removable blobs they do not reach; nothing is orphaned afterwards iff all of those were removable |
| GarbageConvergence.TwoRoundsConverge | src/garbage.rs:19-181 | two quiet rounds leave the tags, exactly the tagged manifests and exactly the blobs they reach, unchanged, when the first can remove the other manifests and one of them each other blob |
| GarbageConvergence.TwoRoundsConvergeIff | src/garbage.rs:19-181 | for a second round that is later and at least as wide, exactly when that one can remove every other blob |
| GarbageConvergence.SettledEmitsNothing | src/garbage.rs:19-181 | after that neither phase emits an action |
| Files.FileStore.CreateDirAll | src/utils.rs:14 | every directory on the way exists afterwards, or a file is in the way and nothing changed |
| Files.FileStore.GetPath | src/utils.rs:5-35 | the sharded path, its directories made; a panic iff the hash is short or a file is in the way |
| Files.FileStore.CleanupObject | src/garbage.rs:75-119 | when it fails and what is left then; otherwise the file and, within three levels, exactly the directories that led to nothing else are gone |
| Files.CleanupContent | src/garbage.rs:135-139 | path lookup and clean-up together: reports failure exactly when the clean-up fails, and on success the file and exactly the three levels of emptied directories are gone |
| Files.SweptOneMeans | src/garbage.rs:75-139 | failed or not, it removes no file but its own and no directory but shards that are not refused, adds only directories above its path, and fails only for the refusal of one of its four paths or a directory in place of the file |
| Files.SweptOneExactly | src/garbage.rs:75-139 | exactly what one clean-up leaves, failed or not: the file unless it is refused; then a directory of the three above it iff it holds something else or it or one below it is refused |
| Files.PrunedChain | src/garbage.rs:84-115 | what is pruned is exactly the nearest m directories above the file, m at most three, and the chain ends early only at a directory that holds something else |
| Files.EmptiedIsShard | src/garbage.rs:84-115 | for a content path all of it lies below the two content directories, never the root |
| Files.PathsDiffer | src/utils.rs:5-35 | two objects share a path iff they have the same kind and hash |
| Files.CleanupKeepsTidy | src/garbage.rs:135-139 | the clean-up of one object leaves no empty shard directory, even the ones its own path lookup made |
| Files.SweptOneTidy | src/garbage.rs:135-139 | with nothing refused, one object's clean-up leaves a tidy disk tidy |
| Files.StoreThenCleanup | src/garbage.rs:75-119 | storing an object and cleaning it up restores the content directory exactly |
| Extractor.Visit | src/extractor.rs:259-333 | one reference: refused for one of the faults the source names, dealt with already, or exactly one info carrying the references read from its content |
| Extractor.Extract | src/extractor.rs:216-341 | terminates on every content graph; Ok gives at most one info per blob, each for a reference whose blob is mounted, of the stated size and readable, with the dependencies read, every dependency present and covered; Err means something referred to has a fault |
| Extractor.AnalysisIsRead | src/extractor.rs:257-333 | in an accepted analysis every info stands for a reference to a present blob mounted here whose size is the one stated, if one is; of a type with a schema, its content is readable and names exactly the dependencies; the manifest's are those of its content |
| Extractor.ReferredIsLeast | src/extractor.rs:257-333 | what counts as referred to is in every set that holds the references of the manifest and is closed under those of the unanalysed blobs it reads |
| Extractor.TrailCovered | src/extractor.rs:257-336 | when references agree, every blob at the end of a trail of references is present and analysed |
| Extractor.OrderDoesNotMatter | src/extractor.rs:257-336 | when references agree, the outcome and the set of blobs analysed do not depend on the drain order |
| Push.Assemble | src/registry/manifests/put.rs:66-106 | mount, store, stat, the analysis, then the tag; refused only if the content is unreadable or refers to something unacceptable |
| Push.PutManifest | src/registry/manifests/put.rs:66-121 | accepted with that transaction, the upload in its place and the write committed; refused and nothing touched, or not moved, or moved and not committed; or a panic, and when |
| Files.PlaceContent | src/utils.rs:5-35 | moving content to its digest's place: no path, iff the hash is short or a file is in the way; not moved, iff a directory is there; or moved and nothing else changed |
| Push.PushEffect | src/registry/manifests/put.rs:71-105 | the exact state after the push, and that it never panics |
| Push.PushMeans | src/registry/manifests/put.rs:71-105 | the pushed record and tag field by field, and each blob analysed on the way: only its type, dependencies and time of change are new |
| Push.PushIsSafe | src/registry/manifests/put.rs:71-105 | the tag resolves, all dependencies stay present, and neither the manifest nor anything it reaches is an orphan |
| Push.PushedImageSurvivesGc | src/registry/manifests/put.rs:71-105 | after any run of collections the tag still finds the manifest and every blob it reached, unchanged |
| History.RunKeepsAnalysed | src/store/mod.rs:976-1024 | in every reachable state a record without a content type has dependencies exactly `Some([])` |
| Push.PushCompleteIff | src/extractor.rs:267-270 | the pushed image is complete iff everything below each blob where extraction stopped is present |
| Push.StopsAre | src/extractor.rs:267-270 | when references agree, extraction stops at exactly the analysed blobs the content refers to |
| Push.PushCompleteBeforehandIff | src/extractor.rs:267-270 | when references agree, the same condition over the content and the state before the push |
| Push.PushPullableIff | src/extractor.rs:267-274 | everything the pushed manifest reaches is present and mounted in its repository iff each blob where extraction stopped, and everything below it, is |
| Push.PushPullableBeforehandIff | src/extractor.rs:267-274 | when references agree, the same condition over the content and the state before the push |
| FailingCases.ChildCollected | src/garbage.rs:126-170 | a state reached by a log, in which a collection takes the child of an analysed blob |
| FailingCases.CollectedChildIsMissed | src/extractor.rs:267-270 | after that a push that refers to the analysed blob is accepted and tags an incomplete image |
| FailingCases.ForeignBlobCannotBePulled | src/extractor.rs:267-274 | a reachable state in which an accepted push reaches a blob not mounted in its repository |
| FailingCases.StoppedMemberStaysWithout | src/mirror.rs:243-306 | a reachable cluster with nothing left to do whose member, having installed a snapshot, lacks a blob until it is restarted |
| FailingCases.LostDigestStaysPending | src/store/mod.rs:1232-1241 | the last copy of a pending digest goes and the digest stays pending |
| FailingCases.FollowerKeepsDeletedDigest | src/store/mod.rs:306-354 | a follower installs the snapshot of a leader that deleted a digest, and keeps the digest |
| FailingCases.ImportOfUnmountedCopyPanics | src/network/management.rs:92-124 | an import of a reachable export exists, and every such import panics |
| FailingCases.ImportDropsBareRecord | src/network/management.rs:92-124 | a reachable record without mount or copy is gone after import |
| FailingCases.MountedOnlyIsNeverCollected | src/store/mod.rs:970-993 | after a single mount the blob is an orphan that no round removes |
| FailingCases.TopEntrySurvivesTruncation | src/store/mod.rs:852-861 | a permitted run ends with an entry that a truncation at its own index leaves in place |
| FailingCases.MemberRepeatsTransfer | src/mirror.rs:284-303 | a reachable cluster of two in which one member transfers the same object twice |
| Encoding.BigEndianDecodes | src/store/mod.rs:532-543 | reading back a big-endian number gives the number |
| Encoding.BigEndianOnto | src/store/mod.rs:532-543 | every byte string of the width is the encoding of a number in range |
| Encoding.BigEndianIncreases | src/store/mod.rs:532-543 | big-endian encodings sort as the numbers do |
| Encoding.LessIff | src/store/mod.rs:490-543 | the byte order: one string is below another iff it ends, or has the smaller byte, at the first place where they differ |
| Encoding.KeyDecodes | src/store/mod.rs:490-505 | a tag key is recovered from its bytes, for all repository and tag strings |
| Encoding.PrefixConvex | src/store/mod.rs:1495-1523 | strings that share a prefix are contiguous in byte order |
| Encoding.PrefixTellsRepository | src/store/mod.rs:490-505 | a key that starts with the encoding of a repository belongs to that repository |
| Encoding.NamesSortByLength | src/store/mod.rs:490-505 | encoded names sort by length, then by bytes |
| TagScan.ForeignEndsRepository | src/store/mod.rs:1510-1519 | a foreign key met by the scan is above every key of the repository |
| TagScan.GetTags | src/store/mod.rs:1495-1523 | each tag of the repository exactly once, nothing else, in key order |
| RaftLog.KeysSortAsIndexes | src/store/mod.rs:532-543 | eight-byte keys sort exactly as indexes and decode to them |
| RaftLog.KeysAreOnto | src/store/mod.rs:535-543 | every eight-byte string is the key of exactly one index |
| RaftLog.RangeRead | src/store/mod.rs:681-715 | stopping at the first row out of range loses nothing |
| RaftLog.RemoveBetween | src/store/mod.rs:852-861 | removing a range of byte keys removes exactly that range of indexes |
| RaftLog.LogStore.AppendToLog | src/store/mod.rs:826-843 | the index-keyed log gains the entries; the key assertion holds |
| RaftLog.AppendedLast | src/store/mod.rs:826-843 | after an append an index holds the last appended entry that has it |
| RaftLog.AppendedOther | src/store/mod.rs:826-843 | and every other index what it held before |
| RaftLog.LogStore.DeleteConflictLogsSince | src/store/mod.rs:846-865 | removes exactly the entries from the given index up to, not including, 2^64 - 1 |
| RaftLog.LogStore.PurgeLogsUpTo | src/store/mod.rs:868-889 | removes exactly the entries up to the given index and records it |
| RaftLog.LogStore.TryGetLogEntries | src/store/mod.rs:681-715 | exactly the entries of the range, ascending; the assertion on each key never fires |
| RaftLog.LogStore.GetLogState | src/store/mod.rs:777-805 | the last purged id, and the id of the last entry or else the last purged one |
| RaftLog.TruncatesFullyIff | src/store/mod.rs:846-865 | truncation removes everything from the given index on iff no entry has the index 2^64 - 1 |
| RaftLog.OpKeepsIntervalIff | src/store/mod.rs:826-889 | an append, up to the largest index, a truncation or a forward purge keeps the log an interval after the last purge iff it does not leave the entry of index 2^64 - 1 behind a gap |
| RaftLog.RunsKeepSpan | src/store/mod.rs:777-889 | over every run of such operations without that gap the keys are exactly the interval between the two ids reported |
| Mirror.Download | src/mirror.rs:141-195 | what is hashed is the body, each chunk at the offset the chunks before it make; nothing iff the status is not 200, or a chunk or a write failed |
| Mirror.JoinedIsBody | src/mirror.rs:171-181 | the joined chunks are as long as all of them together, and each stands at the sum of the lengths before it |
| Mirror.Fetch | src/mirror.rs:141-223 | a transfer arrives iff the status is 200, every chunk came and was written, and both the body streamed and the file read back have the digest asked for |
| Mirror.DoTransfer | src/mirror.rs:63-234 | skipped iff absent, held or without a source; otherwise the source of the membership that the choice picks is asked, each being some choice's, and exactly a checked body, of the digest asked for, is put in place and proposed as one copy |
| Mirror.Place | src/mirror.rs:225-233 | the checked file is at the digest's path and nothing else changed, or it is a panic or a retry, and when |
| Mirror.SkippedAreExtras | src/mirror.rs:68-109 | in every reachable state a pending digest is skipped by the guard iff it is gone or has no copy |
| MirrorCluster.QuietRun | src/store/mod.rs:937-950 | a log of copies never panics, keeps every object and adds exactly the copies it names |
| MirrorCluster.ReachedCluster | src/mirror.rs:243-306 | the invariant holds of a cluster whose members each got to the same trees by commits, restarts and clean installations; those mirror that have not installed a snapshot since their start |
| MirrorCluster.StartedCluster | src/store/mod.rs:1399-1413 | and of one that has just been started, where all mirror |
| MirrorCluster.InstallIsExact | src/store/mod.rs:300-373 | in a quiet cluster an installation leaves exactly the trees of the snapshot |
| MirrorCluster.LackingMemberCanMoveIff | src/mirror.rs:284-303 | a member that lacks what another holds can catch up or transfer it, without repeating itself, iff it lags or its mirror loops run |
| MirrorCluster.TransferMissing | src/mirror.rs:63-234 | a transfer, from however stale a view, removes at most its own pair from the missing ones and adds none |
| MirrorCluster.TransferSuppliesIff | src/mirror.rs:68-109 | a transfer supplies something missing iff the member has no copy of that object committed and not applied |
| MirrorCluster.PassDoesNotRepeat | src/mirror.rs:284-303 | a transfer stays a first one after any transfer of another object or at another member |
| MirrorCluster.SameTransferRepeats | src/mirror.rs:284-303 | the same transfer is enabled again until its copy is applied, and then supplies nothing |
| MirrorCluster.MoveChangesPotential | src/mirror.rs:284-303 | every enabled move keeps the invariant; a transfer or an applied entry lowers the potential by exactly one, an installation by one or more, a restart not at all, and a repeated transfer raises it by one entry for each member |
| MirrorCluster.QuietIsReplicatedIff | src/mirror.rs:243-306 | with nothing left to apply or transfer, every member holds and knows that it holds whatever any member held iff the members that stopped mirroring hold it |
| MirrorCluster.MirroringConverges | src/mirror.rs:236-389 | every run of transfers, applied entries, installations and restarts is bounded by its potential, repeated transfers and restarts, and where it comes to rest the same equivalence holds |
| MirrorCluster.MirroringConvergesFully | src/mirror.rs:236-389 | with all members mirroring and no installation, a run that comes to rest has replicated everything |
| MirrorCluster.StoppedStayAsTheyAre | src/mirror.rs:243-306 | without installations and restarts a stopped member is supplied at the end iff it was at the start |

## Left out

- Raft consensus, elections, the openraft adaptor and RPC: the library is not part of this model; the committed log is given.
- HTTP handlers, tokens, TLS, webhooks, metrics, configuration: plumbing around the modelled operations.
- sled: a tree is an ordered map and a transaction is atomic; an iterator over a range yields its rows in order and without errors (`TagScan.IsScan`).
- JSON, JSON schemas and SHA-256: content is a set of references that may be unreadable; the hash is an arbitrary function.
- Clocks: time is an integer parameter; the actions of one phase, push or import share one timestamp, where the source reads the clock for each.
- Waiters and `consistent_write`: the check and the registration of a waiter are not atomic in the source, so no wake-up guarantee holds.
- The mirror loop over the pending set: one iteration is `Mirror.DoTransfer`, and `MirrorCluster` is about any order of iterations at all members. A pass already under way when a snapshot is installed may still finish in the source; here the member stops at once.
- Mirror timers: when a transfer is retried is not modelled; progress is stated as what is enabled and as a bound on runs, not as a property of the scheduler.
- Client writes or mirrored copies racing with garbage collection: the source does not keep the property; `GarbageSafety` and `MirrorCluster` are about quiet runs.
- The loop `do_garbage_collect`: it is not started by the node (`src/lib.rs:297-299`); its phases are steps.
- Tag pagination (`src/registry/tags/get.rs:44-56`): it repeats the last tag and slices past the end, so it has no clean statement.
- Parsing of digests and repository names: digests are pairs of strings. A hash with path separators in it, or with a piece that is `.` or `..`, is not modelled; nor is one of exactly six characters, whose empty last piece makes the shard directory itself the path.
- Mirror.DoTransfer: returns the node it fetched from instead of a URL; the random choice is a parameter. The temporary file that a failed transfer leaves under `uploads` (`src/mirror.rs:150-223`) is not part of the modelled disk.
- Store.RegistryStore.ApplyEntries: requires that the entries do not panic; when they do is `StateMachine.RunPanicsIff`.
- RaftLog.LogStore.TryGetLogEntries: an excluded start at index 2^64 - 1, where the source's addition overflows, is a precondition.
- Garbage.CollectPhase1: reads manifests and blobs in one state, as does `Garbage.CollectPhase2`; transactions whose two reads see different states are covered by `GarbageSafety.GcTransaction`.
- Garbage.CollectPhase2: the paths the system refuses to remove are a parameter; a content path that cannot be made (a short hash, or a file in the way) panics in the source and is a precondition here.
- Files.FileStore.CleanupObject: requires a path at least four components deep, as every content path is, and a well-formed directory tree.
- Snapshot files and their metadata (`src/store/mod.rs:734-770`): the snapshot is its decoded content.
- Push.PutManifest: the answer of the cluster to the submitted write is a parameter; the temporary upload file is not part of the modelled disk. Nor are the path lookups of extraction (`src/extractor.rs:305`), which make the shard directories of each blob they read and panic on a short hash.
- Encoding: only names (strings) and tag keys are encoded; digests and records are stored as values.
