/**
  Concrete cases, each reached from an empty registry, in which the code does not keep a property that
  elsewhere has its exact condition.
 */
module FailingCases {
  import opened Types
  import opened StateMachine
  import opened History
  import opened Replication
  import opened Snapshot
  import opened Graph
  import opened Garbage
  import opened GarbageConvergence
  import opened Extractor
  import opened Push
  import opened ImportExport
  import opened RaftLog
  import Mirror
  import opened MirrorCluster

  const X := Digest("sha256", "x")
  const Y := Digest("sha256", "y")
  const REPOSITORY: Name := [1]

  const MOUNT := BlobMounted(0, X, REPOSITORY, "user")
  const UNMOUNT := BlobUnmounted(0, X, REPOSITORY, "$system")
  const STORE := BlobStored(0, X, 1, "user")
  const UNSTORE := BlobUnstored(0, X, 1, "$system")

  function With(s: Trees, d: Digest, r: Record): Trees {
    s.(blobs := s.blobs[d := r])
  }

  /** A registry that holds nothing but a blob X. */
  function OnlyX(r: Record): Trees {
    With(EMPTY_TREES, X, r)
  }

  const MOUNTED := FreshRecord(0).(repositories := {REPOSITORY})
  const HELD := MOUNTED.(locations := {1})
  const UNMOUNTED_COPY := HELD.(repositories := {})
  const EMPTY_RECORD := FreshRecord(0)

  lemma RunNext(s: Trees, acts: seq<Action>, a: Action)
    requires Run(s, acts).Done?
    ensures Run(s, acts + [a]) == Step(Run(s, acts).value, a)
  {
    assert (acts + [a])[..|acts|] == acts;
  }

  lemma BlobStep(s: Trees, acts: seq<Action>, d: Digest, r: Record, a: Action, c: Change, r': Record)
    requires Run(s, acts) == Done(With(s, d, r))
    requires TargetOf(a) == Object(BlobKind, d, c) && Alter(Some(r), c) == Done(Some(r'))
    ensures Run(s, acts + [a]) == Done(With(s, d, r'))
  {
    RunNext(s, acts, a);
    assert s.blobs[d := r][d := r'] == s.blobs[d := r'];
  }

  lemma XStep(r: Record, a: Action, c: Change, r': Record)
    requires TargetOf(a) == Object(BlobKind, X, c) && Alter(Some(r), c) == Done(Some(r'))
    ensures Run(OnlyX(r), [a]) == Done(OnlyX(r'))
  {
    assert OnlyX(r).blobs[X := r] == OnlyX(r).blobs;
    BlobStep(OnlyX(r), [], X, r, a, c, r');
    assert [] + [a] == [a] && OnlyX(r).blobs[X := r'] == OnlyX(r').blobs;
  }

  lemma MountRuns()
    ensures Run(EMPTY_TREES, [MOUNT]) == Done(OnlyX(MOUNTED))
  {
    RunNext(EMPTY_TREES, [], MOUNT);
    assert [] + [MOUNT] == [MOUNT] && {} + {REPOSITORY} == {REPOSITORY};
  }

  lemma LastCopyGoes()
    ensures Run(OnlyX(HELD), [UNSTORE]) == Done(EMPTY_TREES)
  {
    RunNext(OnlyX(HELD), [], UNSTORE);
    assert [] + [UNSTORE] == [UNSTORE] && HELD.locations - {1} == {};
    assert OnlyX(HELD).blobs - {X} == map[];
  }

  /** A mount alone; the copy; the copy given up again; the mount given up. */
  lemma FirstSteps()
    ensures Run(EMPTY_TREES, [MOUNT]) == Done(OnlyX(MOUNTED))
    ensures Run(OnlyX(MOUNTED), [STORE]) == Done(OnlyX(HELD))
    ensures Run(OnlyX(HELD), [UNSTORE]) == Done(EMPTY_TREES)
    ensures Run(OnlyX(HELD), [UNMOUNT]) == Done(OnlyX(UNMOUNTED_COPY))
    ensures Run(OnlyX(MOUNTED), [UNMOUNT]) == Done(OnlyX(EMPTY_RECORD))
  {
    assert {} + {1} == {1} && {REPOSITORY} - {REPOSITORY} == {};
    MountRuns();
    XStep(MOUNTED, STORE, Stored(0, 1), HELD);
    LastCopyGoes();
    XStep(HELD, UNMOUNT, Unmounted(0, REPOSITORY), UNMOUNTED_COPY);
    XStep(MOUNTED, UNMOUNT, Unmounted(0, REPOSITORY), EMPTY_RECORD);
  }

  lemma Reached()
    ensures Run(EMPTY_TREES, [MOUNT, STORE]) == Done(OnlyX(HELD))
    ensures Run(EMPTY_TREES, [MOUNT, STORE, UNMOUNT]) == Done(OnlyX(UNMOUNTED_COPY))
    ensures Run(EMPTY_TREES, [MOUNT, UNMOUNT]) == Done(OnlyX(EMPTY_RECORD))
  {
    FirstSteps();
    RunAppend(EMPTY_TREES, [MOUNT], [STORE]);
    assert [MOUNT] + [STORE] == [MOUNT, STORE];
    RunAppend(EMPTY_TREES, [MOUNT, STORE], [UNMOUNT]);
    assert [MOUNT, STORE] + [UNMOUNT] == [MOUNT, STORE, UNMOUNT];
    RunAppend(EMPTY_TREES, [MOUNT], [UNMOUNT]);
    assert [MOUNT] + [UNMOUNT] == [MOUNT, UNMOUNT];
  }

  /** Node 2 waits for X when its last copy goes; X stays in the pending set of node 2. */
  lemma LostDigestStaysPending()
    ensures Run(EMPTY_TREES, [MOUNT, STORE]) == Done(OnlyX(HELD))
    ensures Recompute(OnlyX(HELD).blobs, 2) == {X}
    ensures Run(OnlyX(HELD), [UNSTORE]) == Done(EMPTY_TREES)
    ensures X in RefreshAll({X}, EMPTY_TREES.blobs, 2, BlobKind, [UNSTORE])
    ensures RefreshAll({X}, EMPTY_TREES.blobs, 2, BlobKind, [UNSTORE]) != Recompute(EMPTY_TREES.blobs, 2)
  {
    FirstSteps();
    Reached();
    RefreshAllAt({X}, EMPTY_TREES.blobs, 2, BlobKind, [UNSTORE], X);
    assert Wanted(OnlyX(HELD).blobs, 2, X);
    BatchExactIff({X}, OnlyX(HELD), [UNSTORE], BlobKind, 2);
    assert X !in EMPTY_TREES.blobs;
  }

  const LAGGED := [Entry(LogId(1, 1, 1), Normal([MOUNT, STORE]))]
  const MISSED := [Entry(LogId(1, 1, 2), Normal([UNSTORE]))]

  lemma ReplayOne(m: Machine, e: Entry)
    ensures Replay(m, [e]) == ApplyEntry(m, e)
  {
    assert [e][..0] == [];
  }

  /** A follower that missed the deletion of X and installs the leader's snapshot keeps X. */
  lemma FollowerKeepsDeletedDigest()
    ensures Replay(EMPTY_MACHINE, LAGGED + MISSED).Done? && Replay(EMPTY_MACHINE, LAGGED).Done?
    ensures var lead := Replay(EMPTY_MACHINE, LAGGED + MISSED).value;
            var n := Install(Replay(EMPTY_MACHINE, LAGGED).value, SnapshotOf(lead));
            X !in lead.trees.blobs && X in n.trees.blobs
  {
    FirstSteps();
    Reached();
    ReplayOne(EMPTY_MACHINE, LAGGED[0]);
    ReplayAppend(EMPTY_MACHINE, LAGGED, MISSED);
    ReplayOne(Replay(EMPTY_MACHINE, LAGGED).value, MISSED[0]);
  }

  /** Importing an export that has a copy without a mount panics, and such an import exists. */
  lemma ImportOfUnmountedCopyPanics(now: int)
    ensures Run(EMPTY_TREES, [MOUNT, STORE, UNMOUNT]) == Done(OnlyX(UNMOUNTED_COPY))
    ensures IsImport(ExportOf(OnlyX(UNMOUNTED_COPY)), now, [BlobStored(now, X, 1, "$import")])
    ensures forall acts | IsImport(ExportOf(OnlyX(UNMOUNTED_COPY)), now, acts) :: Run(EMPTY_TREES, acts).Panic?
  {
    var s := OnlyX(UNMOUNTED_COPY);
    Reached();
    ImportsCopy(now);
    assert AllAnalysedIfDependent(s);
    assert X in s.Of(BlobKind) && !CopiesMounted(s);
    forall acts | IsImport(ExportOf(s), now, acts) {
      ImportPanicsIff(s, now, acts);
    }
  }

  lemma ImportsCopy(now: int)
    ensures IsImport(ExportOf(OnlyX(UNMOUNTED_COPY)), now, [BlobStored(now, X, 1, "$import")])
  {
    var a := BlobStored(now, X, 1, "$import");
    var body := ExportOf(OnlyX(UNMOUNTED_COPY));
    assert [a][..0] == [];
    assert body.tags == map[];
    var rs: seq<Name>, ns: seq<NodeId> := [], [1];
    assert ns[..0] == [] && Mounts(now, rs) == [] && Stores(now, ns) == [Stored(now, 1)];
    assert Listed(rs) == {} && Listed(ns) == {1};
    assert Metadata(now, UNMOUNTED_COPY) == [];
    assert Changes([a], BlobKind, X) == Mounts(now, rs) + Stores(now, ns) + Metadata(now, UNMOUNTED_COPY);
    forall k: Kind, d: Digest
      ensures if d in body.Of(k) then Recreates(now, body.Of(k)[d], Changes([a], k, d)) else Changes([a], k, d) == []
    {
    }
    forall key
      ensures LastTag([a], key) == None && key !in Flatten(body.tags)
    {
    }
  }

  /** An object with neither mount nor copy is dropped by the import of its export. */
  lemma ImportDropsBareRecord(now: int, acts: seq<Action>)
    requires IsImport(ExportOf(OnlyX(EMPTY_RECORD)), now, acts)
    ensures Run(EMPTY_TREES, [MOUNT, UNMOUNT]) == Done(OnlyX(EMPTY_RECORD))
    ensures Run(EMPTY_TREES, acts).Done? && X !in Run(EMPTY_TREES, acts).value.blobs
  {
    var s := OnlyX(EMPTY_RECORD);
    Reached();
    assert AllAnalysedIfDependent(s) && CopiesMounted(s);
    ImportPanicsIff(s, now, acts);
    ImportedRecord(s, now, acts, BlobKind, X);
    assert Run(EMPTY_TREES, acts).value.Get(BlobKind, X) == None;
  }

  /** An object mounted and never stored is garbage that no round removes, whatever its age. */
  lemma MountedOnlyIsNeverCollected(h: seq<Trees>, now: int, nodes: seq<NodeId>)
    requires IsRound(h, now, nodes) && h[0] == OnlyX(MOUNTED)
    ensures Run(EMPTY_TREES, [MOUNT]) == Done(h[0])
    ensures X in Orphans(h[0], BlobKind) && X in h[|h| - 1].blobs
  {
    FirstSteps();
    NothingReached(h[0], X);
    RoundRemovesIff(h, now, nodes, BlobKind, X);
    assert h[|h| - 1].Get(BlobKind, X).Some?;
  }

  lemma NothingReached(s: Trees, d: Digest)
    requires s.manifests == map[]
    ensures !Reaches(s.blobs, Roots(s.manifests), d)
  {
    ClosedHoldsReached(s.blobs, {}, {});
  }

  // ----- a torn log -----

  const TOP := Entry(LogId(1, 1, MAX_INDEX), Blank)

  /** The entry of the largest index survives a truncation that starts at it. */
  lemma TopEntrySurvivesTruncation()
    ensures PermittedRun(Log(map[], None), [Purge(LogId(1, 1, MAX_INDEX - 1)), Append([TOP])])
    ensures var m := RunOps(Log(map[], None), [Purge(LogId(1, 1, MAX_INDEX - 1)), Append([TOP])]);
            && m.entries == map[MAX_INDEX := TOP]
            && ApplyOp(m, Truncate(TOP.logId)).entries == map[MAX_INDEX := TOP]
  {
    var purge, append := Purge(LogId(1, 1, MAX_INDEX - 1)), Append([TOP]);
    var purged := Log(map[], Some(LogId(1, 1, MAX_INDEX - 1)));
    assert [purge, append][..1] == [purge] && [purge][..0] == [] && [TOP][..0] == [];
    assert Without(map[], 0, MAX_INDEX - 1, true) == map[];
    assert RunOps(Log(map[], None), [purge]) == purged;
    assert Appended(map[], [TOP]) == map[MAX_INDEX := TOP];
    var before := [purge][..|[purge]| - 1];
    assert before == [] && PermittedRun(Log(map[], None), before);
    assert RunOps(Log(map[], None), before) == Log(map[], None);
    assert RaftLog.Permitted(Log(map[], None), purge);
    assert PermittedRun(Log(map[], None), [purge]);
  }

  // ----- a repeated transfer -----

  const TWO_MEMBERS := Initial(OnlyX(HELD), map[1 := PendingSets({}, {}), 2 := PendingSets({X}, {})], {1, 2})

  /** Member 2 may fetch X twice before it applies its own copy. */
  lemma MemberRepeatsTransfer()
    ensures Run(EMPTY_TREES, [MOUNT, STORE]) == Done(OnlyX(HELD))
    ensures Inv(TWO_MEMBERS)
    ensures var m := Transfer(2, Mirror.Blob(X), 0);
            && MirrorCluster.Permitted(TWO_MEMBERS, m)
            && Enabled(Next(TWO_MEMBERS, m), m)
            && Repeats(Next(TWO_MEMBERS, m), m)
  {
    Reached();
    var m, c := Transfer(2, Mirror.Blob(X), 0), TWO_MEMBERS;
    InitialHeld(c.pending, c.mirroring);
    assert View(c, 2) == OnlyX(HELD);
    assert 1 in OnlyX(HELD).blobs[X].locations * c.applied.Keys;
    SameTransferRepeats(c, m);
  }

  // ----- a member that has installed a snapshot -----

  const SENT := InstallSnapshot(SnapshotOf(Machine(OnlyX(HELD), Some(LogId(1, 1, 1)), StoredMembership(None, map[]))))
  const STOPPED := Initial(OnlyX(HELD), map[1 := PendingSets({}, {}), 2 := PendingSets({X}, {})], {1})

  lemma HolderGotThere()
    ensures GotTo(1, EMPTY_MACHINE, [Commit(LAGGED)], OnlyX(HELD), PendingSets({}, {}))
    ensures Mirrors(1, EMPTY_MACHINE, [Commit(LAGGED)])
  {
    Reached();
    ReplayOne(EMPTY_MACHINE, LAGGED[0]);
    var n := Opened(1, EMPTY_MACHINE);
    assert [Commit(LAGGED)][..0] == [];
    assert n.pendingBlobs == {} && n.pendingManifests == {};
    NobodyWaits(LAGGED, OnlyX(HELD));
    assert NodeRun(1, n, [Commit(LAGGED)]) == NodeStep(1, n, Commit(LAGGED));
  }

  lemma NobodyWaits(es: seq<Entry>, s: Trees)
    requires s == OnlyX(HELD)
    ensures RefreshAll({}, s.blobs, 1, BlobKind, Actions(es)) == {}
    ensures RefreshAll({}, s.manifests, 1, ManifestKind, Actions(es)) == {}
  {
    forall d
      ensures d !in RefreshAll({}, s.blobs, 1, BlobKind, Actions(es))
      ensures d !in RefreshAll({}, s.manifests, 1, ManifestKind, Actions(es))
    {
      RefreshAllAt({}, s.blobs, 1, BlobKind, Actions(es), d);
      RefreshAllAt({}, s.manifests, 1, ManifestKind, Actions(es), d);
    }
  }

  lemma InstalledGotThere()
    ensures GotTo(2, EMPTY_MACHINE, [SENT], OnlyX(HELD), PendingSets({X}, {}))
    ensures !Mirrors(2, EMPTY_MACHINE, [SENT])
  {
    var n := Opened(2, EMPTY_MACHINE);
    assert [SENT][..0] == [];
    InstallIntoEmpty(Machine(OnlyX(HELD), Some(LogId(1, 1, 1)), StoredMembership(None, map[])));
    assert Wanted(OnlyX(HELD).blobs, 2, X);
    assert Recompute(OnlyX(HELD).blobs, 2) == {X} && Recompute(OnlyX(HELD).manifests, 2) == {};
    assert NodeRun(2, n, [SENT]) == NodeStep(2, n, SENT);
    assert InstallsCleanly(2, n, SENT);
    assert CleanRun(2, n, []);
  }

  /**
    Member 2 joined by a snapshot and lacks X. Nobody has anything left to do, and X is not replicated, until
    member 2 is started again.
   */
  lemma StoppedMemberStaysWithout()
    ensures GotTo(1, EMPTY_MACHINE, [Commit(LAGGED)], OnlyX(HELD), PendingSets({}, {}))
    ensures GotTo(2, EMPTY_MACHINE, [SENT], OnlyX(HELD), PendingSets({X}, {})) && !Mirrors(2, EMPTY_MACHINE, [SENT])
    ensures Inv(STOPPED) && Quiet(STOPPED) && !Replicated(STOPPED)
    ensures Enabled(STOPPED, StartAgain(2))
    ensures MirrorCluster.Permitted(Next(STOPPED, StartAgain(2)), Transfer(2, Mirror.Blob(X), 0))
  {
    HolderGotThere();
    InstalledGotThere();
    var c := STOPPED;
    InitialHeld(c.pending, {1});
    assert View(c, 2) == OnlyX(HELD) && View(c, 1) == OnlyX(HELD);
    assert 1 in OnlyX(HELD).blobs[X].locations * c.applied.Keys;
    assert HeldAtStart(c, BlobKind, X);
    assert 2 in c.applied && 2 !in View(c, 2).Of(BlobKind)[X].locations;
    var e := Next(c, StartAgain(2));
    assert View(e, 2) == OnlyX(HELD);
    assert Wanted(OnlyX(HELD).blobs, 2, X);
  }

  lemma InitialHeld(pending: map<NodeId, PendingSets>, mirroring: set<NodeId>)
    requires pending == map[1 := PendingSets({}, {}), 2 := PendingSets({X}, {})] && mirroring <= {1, 2}
    ensures Inv(Initial(OnlyX(HELD), pending, mirroring))
  {
    forall n, k | n in pending
      ensures PendingAgrees(pending[n].Of(k), OnlyX(HELD).Of(k), n)
    {
    }
    InitialInv(OnlyX(HELD), pending, mirroring);
  }

  // ----- a push onto a blob whose child was collected: X depends on Y, both orphaned and unmounted -----

  const RX := Record(0, 0, Some("image"), Some(1), Some([Y]), {1}, {})
  const RY := Record(0, 0, Some("layer"), Some(1), Some([]), {2}, {})
  const BOTH_PRESENT := Trees(map[X := RX, Y := RY], map[], map[])
  const CHILD_COLLECTED := Trees(map[X := RX], map[], map[])
  const PUSH := Request(0, 1, "user", REPOSITORY, [2], Digest("sha256", "m"), "manifest", 10)

  /** Upload and analyse a blob held by one node. */
  function Uploaded(d: Digest, n: NodeId, r: Name, ds: seq<Digest>, contentType: string): seq<Action> {
    [BlobMounted(0, d, r, "user")] + [BlobStored(0, d, n, "user")]
    + [BlobStat(0, d, 1)] + [BlobInfo(0, d, ds, contentType)]
  }

  lemma MountedRuns(s: Trees, d: Digest, r: Name)
    requires d !in s.blobs
    ensures Run(s, [BlobMounted(0, d, r, "user")]) == Done(With(s, d, FreshRecord(0).(repositories := {r})))
  {
    var a := BlobMounted(0, d, r, "user");
    RunNext(s, [], a);
    assert [] + [a] == [a] && {} + {r} == {r};
  }

  lemma UploadedRuns(s: Trees, d: Digest, n: NodeId, r: Name, ds: seq<Digest>, contentType: string)
    requires d !in s.blobs
    ensures Run(s, Uploaded(d, n, r, ds, contentType)) ==
            Done(With(s, d, Record(0, 0, Some(contentType), Some(1), Some(ds), {n}, {r})))
  {
    var a, b, c := BlobMounted(0, d, r, "user"), BlobStored(0, d, n, "user"), BlobStat(0, d, 1);
    MountedRuns(s, d, r);
    var r0 := Record(0, 0, None, None, Some([]), {}, {r});
    var r1 := r0.(locations := {} + {n});
    BlobStep(s, [a], d, r0, b, Stored(0, n), r1);
    var r2 := r1.(size := Some(1));
    BlobStep(s, [a] + [b], d, r1, c, Stat(0, 1), r2);
    var r3 := r2.(dependencies := Some(ds), contentType := Some(contentType));
    BlobStep(s, [a] + [b] + [c], d, r2, BlobInfo(0, d, ds, contentType), Info(0, ds, contentType), r3);
    assert {} + {n} == {n};
    assert r3 == Record(0, 0, Some(contentType), Some(1), Some(ds), {n}, {r});
  }

  /** Upload, analyse and unmount it again. */
  function Passing(d: Digest, n: NodeId, ds: seq<Digest>, contentType: string): seq<Action> {
    Uploaded(d, n, REPOSITORY, ds, contentType) + [BlobUnmounted(0, d, REPOSITORY, "$system")]
  }

  lemma PassingRuns(s: Trees, d: Digest, n: NodeId, ds: seq<Digest>, contentType: string)
    requires d !in s.blobs
    ensures Run(s, Passing(d, n, ds, contentType)) ==
            Done(With(s, d, Record(0, 0, Some(contentType), Some(1), Some(ds), {n}, {})))
  {
    UploadedRuns(s, d, n, REPOSITORY, ds, contentType);
    var r := Record(0, 0, Some(contentType), Some(1), Some(ds), {n}, {REPOSITORY});
    assert {REPOSITORY} - {REPOSITORY} == {};
    BlobStep(s, Uploaded(d, n, REPOSITORY, ds, contentType), d, r, BlobUnmounted(0, d, REPOSITORY, "$system"),
             Unmounted(0, REPOSITORY), r.(repositories := {}));
  }

  lemma BothPresentReached()
    ensures Run(EMPTY_TREES, Passing(X, 1, [Y], "image") + Passing(Y, 2, [], "layer")) == Done(BOTH_PRESENT)
  {
    PassingRuns(EMPTY_TREES, X, 1, [Y], "image");
    var s := With(EMPTY_TREES, X, RX);
    PassingRuns(s, Y, 2, [], "layer");
    RunAppend(EMPTY_TREES, Passing(X, 1, [Y], "image"), Passing(Y, 2, [], "layer"));
    assert EMPTY_TREES.blobs[X := RX][Y := RY] == BOTH_PRESENT.blobs;
  }

  /** Node 2 collects Y while X waits for node 1. */
  lemma ChildCollected()
    ensures Run(EMPTY_TREES, Passing(X, 1, [Y], "image") + Passing(Y, 2, [], "layer")) == Done(BOTH_PRESENT)
    ensures DependenciesPresent(BOTH_PRESENT) && AllAnalysedIfDependent(BOTH_PRESENT)
    ensures exists acts :: IsPhase2(BOTH_PRESENT, 0, 2, {}, acts) && Run(BOTH_PRESENT, acts) == Done(CHILD_COLLECTED)
  {
    BothPresentReached();
    var collect := [UnstoreAction(BlobKind, 0, Y, 2)];
    assert Unstorable(BOTH_PRESENT, 2, {}, BlobKind, Y);
    assert collect[..0] == [] && BOTH_PRESENT.blobs - {Y} == CHILD_COLLECTED.blobs;
    assert IsPhase2(BOTH_PRESENT, 0, 2, {}, collect) && Run(BOTH_PRESENT, collect) == Done(CHILD_COLLECTED);
  }

  /** A manifest whose one reference is to the analysed blob X. */
  function RefersToX(s: Trees, contentType: string): (Env, set<Extraction>, seq<Action>) {
    (Env(s.blobs, REPOSITORY, {PUSH.contentType}, map[]),
     {Extraction(X, contentType, Some(1))},
     [ManifestInfo(0, PUSH.digest, [X], PUSH.contentType)])
  }

  /** Its push is accepted wherever X is analysed, and reaches X. */
  lemma AcceptedOntoX(s: Trees, contentType: string) returns (t: Trees)
    requires X in s.blobs && s.blobs[X].contentType.Some?
    ensures var (env, roots, ex) := RefersToX(s, contentType);
            && IsPush(env, PUSH, Some(roots), PushActions(PUSH, ex))
            && Run(s, PushActions(PUSH, ex)) == Done(t)
    ensures t.Tag(TagKey(PUSH.repository, PUSH.tag)) == Some(PUSH.digest) && PUSH.digest in t.manifests
    ensures X in t.blobs && t.blobs[X] == s.blobs[X]
    ensures Reaches(t.blobs, Deps(t.manifests[PUSH.digest]), X)
  {
    var (env, roots, ex) := RefersToX(s, contentType);
    assert Digests(roots) == {X} == SetOf([X]);
    assert IsAnalysis(env, roots, PUSH.now, PUSH.digest, PUSH.contentType, ex);
    assert Extracted(PushActions(PUSH, ex)) == ex;
    PushEffect(s, env, roots, PUSH, ex);
    t := Run(s, PushActions(PUSH, ex)).value;
    assert !HasInfo(ex, X);
    RootReached(t.blobs, Deps(t.manifests[PUSH.digest]), X);
  }

  /** A manifest that refers to X is then accepted, although its tag leads to the missing Y. */
  lemma CollectedChildIsMissed() returns (t: Trees)
    ensures var (env, roots, ex) := RefersToX(CHILD_COLLECTED, "image");
            && IsPush(env, PUSH, Some(roots), PushActions(PUSH, ex))
            && Run(CHILD_COLLECTED, PushActions(PUSH, ex)) == Done(t)
    ensures t.Tag(TagKey(PUSH.repository, PUSH.tag)) == Some(PUSH.digest) && PUSH.digest in t.manifests
    ensures !CompleteFrom(t.blobs, Deps(t.manifests[PUSH.digest]))
  {
    t := AcceptedOntoX(CHILD_COLLECTED, "image");
    var (env, roots, ex) := RefersToX(CHILD_COLLECTED, "image");
    PushEffect(CHILD_COLLECTED, env, roots, PUSH, ex);
    StepReached(t.blobs, Deps(t.manifests[PUSH.digest]), X, Y);
  }

  // ----- a push onto a blob of another repository -----

  const OTHER: Name := [9]
  const ELSEWHERE := Record(0, 0, Some("layer"), Some(1), Some([]), {1}, {OTHER})

  /** X was analysed in another repository. A manifest that refers to it is accepted, and X cannot be pulled with it. */
  lemma ForeignBlobCannotBePulled() returns (t: Trees)
    ensures Run(EMPTY_TREES, Uploaded(X, 1, OTHER, [], "layer")) == Done(OnlyX(ELSEWHERE))
    ensures var (env, roots, ex) := RefersToX(OnlyX(ELSEWHERE), "layer");
            && IsPush(env, PUSH, Some(roots), PushActions(PUSH, ex))
            && Run(OnlyX(ELSEWHERE), PushActions(PUSH, ex)) == Done(t)
    ensures PUSH.digest in t.manifests && Reaches(t.blobs, Deps(t.manifests[PUSH.digest]), X)
    ensures X in t.blobs && PUSH.repository !in t.blobs[X].repositories
  {
    UploadedRuns(EMPTY_TREES, X, 1, OTHER, [], "layer");
    t := AcceptedOntoX(OnlyX(ELSEWHERE), "layer");
  }
}
