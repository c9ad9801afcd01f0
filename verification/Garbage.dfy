/** The two garbage-collection phases of `src/garbage.rs`: what each decides from a local read of the state. */
module Garbage {
  import opened Types
  import opened StateMachine
  import opened Graph
  import opened Store
  import opened Files

  /** Twelve hours, in the unit of the timestamps. */
  const MINIMUM_GARBAGE_AGE := 60 * 60 * 12

  const SYSTEM_USER := "$system"

  function UnmountAction(k: Kind, now: int, d: Digest, r: Name): Action {
    match k
    case BlobKind => BlobUnmounted(now, d, r, SYSTEM_USER)
    case ManifestKind => ManifestUnmounted(now, d, r, SYSTEM_USER)
  }

  function UnstoreAction(k: Kind, now: int, d: Digest, node: NodeId): Action {
    match k
    case BlobKind => BlobUnstored(now, d, node, SYSTEM_USER)
    case ManifestKind => ManifestUnstored(now, d, node, SYSTEM_USER)
  }

  ghost predicate Collectable(s: Trees, now: int, k: Kind, d: Digest) {
    d in Orphans(s, k) && now - s.Of(k)[d].created >= MINIMUM_GARBAGE_AGE
  }

  ghost predicate Unmountable(s: Trees, now: int, k: Kind, d: Digest, r: Name) {
    Collectable(s, now, k, d) && r in s.Of(k)[d].repositories
  }

  ghost predicate Unstorable(s: Trees, node: NodeId, failed: set<(Kind, Digest)>, k: Kind, d: Digest) {
    && d in Orphans(s, k) && (k, d) !in failed
    && node in s.Of(k)[d].locations && s.Of(k)[d].repositories == {}
  }

  ghost predicate Distinct(acts: seq<Action>) {
    forall i, j | 0 <= i < j < |acts| :: Differ(acts, i, j)
  }

  predicate Differ(acts: seq<Action>, i: nat, j: nat)
    requires i < |acts| && j < |acts|
  {
    acts[i] != acts[j]
  }

  lemma DistinctJoin(a: seq<Action>, b: seq<Action>)
    requires Distinct(a) && Distinct(b) && forall x | x in a :: x !in b
    ensures Distinct(a + b)
  {
    forall i, j | 0 <= i < j < |a + b|
      ensures Differ(a + b, i, j)
    {
      if j < |a| {
        assert Differ(a, i, j);
      } else if |a| <= i {
        assert Differ(b, i - |a|, j - |a|);
      } else {
        assert a[i] in a && b[j - |a|] in b;
      }
    }
  }

  lemma DistinctSnoc(acts: seq<Action>, a: Action)
    requires Distinct(acts) && a !in acts
    ensures Distinct(acts + [a])
  {
    DistinctJoin(acts, [a]);
  }

  /** `acts`, in any order, are exactly the unmounts phase 1 owes state `s`, each once. */
  ghost predicate IsPhase1(s: Trees, now: int, acts: seq<Action>) {
    && Distinct(acts)
    && (forall a | a in acts ::
          exists k, d, r :: Unmountable(s, now, k, d, r) && a == UnmountAction(k, now, d, r))
    && (forall k, d, r | Unmountable(s, now, k, d, r) :: UnmountAction(k, now, d, r) in acts)
  }

  /** `acts` are exactly what phase 2 at `node` unstores, each once; `failed` holds what could not be removed. */
  ghost predicate IsPhase2(s: Trees, now: int, node: NodeId, failed: set<(Kind, Digest)>, acts: seq<Action>) {
    && Distinct(acts)
    && (forall a | a in acts ::
          exists k, d :: Unstorable(s, node, failed, k, d) && a == UnstoreAction(k, now, d, node))
    && (forall k, d | Unstorable(s, node, failed, k, d) :: UnstoreAction(k, now, d, node) in acts)
  }

  method SweepMounts(k: Kind, orphans: Tree, now: int) returns (acts: seq<Action>)
    ensures Distinct(acts)
    ensures forall a | a in acts ::
              exists d, r :: && d in orphans && now - orphans[d].created >= MINIMUM_GARBAGE_AGE
                             && r in orphans[d].repositories && a == UnmountAction(k, now, d, r)
    ensures forall d, r | d in orphans && now - orphans[d].created >= MINIMUM_GARBAGE_AGE &&
                          r in orphans[d].repositories :: UnmountAction(k, now, d, r) in acts
  {
    acts := [];
    var rest := orphans.Keys;
    while rest != {}
      invariant rest <= orphans.Keys && Distinct(acts)
      invariant forall a | a in acts ::
                  exists d, r :: && d in orphans && d !in rest && now - orphans[d].created >= MINIMUM_GARBAGE_AGE
                                 && r in orphans[d].repositories && a == UnmountAction(k, now, d, r)
      invariant forall d, r | d in orphans && d !in rest && now - orphans[d].created >= MINIMUM_GARBAGE_AGE &&
                              r in orphans[d].repositories :: UnmountAction(k, now, d, r) in acts
    {
      var digest :| digest in rest;
      rest := rest - {digest};
      if now - orphans[digest].created < MINIMUM_GARBAGE_AGE {
        continue;
      }
      var repositories := orphans[digest].repositories;
      ghost var before := acts;
      while repositories != {}
        invariant repositories <= orphans[digest].repositories && Distinct(acts)
        invariant forall a | a in before :: a in acts
        invariant forall a | a in acts :: a in before ||
                    exists r :: r in orphans[digest].repositories && r !in repositories &&
                                a == UnmountAction(k, now, digest, r)
        invariant forall r | r in orphans[digest].repositories && r !in repositories ::
                    UnmountAction(k, now, digest, r) in acts
      {
        var repository :| repository in repositories;
        DistinctSnoc(acts, UnmountAction(k, now, digest, repository));
        repositories := repositories - {repository};
        acts := acts + [UnmountAction(k, now, digest, repository)];
      }
    }
  }

  /** Phase 1, run by the leader. */
  method CollectPhase1(store: RegistryStore, now: int) returns (acts: seq<Action>)
    ensures IsPhase1(store.Db(), now, acts)
  {
    var orphanedManifests := store.GetOrphanedManifests();
    var manifestActs := SweepMounts(ManifestKind, orphanedManifests, now);
    var orphanedBlobs := store.GetOrphanedBlobs();
    var blobActs := SweepMounts(BlobKind, orphanedBlobs, now);
    DistinctJoin(manifestActs, blobActs);
    acts := manifestActs + blobActs;
    ghost var s := store.Db();
    forall k, d, r | Unmountable(s, now, k, d, r)
      ensures UnmountAction(k, now, d, r) in acts
    {
      assert UnmountAction(k, now, d, r) in if k.BlobKind? then blobActs else manifestActs;
    }
    forall a | a in acts
      ensures exists k, d, r :: Unmountable(s, now, k, d, r) && a == UnmountAction(k, now, d, r)
    {
      if a in manifestActs {
        var d, r :| d in orphanedManifests && r in orphanedManifests[d].repositories &&
                    now - orphanedManifests[d].created >= MINIMUM_GARBAGE_AGE &&
                    a == UnmountAction(ManifestKind, now, d, r);
        assert Unmountable(s, now, ManifestKind, d, r);
      } else {
        var d, r :| d in orphanedBlobs && r in orphanedBlobs[d].repositories &&
                    now - orphanedBlobs[d].created >= MINIMUM_GARBAGE_AGE &&
                    a == UnmountAction(BlobKind, now, d, r);
        assert Unmountable(s, now, BlobKind, d, r);
      }
    }
  }

  /** An orphan that a node gives up. */
  predicate Sweepable(orphans: Tree, node: NodeId, d: Digest) {
    d in orphans && node in orphans[d].locations && orphans[d].repositories == {}
  }

  /** The content paths of the orphans can be made. */
  ghost predicate Placed(files: map<Path, Bytes>, root: Path, k: Kind, orphans: Tree) {
    forall d | d in orphans :: |d.hash| >= 6 && !Blocked(files, ContentPath(root, k, d))
  }

  /** `files` is what is left of `before`, and whatever was removed belonged to an orphan given up. */
  ghost predicate OnlySwept(before: map<Path, Bytes>, files: map<Path, Bytes>, root: Path, k: Kind, orphans: Tree,
                            node: NodeId) {
    && files.Keys <= before.Keys && (forall p | p in files :: files[p] == before[p])
    && forall p | p in before && p !in files :: SweptPath(root, k, orphans, node, p)
  }

  ghost predicate SweptPath(root: Path, k: Kind, orphans: Tree, node: NodeId, p: Path) {
    exists d :: Sweepable(orphans, node, d) && |d.hash| >= 6 && p == ContentPath(root, k, d)
  }

  ghost predicate FilesGone(files: map<Path, Bytes>, root: Path, k: Kind, acts: seq<Action>, node: NodeId, now: int) {
    forall d | UnstoreAction(k, now, d, node) in acts :: |d.hash| >= 6 ==> ContentPath(root, k, d) !in files
  }

  lemma StillPlaced(before: map<Path, Bytes>, files: map<Path, Bytes>, root: Path, k: Kind, orphans: Tree)
    requires files.Keys <= before.Keys && Placed(before, root, k, orphans)
    ensures Placed(files, root, k, orphans)
  {
    forall d | d in orphans
      ensures |d.hash| >= 6 && !Blocked(files, ContentPath(root, k, d))
    {
      if f :| f in files && f < ContentPath(root, k, d) {
        assert f in before;
      }
    }
  }

  /** `acts` unstore the orphans given up, except those in `rest` and `failed`, each once. */
  ghost predicate Unstores(k: Kind, orphans: Tree, node: NodeId, now: int, rest: set<Digest>, failed: set<Digest>,
                           acts: seq<Action>) {
    && Distinct(acts)
    && (forall a | a in acts :: UnstoresOne(k, orphans, node, now, rest, failed, a))
    && (forall d | Sweepable(orphans, node, d) && d !in rest && d !in failed :: UnstoreAction(k, now, d, node) in acts)
  }

  ghost predicate UnstoresOne(k: Kind, orphans: Tree, node: NodeId, now: int, rest: set<Digest>, failed: set<Digest>,
                              a: Action) {
    exists d :: Sweepable(orphans, node, d) && d !in rest && d !in failed && a == UnstoreAction(k, now, d, node)
  }

  lemma UnstoresMore(k: Kind, orphans: Tree, node: NodeId, now: int, rest: set<Digest>, failed: set<Digest>,
                     acts: seq<Action>, d: Digest)
    requires Unstores(k, orphans, node, now, rest, failed, acts) && d in rest && failed !! rest
    ensures !Sweepable(orphans, node, d) ==> Unstores(k, orphans, node, now, rest - {d}, failed, acts)
    ensures Unstores(k, orphans, node, now, rest - {d}, failed + {d}, acts)
    ensures Sweepable(orphans, node, d) ==>
              Unstores(k, orphans, node, now, rest - {d}, failed, acts + [UnstoreAction(k, now, d, node)])
  {
    forall a | a in acts
      ensures UnstoresOne(k, orphans, node, now, rest - {d}, failed, a)
      ensures UnstoresOne(k, orphans, node, now, rest - {d}, failed + {d}, a)
      ensures a != UnstoreAction(k, now, d, node)
    {
      assert UnstoresOne(k, orphans, node, now, rest, failed, a);
      var e :| Sweepable(orphans, node, e) && e !in rest && e !in failed && a == UnstoreAction(k, now, e, node);
      assert e !in rest - {d} && e !in failed + {d};
    }
    if Sweepable(orphans, node, d) {
      DistinctSnoc(acts, UnstoreAction(k, now, d, node));
    }
  }

  /** The disk after the clean-ups of a list of objects, one after the other. */
  ghost function SweptAll(disk: Disk, root: Path, k: Kind, order: seq<Digest>, denied: set<Path>): Disk {
    if order == [] then disk
    else SweptOne(SweptAll(disk, root, k, order[..|order| - 1], denied), root, k, order[|order| - 1], denied)
  }

  /** Those whose clean-up failed. */
  ghost function FailedIn(disk: Disk, root: Path, k: Kind, order: seq<Digest>, denied: set<Path>): set<Digest> {
    if order == [] then {}
    else
      var init, d := order[..|order| - 1], order[|order| - 1];
      FailedIn(disk, root, k, init, denied) +
      if SweepFails(SweptAll(disk, root, k, init, denied), root, k, d, denied) then {d} else {}
  }

  /** A clean-up fails only where the system refuses it, or a directory is in the file's place. */
  ghost predicate FailsOnlyIf(root: Path, k: Kind, failed: set<Digest>, denied: set<Path>, dirs: set<Path>) {
    forall d | d in failed ::
      |d.hash| >= 6 && (ContentPath(root, k, d) in dirs || Refuses(denied, ContentPath(root, k, d)))
  }

  /** Directories appear only where content is kept, and disappear only there and where not refused. */
  ghost predicate DirsSwept(before: set<Path>, dirs: set<Path>, root: Path, denied: set<Path>) {
    && (forall p | p in dirs :: p in before || |p| <= |root| + 4)
    && (forall p | p in before && p !in dirs :: IsShard(root, p) && p !in denied)
  }

  ghost predicate RefusedStay(before: map<Path, Bytes>, files: map<Path, Bytes>, denied: set<Path>) {
    forall p | p in before && p in denied :: p in files
  }

  lemma SweepOneMore(disk: Disk, root: Path, k: Kind, order: seq<Digest>, denied: set<Path>, d: Digest)
    ensures SweptAll(disk, root, k, order + [d], denied) ==
            SweptOne(SweptAll(disk, root, k, order, denied), root, k, d, denied)
    ensures FailedIn(disk, root, k, order + [d], denied) ==
            FailedIn(disk, root, k, order, denied) +
            if SweepFails(SweptAll(disk, root, k, order, denied), root, k, d, denied) then {d} else {}
  {
    assert (order + [d])[..|order|] == order;
  }

  lemma {:induction false} FailedAreSwept(disk: Disk, root: Path, k: Kind, order: seq<Digest>, denied: set<Path>)
    ensures forall d | d in FailedIn(disk, root, k, order, denied) :: d in order
  {
    if order != [] {
      FailedAreSwept(disk, root, k, order[..|order| - 1], denied);
    }
  }

  /** What a whole sweep does to a disk, in whatever order the orphans are cleaned up. */
  lemma {:induction false} SweepMeans(disk: Disk, root: Path, k: Kind, orphans: Tree, node: NodeId,
                                      order: seq<Digest>, denied: set<Path>)
    requires WellFormed(disk) && Placed(disk.files, root, k, orphans)
    requires forall d | d in order :: Sweepable(orphans, node, d)
    ensures forall d | d in order :: |d.hash| >= 6
    ensures var after, failed := SweptAll(disk, root, k, order, denied), FailedIn(disk, root, k, order, denied);
            && WellFormed(after)
            && OnlySwept(disk.files, after.files, root, k, orphans, node)
            && (forall d | d in order && d !in failed :: ContentPath(root, k, d) !in after.files)
            && RefusedStay(disk.files, after.files, denied)
            && DirsSwept(disk.dirs, after.dirs, root, denied)
            && FailsOnlyIf(root, k, failed, denied, disk.dirs)
            && (denied == {} && Tidy(disk, root) ==> Tidy(after, root))
  {
    if order != [] {
      var init, d := order[..|order| - 1], order[|order| - 1];
      assert d in order;
      assert forall e | e in order :: e in init || e == d;
      SweepMeans(disk, root, k, orphans, node, init, denied);
      SweepStep(disk, SweptAll(disk, root, k, init, denied), root, k, orphans, node, denied, d);
    }
  }

  lemma SweepStep(disk: Disk, mid: Disk, root: Path, k: Kind, orphans: Tree, node: NodeId, denied: set<Path>, d: Digest)
    requires WellFormed(mid) && Placed(disk.files, root, k, orphans) && Sweepable(orphans, node, d)
    requires OnlySwept(disk.files, mid.files, root, k, orphans, node) && RefusedStay(disk.files, mid.files, denied)
    requires DirsSwept(disk.dirs, mid.dirs, root, denied)
    ensures var after := SweptOne(mid, root, k, d, denied);
            && WellFormed(after) && after.files.Keys <= mid.files.Keys
            && OnlySwept(disk.files, after.files, root, k, orphans, node)
            && (!SweepFails(mid, root, k, d, denied) ==> ContentPath(root, k, d) !in after.files)
            && RefusedStay(disk.files, after.files, denied)
            && DirsSwept(disk.dirs, after.dirs, root, denied)
            && (SweepFails(mid, root, k, d, denied) ==>
                  ContentPath(root, k, d) in disk.dirs || Refuses(denied, ContentPath(root, k, d)))
            && (denied == {} && Tidy(mid, root) ==> Tidy(after, root))
  {
    StillPlaced(disk.files, mid.files, root, k, orphans);
    SweptOneWellFormed(mid, root, k, d, denied);
    SweptOneMeans(mid, root, k, d, denied);
    ContentPathIs(root, k, d);
    SweptMore(disk.files, mid.files, SweptOne(mid, root, k, d, denied).files, root, k, orphans, node, d);
    if denied == {} && Tidy(mid, root) {
      SweptOneTidy(mid, root, k, d);
    }
  }

  lemma SweptMore(before: map<Path, Bytes>, files: map<Path, Bytes>, files': map<Path, Bytes>, root: Path, k: Kind,
                  orphans: Tree, node: NodeId, d: Digest)
    requires OnlySwept(before, files, root, k, orphans, node) && Sweepable(orphans, node, d) && |d.hash| >= 6
    requires files' == files || files' == files - {ContentPath(root, k, d)}
    ensures OnlySwept(before, files', root, k, orphans, node)
  {
    forall p | p in before && p !in files'
      ensures SweptPath(root, k, orphans, node, p)
    {
      assert p !in files || p == ContentPath(root, k, d);
    }
  }

  ghost predicate OnceEach(order: seq<Digest>) {
    forall i, j | 0 <= i < j < |order| :: order[i] != order[j]
  }

  ghost predicate OrderedSoFar(orphans: Tree, node: NodeId, rest: set<Digest>, order: seq<Digest>) {
    OnceEach(order) && forall d :: d in order <==> Sweepable(orphans, node, d) && d !in rest
  }

  lemma OrderMore(orphans: Tree, node: NodeId, rest: set<Digest>, order: seq<Digest>, d: Digest)
    requires OrderedSoFar(orphans, node, rest, order) && d in rest
    ensures Sweepable(orphans, node, d) ==> OrderedSoFar(orphans, node, rest - {d}, order + [d])
    ensures !Sweepable(orphans, node, d) ==> OrderedSoFar(orphans, node, rest - {d}, order)
  {
    assert d !in order;
  }

  /**
    One kind's sweep: clean up the files of the orphans given up, each once, and unstore those it worked for.
    `order` is the order it took.
   */
  method SweepStores(k: Kind, orphans: Tree, now: int, node: NodeId, disk: FileStore, denied: set<Path>)
    returns (acts: seq<Action>, ghost order: seq<Digest>)
    requires WellFormed(disk.Contents()) && Placed(disk.files, disk.root, k, orphans)
    modifies disk
    ensures OnceEach(order) && forall d :: d in order <==> Sweepable(orphans, node, d)
    ensures disk.Contents() == SweptAll(old(disk.Contents()), disk.root, k, order, denied)
    ensures Unstores(k, orphans, node, now, {}, FailedIn(old(disk.Contents()), disk.root, k, order, denied), acts)
  {
    ghost var disk0 := disk.Contents();
    acts, order := [], [];
    var rest := orphans.Keys;
    while rest != {}
      invariant rest <= orphans.Keys && OrderedSoFar(orphans, node, rest, order)
      invariant disk.Contents() == SweptAll(disk0, disk.root, k, order, denied)
      invariant Unstores(k, orphans, node, now, rest, FailedIn(disk0, disk.root, k, order, denied), acts)
    {
      var digest :| digest in rest;
      ghost var failed := FailedIn(disk0, disk.root, k, order, denied);
      FailedAreSwept(disk0, disk.root, k, order, denied);
      UnstoresMore(k, orphans, node, now, rest, failed, acts, digest);
      OrderMore(orphans, node, rest, order, digest);
      rest := rest - {digest};
      if node !in orphans[digest].locations {
        continue;
      }
      if orphans[digest].repositories != {} {
        continue;
      }
      Sweeping(disk0, disk.root, k, orphans, node, order, denied, digest);
      var ok := CleanupContent(disk, k, digest, denied);
      order := order + [digest];
      if !ok {
        continue;
      }
      acts := acts + [UnstoreAction(k, now, digest, node)];
    }
  }

  /** What the next clean-up of a sweep needs, and what it adds. */
  lemma Sweeping(disk: Disk, root: Path, k: Kind, orphans: Tree, node: NodeId, order: seq<Digest>, denied: set<Path>,
                 d: Digest)
    requires WellFormed(disk) && Placed(disk.files, root, k, orphans) && Sweepable(orphans, node, d)
    requires forall e | e in order :: Sweepable(orphans, node, e)
    ensures var mid := SweptAll(disk, root, k, order, denied);
            && WellFormed(mid) && |d.hash| >= 6 && !Blocked(mid.files, ContentPath(root, k, d))
            && SweptAll(disk, root, k, order + [d], denied) == SweptOne(mid, root, k, d, denied)
            && FailedIn(disk, root, k, order + [d], denied) ==
               FailedIn(disk, root, k, order, denied) + if SweepFails(mid, root, k, d, denied) then {d} else {}
  {
    SweepMeans(disk, root, k, orphans, node, order, denied);
    StillPlaced(disk.files, SweptAll(disk, root, k, order, denied).files, root, k, orphans);
    SweepOneMore(disk, root, k, order, denied, d);
  }

  /** The two sweeps together are phase 2. */
  lemma SweepsArePhase2(s: Trees, now: int, node: NodeId, manifests: Tree, blobs: Tree,
                        failedManifests: set<Digest>, failedBlobs: set<Digest>, ms: seq<Action>, bs: seq<Action>)
    requires manifests.Keys == Orphans(s, ManifestKind) && forall d | d in manifests :: manifests[d] == s.manifests[d]
    requires blobs.Keys == Orphans(s, BlobKind) && forall d | d in blobs :: blobs[d] == s.blobs[d]
    requires Unstores(ManifestKind, manifests, node, now, {}, failedManifests, ms)
    requires Unstores(BlobKind, blobs, node, now, {}, failedBlobs, bs)
    ensures IsPhase2(s, now, node, FailedPairs(failedManifests, failedBlobs), ms + bs)
  {
    var failed := FailedPairs(failedManifests, failedBlobs);
    forall a | a in ms
      ensures exists k, d :: Unstorable(s, node, failed, k, d) && a == UnstoreAction(k, now, d, node)
      ensures a.ManifestUnstored?
    {
      assert UnstoresOne(ManifestKind, manifests, node, now, {}, failedManifests, a);
      var d :| Sweepable(manifests, node, d) && d !in failedManifests && a == UnstoreAction(ManifestKind, now, d, node);
      assert Unstorable(s, node, failed, ManifestKind, d);
    }
    forall a | a in bs
      ensures exists k, d :: Unstorable(s, node, failed, k, d) && a == UnstoreAction(k, now, d, node)
      ensures a.BlobUnstored?
    {
      assert UnstoresOne(BlobKind, blobs, node, now, {}, failedBlobs, a);
      var d :| Sweepable(blobs, node, d) && d !in failedBlobs && a == UnstoreAction(BlobKind, now, d, node);
      assert Unstorable(s, node, failed, BlobKind, d);
    }
    DistinctJoin(ms, bs);
    forall k, d | Unstorable(s, node, failed, k, d)
      ensures UnstoreAction(k, now, d, node) in ms + bs
    {
      if k.BlobKind? {
        assert Sweepable(blobs, node, d) && (BlobKind, d) !in failed;
        assert UnstoreAction(k, now, d, node) in bs;
      } else {
        assert Sweepable(manifests, node, d) && (ManifestKind, d) !in failed;
        assert UnstoreAction(k, now, d, node) in ms;
      }
    }
  }

  ghost function FailedPairs(manifests: set<Digest>, blobs: set<Digest>): (failed: set<(Kind, Digest)>)
    ensures forall d :: ((ManifestKind, d) in failed <==> d in manifests) && ((BlobKind, d) in failed <==> d in blobs)
  {
    (set d | d in manifests :: (ManifestKind, d)) + (set d | d in blobs :: (BlobKind, d))
  }

  /** What phase 2 does to the disk of `node`, having submitted `acts`. */
  ghost predicate SweepsDisk(s: Trees, node: NodeId, now: int, root: Path, before: map<Path, Bytes>,
                             files: map<Path, Bytes>, acts: seq<Action>) {
    && files.Keys <= before.Keys && (forall p | p in files :: files[p] == before[p])
    && (forall p | p in before && p !in files :: GivenUpPath(s, node, root, p))
    && (forall k :: FilesGone(files, root, k, acts, node, now))
  }

  ghost predicate GivenUpPath(s: Trees, node: NodeId, root: Path, p: Path) {
    exists k, d :: Unstorable(s, node, {}, k, d) && |d.hash| >= 6 && p == ContentPath(root, k, d)
  }

  lemma SweepsDiskOf(s: Trees, node: NodeId, now: int, root: Path, before: map<Path, Bytes>, middle: map<Path, Bytes>,
                     files: map<Path, Bytes>, manifests: Tree, blobs: Tree, ms: seq<Action>, bs: seq<Action>)
    requires manifests.Keys == Orphans(s, ManifestKind) && forall d | d in manifests :: manifests[d] == s.manifests[d]
    requires blobs.Keys == Orphans(s, BlobKind) && forall d | d in blobs :: blobs[d] == s.blobs[d]
    requires OnlySwept(before, middle, root, ManifestKind, manifests, node)
    requires OnlySwept(middle, files, root, BlobKind, blobs, node)
    requires FilesGone(middle, root, ManifestKind, ms, node, now) && FilesGone(files, root, BlobKind, bs, node, now)
    requires (forall a | a in ms :: a.ManifestUnstored?) && (forall a | a in bs :: a.BlobUnstored?)
    ensures SweepsDisk(s, node, now, root, before, files, ms + bs)
  {
    forall p | p in before && p !in files
      ensures GivenUpPath(s, node, root, p)
    {
      if p !in middle {
        var d :| Sweepable(manifests, node, d) && |d.hash| >= 6 && p == ContentPath(root, ManifestKind, d);
        assert Unstorable(s, node, {}, ManifestKind, d);
      } else {
        var d :| Sweepable(blobs, node, d) && |d.hash| >= 6 && p == ContentPath(root, BlobKind, d);
        assert Unstorable(s, node, {}, BlobKind, d);
      }
    }
    forall k: Kind
      ensures FilesGone(files, root, k, ms + bs, node, now)
    {
      forall d | UnstoreAction(k, now, d, node) in ms + bs && |d.hash| >= 6
        ensures ContentPath(root, k, d) !in files
      {
        assert UnstoreAction(k, now, d, node) in if k.BlobKind? then bs else ms;
      }
    }
  }

  /** The objects of kind `k` that `node` gives up, each once, in the order of its sweep. */
  ghost predicate GivesUp(s: Trees, node: NodeId, k: Kind, order: seq<Digest>) {
    && OnceEach(order)
    && forall d :: d in order <==> d in Orphans(s, k) && node in s.Of(k)[d].locations && s.Of(k)[d].repositories == {}
  }

  /**
    Phase 2, run by every node for itself: the manifests it gives up, then the blobs. It unstores those whose
    clean-up worked. `manifestOrder` and `blobOrder` are the orders it took.
   */
  method CollectPhase2(store: RegistryStore, now: int, disk: FileStore, denied: set<Path>)
    returns (acts: seq<Action>, ghost manifestOrder: seq<Digest>, ghost blobOrder: seq<Digest>)
    requires WellFormed(disk.Contents())
    requires Placed(disk.files, disk.root, ManifestKind, store.manifests)
    requires Placed(disk.files, disk.root, BlobKind, store.blobs)
    modifies disk
    // exactly, whatever is refused
    ensures GivesUp(store.Db(), store.id, ManifestKind, manifestOrder)
    ensures GivesUp(store.Db(), store.id, BlobKind, blobOrder)
    ensures (forall d | d in manifestOrder :: |d.hash| >= 6) && (forall d | d in blobOrder :: |d.hash| >= 6)
    ensures var before, root := old(disk.Contents()), disk.root;
            var middle := SweptAll(before, root, ManifestKind, manifestOrder, denied);
            && disk.Contents() == SweptAll(middle, root, BlobKind, blobOrder, denied)
            && IsPhase2(store.Db(), now, store.id,
                        FailedPairs(FailedIn(before, root, ManifestKind, manifestOrder, denied),
                                    FailedIn(middle, root, BlobKind, blobOrder, denied)), acts)
    // what that means
    ensures WellFormed(disk.Contents())
    ensures SweepsDisk(store.Db(), store.id, now, disk.root, old(disk.files), disk.files, acts)
    ensures forall k, d | Unstorable(store.Db(), store.id, {}, k, d) && |d.hash| >= 6
                          && ContentPath(disk.root, k, d) !in old(disk.dirs)
                          && !Refuses(denied, ContentPath(disk.root, k, d)) ::
              UnstoreAction(k, now, d, store.id) in acts
    ensures RefusedStay(old(disk.files), disk.files, denied)
    ensures DirsSwept(old(disk.dirs), disk.dirs, disk.root, denied)
    ensures denied == {} && Tidy(old(disk.Contents()), disk.root) ==> Tidy(disk.Contents(), disk.root)
  {
    ghost var before, root, node := disk.Contents(), disk.root, store.id;
    var orphanedManifests := store.GetOrphanedManifests();
    var manifestActs, blobActs;
    manifestActs, manifestOrder := SweepStores(ManifestKind, orphanedManifests, now, store.id, disk, denied);
    ghost var middle := disk.Contents();
    SweepMeans(before, root, ManifestKind, orphanedManifests, node, manifestOrder, denied);
    var orphanedBlobs := store.GetOrphanedBlobs();
    StillPlaced(before.files, disk.files, root, BlobKind, store.blobs);
    blobActs, blobOrder := SweepStores(BlobKind, orphanedBlobs, now, store.id, disk, denied);
    SweepMeans(middle, root, BlobKind, orphanedBlobs, node, blobOrder, denied);
    acts := manifestActs + blobActs;
    BothSweeps(store.Db(), node, now, root, before, middle, disk.Contents(), orphanedManifests, orphanedBlobs,
               manifestOrder, blobOrder, manifestActs, blobActs, denied);
  }

  /** The orphans of a state with their records. */
  ghost predicate AreOrphans(s: Trees, k: Kind, orphans: Tree) {
    orphans.Keys == Orphans(s, k) && forall d | d in orphans :: orphans[d] == s.Of(k)[d]
  }

  lemma GivenUp(s: Trees, node: NodeId, k: Kind, orphans: Tree, order: seq<Digest>)
    requires AreOrphans(s, k, orphans) && OnceEach(order)
    requires forall d :: d in order <==> Sweepable(orphans, node, d)
    ensures GivesUp(s, node, k, order)
    ensures forall d, failed | Unstorable(s, node, failed, k, d) :: Sweepable(orphans, node, d)
  {
  }

  lemma ActedAreGone(files: map<Path, Bytes>, root: Path, k: Kind, orphans: Tree, node: NodeId, now: int,
                     order: seq<Digest>, failed: set<Digest>, acts: seq<Action>)
    requires Unstores(k, orphans, node, now, {}, failed, acts)
    requires forall d :: d in order <==> Sweepable(orphans, node, d)
    requires forall d | d in order && d !in failed :: |d.hash| >= 6 && ContentPath(root, k, d) !in files
    ensures FilesGone(files, root, k, acts, node, now)
  {
    forall d | UnstoreAction(k, now, d, node) in acts
      ensures d in order && d !in failed
    {
      assert UnstoresOne(k, orphans, node, now, {}, failed, UnstoreAction(k, now, d, node));
    }
  }

  lemma BothSweeps(s: Trees, node: NodeId, now: int, root: Path, before: Disk, middle: Disk, after: Disk,
                   manifests: Tree, blobs: Tree, mo: seq<Digest>, bo: seq<Digest>, ms: seq<Action>, bs: seq<Action>,
                   denied: set<Path>)
    requires AreOrphans(s, ManifestKind, manifests) && AreOrphans(s, BlobKind, blobs)
    requires WellFormed(before) && Placed(before.files, root, ManifestKind, manifests)
    requires WellFormed(middle) && Placed(middle.files, root, BlobKind, blobs)
    requires OnceEach(mo) && (forall d :: d in mo <==> Sweepable(manifests, node, d))
    requires OnceEach(bo) && (forall d :: d in bo <==> Sweepable(blobs, node, d))
    requires middle == SweptAll(before, root, ManifestKind, mo, denied)
    requires after == SweptAll(middle, root, BlobKind, bo, denied)
    requires Unstores(ManifestKind, manifests, node, now, {}, FailedIn(before, root, ManifestKind, mo, denied), ms)
    requires Unstores(BlobKind, blobs, node, now, {}, FailedIn(middle, root, BlobKind, bo, denied), bs)
    ensures GivesUp(s, node, ManifestKind, mo) && GivesUp(s, node, BlobKind, bo)
    ensures IsPhase2(s, now, node, FailedPairs(FailedIn(before, root, ManifestKind, mo, denied),
                                               FailedIn(middle, root, BlobKind, bo, denied)), ms + bs)
    ensures SweepsDisk(s, node, now, root, before.files, after.files, ms + bs)
    ensures forall k, d | Unstorable(s, node, {}, k, d) && |d.hash| >= 6 && ContentPath(root, k, d) !in before.dirs
                          && !Refuses(denied, ContentPath(root, k, d)) ::
              UnstoreAction(k, now, d, node) in ms + bs
    ensures RefusedStay(before.files, after.files, denied) && DirsSwept(before.dirs, after.dirs, root, denied)
  {
    var fm, fb := FailedIn(before, root, ManifestKind, mo, denied), FailedIn(middle, root, BlobKind, bo, denied);
    GivenUp(s, node, ManifestKind, manifests, mo);
    GivenUp(s, node, BlobKind, blobs, bo);
    SweepMeans(before, root, ManifestKind, manifests, node, mo, denied);
    SweepMeans(middle, root, BlobKind, blobs, node, bo, denied);
    SweepsArePhase2(s, now, node, manifests, blobs, fm, fb, ms, bs);
    KindsOf(ManifestKind, manifests, node, now, fm, ms);
    KindsOf(BlobKind, blobs, node, now, fb, bs);
    ActedAreGone(middle.files, root, ManifestKind, manifests, node, now, mo, fm, ms);
    ActedAreGone(after.files, root, BlobKind, blobs, node, now, bo, fb, bs);
    SweepsDiskOf(s, node, now, root, before.files, middle.files, after.files, manifests, blobs, ms, bs);
    NotRefusedActs(s, node, now, root, before, middle, manifests, blobs, fm, fb, ms, bs, denied);
  }

  lemma NotRefusedActs(s: Trees, node: NodeId, now: int, root: Path, before: Disk, middle: Disk,
                       manifests: Tree, blobs: Tree, fm: set<Digest>, fb: set<Digest>, ms: seq<Action>, bs: seq<Action>,
                       denied: set<Path>)
    requires AreOrphans(s, ManifestKind, manifests) && AreOrphans(s, BlobKind, blobs)
    requires DirsSwept(before.dirs, middle.dirs, root, denied)
    requires FailsOnlyIf(root, ManifestKind, fm, denied, before.dirs)
    requires FailsOnlyIf(root, BlobKind, fb, denied, middle.dirs)
    requires Unstores(ManifestKind, manifests, node, now, {}, fm, ms)
    requires Unstores(BlobKind, blobs, node, now, {}, fb, bs)
    ensures forall k, d | Unstorable(s, node, {}, k, d) && |d.hash| >= 6 && ContentPath(root, k, d) !in before.dirs
                          && !Refuses(denied, ContentPath(root, k, d)) ::
              UnstoreAction(k, now, d, node) in ms + bs
  {
    forall k, d | Unstorable(s, node, {}, k, d) && |d.hash| >= 6 && ContentPath(root, k, d) !in before.dirs
                  && !Refuses(denied, ContentPath(root, k, d))
      ensures UnstoreAction(k, now, d, node) in ms + bs
    {
      ContentPathIs(root, k, d);
      match k {
        case ManifestKind =>
          assert Sweepable(manifests, node, d) && d !in fm;
          assert UnstoreAction(k, now, d, node) in ms;
        case BlobKind =>
          assert ContentPath(root, k, d) !in middle.dirs;
          assert Sweepable(blobs, node, d) && d !in fb;
          assert UnstoreAction(k, now, d, node) in bs;
      }
    }
  }

  lemma KindsOf(k: Kind, orphans: Tree, node: NodeId, now: int, failed: set<Digest>, acts: seq<Action>)
    requires Unstores(k, orphans, node, now, {}, failed, acts)
    ensures forall a | a in acts :: if k.BlobKind? then a.BlobUnstored? else a.ManifestUnstored?
  {
    forall a | a in acts
      ensures if k.BlobKind? then a.BlobUnstored? else a.ManifestUnstored?
    {
      assert UnstoresOne(k, orphans, node, now, {}, failed, a);
    }
  }

  /** Phase 2 never removes the file of an object that its node keeps, whatever that object's kind. */
  lemma KeptFilesStay(s: Trees, node: NodeId, now: int, root: Path, before: map<Path, Bytes>, files: map<Path, Bytes>,
                      acts: seq<Action>, k: Kind, d: Digest)
    requires SweepsDisk(s, node, now, root, before, files, acts) && |d.hash| >= 6
    requires ContentPath(root, k, d) in before
    requires forall e | Unstorable(s, node, {}, k, e) :: e.hash != d.hash
    ensures ContentPath(root, k, d) in files && files[ContentPath(root, k, d)] == before[ContentPath(root, k, d)]
  {
    var p := ContentPath(root, k, d);
    if p !in files {
      assert GivenUpPath(s, node, root, p);
      var k', e :| Unstorable(s, node, {}, k', e) && |e.hash| >= 6 && p == ContentPath(root, k', e);
      PathsDiffer(root, k, d, k', e);
    }
  }

  /** Phase 1 in the terms of the log: orphans of at least 43200 seconds lose all their mounts, each by one action. */
  lemma Phase1Means(s: Trees, now: int, acts: seq<Action>, d: Digest, r: Name)
    requires IsPhase1(s, now, acts)
    ensures BlobUnmounted(now, d, r, "$system") in acts <==>
            d in OrphanBlobs(s) && now - s.blobs[d].created >= 43200 && r in s.blobs[d].repositories
    ensures ManifestUnmounted(now, d, r, "$system") in acts <==>
            d in OrphanManifests(s) && now - s.manifests[d].created >= 43200 && r in s.manifests[d].repositories
    ensures forall a | a in acts ::
              (a.BlobUnmounted? || a.ManifestUnmounted?) && a.timestamp == now && a.user == "$system"
    ensures forall i, j | 0 <= i < j < |acts| :: acts[i] != acts[j]
  {
    forall k
      ensures UnmountAction(k, now, d, r) in acts <==> Unmountable(s, now, k, d, r)
    {
      if UnmountAction(k, now, d, r) in acts {
        var k', d', r' :| Unmountable(s, now, k', d', r')
          && UnmountAction(k, now, d, r) == UnmountAction(k', now, d', r');
      }
    }
    assert UnmountAction(BlobKind, now, d, r) in acts <==> Unmountable(s, now, BlobKind, d, r);
    assert UnmountAction(ManifestKind, now, d, r) in acts <==> Unmountable(s, now, ManifestKind, d, r);
    forall i, j | 0 <= i < j < |acts|
      ensures acts[i] != acts[j]
    {
      assert Differ(acts, i, j);
    }
  }

  /** Phase 2 in the terms of the log: unmounted orphans held by the node are given up, each by one action. */
  lemma Phase2Means(s: Trees, now: int, node: NodeId, failed: set<(Kind, Digest)>, acts: seq<Action>, d: Digest)
    requires IsPhase2(s, now, node, failed, acts)
    ensures BlobUnstored(now, d, node, "$system") in acts <==>
            && d in OrphanBlobs(s) && (BlobKind, d) !in failed
            && node in s.blobs[d].locations && s.blobs[d].repositories == {}
    ensures ManifestUnstored(now, d, node, "$system") in acts <==>
            && d in OrphanManifests(s) && (ManifestKind, d) !in failed
            && node in s.manifests[d].locations && s.manifests[d].repositories == {}
    ensures forall a | a in acts ::
              && (a.BlobUnstored? || a.ManifestUnstored?)
              && a.timestamp == now && a.location == node && a.user == "$system"
    ensures forall i, j | 0 <= i < j < |acts| :: acts[i] != acts[j]
  {
    forall k
      ensures UnstoreAction(k, now, d, node) in acts <==> Unstorable(s, node, failed, k, d)
    {
      if UnstoreAction(k, now, d, node) in acts {
        var k', d' :| Unstorable(s, node, failed, k', d')
          && UnstoreAction(k, now, d, node) == UnstoreAction(k', now, d', node);
      }
    }
    assert UnstoreAction(BlobKind, now, d, node) in acts <==> Unstorable(s, node, failed, BlobKind, d);
    assert UnstoreAction(ManifestKind, now, d, node) in acts <==> Unstorable(s, node, failed, ManifestKind, d);
    forall i, j | 0 <= i < j < |acts|
      ensures acts[i] != acts[j]
    {
      assert Differ(acts, i, j);
    }
  }
}
