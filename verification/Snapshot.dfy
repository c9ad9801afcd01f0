/** Snapshots (`SerializableRegistryStateMachine`): nesting of tags, installation, and what a node's run keeps. */
module Snapshot {
  import opened Types
  import opened StateMachine
  import opened Replication

  datatype Snapshot = Snapshot(
    lastApplied: Option<LogId>,
    membership: StoredMembership,
    blobs: Tree,
    manifests: Tree,
    tags: map<Name, map<Name, Digest>>)

  function Repositories(tags: map<TagKey, Digest>): set<Name> {
    set k | k in tags :: k.repository
  }

  function TagNames(tags: map<TagKey, Digest>, repository: Name): set<Name> {
    set k | k in tags && k.repository == repository :: k.tag
  }

  lemma TagNamesAre(tags: map<TagKey, Digest>, repository: Name, tag: Name)
    ensures tag in TagNames(tags, repository) <==> TagKey(repository, tag) in tags
  {
    if TagKey(repository, tag) in tags {
      assert TagKey(repository, tag).tag in TagNames(tags, repository);
    }
  }

  function TagsOf(tags: map<TagKey, Digest>, repository: Name): (m: map<Name, Digest>)
    ensures forall t: Name :: t in m <==> TagKey(repository, t) in tags
    ensures forall t: Name | t in m :: m[t] == tags[TagKey(repository, t)]
  {
    assert forall t: Name :: t in TagNames(tags, repository) <==> TagKey(repository, t) in tags by {
      forall t: Name {
        TagNamesAre(tags, repository, t);
      }
    }
    map t | t in TagNames(tags, repository) :: tags[TagKey(repository, t)]
  }

  /** The flat tag tree, grouped by repository. */
  function Nest(tags: map<TagKey, Digest>): map<Name, map<Name, Digest>> {
    map r | r in Repositories(tags) :: TagsOf(tags, r)
  }

  function FlatKeys(nested: map<Name, map<Name, Digest>>): set<TagKey> {
    set r, t | r in nested && t in nested[r] :: TagKey(r, t)
  }

  function Flatten(nested: map<Name, map<Name, Digest>>): map<TagKey, Digest> {
    map k | k in FlatKeys(nested) :: nested[k.repository][k.tag]
  }

  lemma FlattenAt(nested: map<Name, map<Name, Digest>>, k: TagKey)
    ensures k in Flatten(nested) <==> k.repository in nested && k.tag in nested[k.repository]
    ensures k in Flatten(nested) ==> Flatten(nested)[k] == nested[k.repository][k.tag]
  {
    if k.repository in nested && k.tag in nested[k.repository] {
      assert TagKey(k.repository, k.tag) in FlatKeys(nested);
    }
  }

  function SnapshotOf(m: Machine): Snapshot {
    Snapshot(m.lastApplied, m.membership, m.trees.blobs, m.trees.manifests, Nest(m.trees.tags))
  }

  /** Installation inserts into whatever the trees hold; nothing is cleared. */
  function Install(m: Machine, snap: Snapshot): Machine {
    Machine(Trees(m.trees.blobs + snap.blobs, m.trees.manifests + snap.manifests, m.trees.tags + Flatten(snap.tags)),
            if snap.lastApplied.Some? then snap.lastApplied else m.lastApplied,
            snap.membership)
  }

  /** Nesting loses nothing. */
  lemma NestRoundTrip(tags: map<TagKey, Digest>)
    ensures Flatten(Nest(tags)) == tags
  {
    var f := Flatten(Nest(tags));
    forall k
      ensures k in f <==> k in tags
      ensures k in tags ==> f[k] == tags[k]
    {
      FlattenAt(Nest(tags), k);
      if k in tags {
        assert k.repository in Repositories(tags);
      }
    }
  }

  /** Flattening loses exactly the repositories without tags. */
  lemma FlattenRoundTripIff(nested: map<Name, map<Name, Digest>>)
    ensures Nest(Flatten(nested)) == nested <==> forall r | r in nested :: nested[r] != map[]
  {
    var f := Flatten(nested);
    forall r: Name
      ensures r in Nest(f) <==> r in nested && nested[r] != map[]
      ensures r in Nest(f) ==> Nest(f)[r] == nested[r]
    {
      FlattenRepository(nested, r);
    }
  }

  lemma FlattenRepository(nested: map<Name, map<Name, Digest>>, r: Name)
    ensures r in Repositories(Flatten(nested)) <==> r in nested && nested[r] != map[]
    ensures r in nested ==> TagsOf(Flatten(nested), r) == nested[r]
  {
    var f := Flatten(nested);
    if k :| k in f && k.repository == r {
      FlattenAt(nested, k);
    }
    if r in nested {
      forall t: Name
        ensures t in TagsOf(f, r) <==> t in nested[r]
        ensures t in nested[r] ==> TagsOf(f, r)[t] == nested[r][t]
      {
        FlattenAt(nested, TagKey(r, t));
      }
      if t :| t in nested[r] {
        FlattenAt(nested, TagKey(r, t));
        assert TagKey(r, t) in f;
      }
    }
  }

  /** A snapshot holds the state under the names it has there, tags by repository. */
  lemma SnapshotMeans(m: Machine)
    ensures var snap := SnapshotOf(m);
            && snap.blobs == m.trees.blobs && snap.manifests == m.trees.manifests
            && snap.lastApplied == m.lastApplied && snap.membership == m.membership
            && (forall r: Name, t: Name ::
                  r in snap.tags && t in snap.tags[r] <==> TagKey(r, t) in m.trees.tags)
            && (forall r: Name, t: Name | r in snap.tags && t in snap.tags[r] ::
                  snap.tags[r][t] == m.trees.tags[TagKey(r, t)])
  {
    forall r: Name, t: Name
      ensures r in Nest(m.trees.tags) && t in Nest(m.trees.tags)[r] <==> TagKey(r, t) in m.trees.tags
    {
      if TagKey(r, t) in m.trees.tags {
        assert TagKey(r, t).repository in Repositories(m.trees.tags);
      }
    }
  }

  /** Entry by entry the snapshot wins over what the node held, and nothing it held is removed. */
  lemma InstallMeans(m: Machine, snap: Snapshot, d: Digest, r: Name, t: Name)
    ensures var n := Install(m, snap);
            && (d in n.trees.blobs <==> d in m.trees.blobs || d in snap.blobs)
            && (d in snap.blobs ==> n.trees.blobs[d] == snap.blobs[d])
            && (d in m.trees.blobs && d !in snap.blobs ==> n.trees.blobs[d] == m.trees.blobs[d])
            && (d in n.trees.manifests <==> d in m.trees.manifests || d in snap.manifests)
            && (d in snap.manifests ==> n.trees.manifests[d] == snap.manifests[d])
            && (d in m.trees.manifests && d !in snap.manifests ==> n.trees.manifests[d] == m.trees.manifests[d])
            && (r in snap.tags && t in snap.tags[r] ==>
                  TagKey(r, t) in n.trees.tags && n.trees.tags[TagKey(r, t)] == snap.tags[r][t])
            && (!(r in snap.tags && t in snap.tags[r]) ==>
                  && (TagKey(r, t) in n.trees.tags <==> TagKey(r, t) in m.trees.tags)
                  && (TagKey(r, t) in m.trees.tags ==> n.trees.tags[TagKey(r, t)] == m.trees.tags[TagKey(r, t)]))
            && (snap.lastApplied.Some? ==> n.lastApplied == snap.lastApplied)
            && (snap.lastApplied.None? ==> n.lastApplied == m.lastApplied)
            && n.membership == snap.membership
  {
    FlattenAt(snap.tags, TagKey(r, t));
  }

  lemma InstallIntoEmpty(m: Machine)
    ensures Install(EMPTY_MACHINE, SnapshotOf(m)) == m
  {
    NestRoundTrip(m.trees.tags);
    assert map[] + m.trees.blobs == m.trees.blobs && map[] + m.trees.manifests == m.trees.manifests;
    assert map[] + m.trees.tags == m.trees.tags;
  }

  lemma RecomputeAgrees(tree: Tree, id: NodeId)
    ensures PendingAgrees(Recompute(tree, id), tree, id)
  {
  }

  /**
    Snapshot refinement: at every split of the log, installing the snapshot of the first part into an
    empty store and replaying the second gives the state of the whole log, and pending sets that
    agree with the filter.
   */
  lemma SnapshotRefines(l1: seq<Entry>, l2: seq<Entry>, id: NodeId, k: Kind)
    requires Replay(EMPTY_MACHINE, l1 + l2).Done?
    ensures Replay(EMPTY_MACHINE, l1).Done?
    ensures var whole := Replay(EMPTY_MACHINE, l1 + l2).value;
            var installed := Install(EMPTY_MACHINE, SnapshotOf(Replay(EMPTY_MACHINE, l1).value));
            && Replay(installed, l2) == Done(whole)
            && PendingAgrees(RefreshAll(Recompute(installed.trees.Of(k), id), whole.trees.Of(k), id, k, Actions(l2)),
                             whole.trees.Of(k), id)
  {
    ReplayAppend(EMPTY_MACHINE, l1, l2);
    var m := Replay(EMPTY_MACHINE, l1).value;
    InstallIntoEmpty(m);
    ReplayRuns(m, l2);
    BatchKeepsPending(Recompute(m.trees.Of(k), id), m.trees, Actions(l2), k, id);
  }

  // ----- installing onto a node that already has state -----

  lemma {:induction false} TagsGrow(s: Trees, acts: seq<Action>)
    requires Run(s, acts).Done?
    ensures s.tags.Keys <= Run(s, acts).value.tags.Keys
  {
    if acts != [] {
      TagsGrow(s, acts[..|acts| - 1]);
    }
  }

  /**
    A lagging follower that installs the leader's snapshot always gets the tags, the last applied id and
    the membership right, and gets a tree right exactly when no digest it holds has been deleted since.
   */
  lemma FollowerInstallExactIff(l1: seq<Entry>, l2: seq<Entry>, k: Kind)
    requires Replay(EMPTY_MACHINE, l1 + l2).Done?
    ensures Replay(EMPTY_MACHINE, l1).Done?
    ensures var lag := Replay(EMPTY_MACHINE, l1).value;
            var lead := Replay(EMPTY_MACHINE, l1 + l2).value;
            var n := Install(lag, SnapshotOf(lead));
            && n.trees.tags == lead.trees.tags
            && n.lastApplied == lead.lastApplied && n.membership == lead.membership
            && (n.trees.Of(k) == lead.trees.Of(k) <==> lag.trees.Of(k).Keys <= lead.trees.Of(k).Keys)
  {
    ReplayAppend(EMPTY_MACHINE, l1, l2);
    var lag, lead := Replay(EMPTY_MACHINE, l1).value, Replay(EMPTY_MACHINE, l1 + l2).value;
    ReplayRuns(lag, l2);
    TagsGrow(lag.trees, Actions(l2));
    LastAppliedIsLast(EMPTY_MACHINE, l1);
    LastAppliedIsLast(EMPTY_MACHINE, l1 + l2);
    InstallOver(lag, lead, k);
  }

  lemma InstallOver(lag: Machine, lead: Machine, k: Kind)
    requires lag.trees.tags.Keys <= lead.trees.tags.Keys
    requires lead.lastApplied.None? ==> lag.lastApplied.None?
    ensures var n := Install(lag, SnapshotOf(lead));
            && n.trees.tags == lead.trees.tags
            && n.lastApplied == lead.lastApplied && n.membership == lead.membership
            && (n.trees.Of(k) == lead.trees.Of(k) <==> lag.trees.Of(k).Keys <= lead.trees.Of(k).Keys)
  {
    NestRoundTrip(lead.trees.tags);
    assert lag.trees.tags + lead.trees.tags == lead.trees.tags;
    UnionExactIff(lag.trees.Of(k), lead.trees.Of(k));
  }

  lemma UnionExactIff(before: Tree, snap: Tree)
    ensures before + snap == snap <==> before.Keys <= snap.Keys
  {
    if d :| d in before && d !in snap {
      assert d in before + snap;
    }
  }

  /** A record with more copies never panics or disappears where one with fewer does not. */
  lemma {:induction false} FoldDominates(o: Option<Record>, p: Option<Record>, cs: seq<Change>)
    requires o.Some? ==> p.Some? && o.value.locations <= p.value.locations
    requires Fold(o, cs).Done?
    ensures Fold(p, cs).Done?
    ensures var q, r := Fold(o, cs).value, Fold(p, cs).value;
            q.Some? ==> r.Some? && q.value.locations <= r.value.locations
  {
    if cs != [] {
      FoldDominates(o, p, cs[..|cs| - 1]);
    }
  }

  /** The damage of stale digests is confined to them: the follower keeps up, and agrees on every other digest. */
  lemma StaleFollowerKeepsUp(lag: Trees, lead: Trees, acts: seq<Action>)
    requires Run(lead, acts).Done?
    ensures var n := Trees(lag.blobs + lead.blobs, lag.manifests + lead.manifests, lead.tags);
            && Run(n, acts).Done?
            && forall k, d | d !in lag.Of(k) || d in lead.Of(k) ::
                 Run(n, acts).value.Get(k, d) == Run(lead, acts).value.Get(k, d)
  {
    var n := Trees(lag.blobs + lead.blobs, lag.manifests + lead.manifests, lead.tags);
    RunPanicsIff(lead, acts);
    RunPanicsIff(n, acts);
    forall k, d
      ensures Fold(n.Get(k, d), Changes(acts, k, d)).Done?
    {
      FoldDominates(lead.Get(k, d), n.Get(k, d), Changes(acts, k, d));
    }
    forall k, d | d !in lag.Of(k) || d in lead.Of(k)
      ensures Run(n, acts).value.Get(k, d) == Run(lead, acts).value.Get(k, d)
    {
      assert n.Get(k, d) == lead.Get(k, d);
      RunProjects(n, acts, k, d);
      RunProjects(lead, acts, k, d);
    }
  }

  /** After an installation the pending set agrees with the filter exactly when no stale digest is wanted. */
  lemma InstallPendingIff(tree: Tree, snap: Tree, id: NodeId)
    ensures PendingAgrees(Recompute(snap, id), tree + snap, id) <==>
            forall d | d in tree && d !in snap :: !Wanted(tree, id, d)
  {
    if d :| d in tree && d !in snap && Wanted(tree, id, d) {
      assert d in tree + snap && d !in Recompute(snap, id) && d in Recompute(tree + snap, id);
    }
  }

  // ----- everything that can happen to one node -----

  /** `mirroring`: the mirror loops still hold the channels that pending sets are published on. */
  datatype Node = Node(machine: Machine, pendingBlobs: set<Digest>, pendingManifests: set<Digest>, mirroring: bool) {
    function Pending(k: Kind): set<Digest> {
      match k case BlobKind => pendingBlobs case ManifestKind => pendingManifests
    }
  }

  datatype Event = Commit(entries: seq<Entry>) | Restart | InstallSnapshot(snapshot: Snapshot)

  function Opened(id: NodeId, m: Machine): Node {
    Node(m, Recompute(m.trees.blobs, id), Recompute(m.trees.manifests, id), true)
  }

  /** An installation replaces the channels: the loops, which subscribed at start, see theirs close and end. */
  function NodeStep(id: NodeId, n: Node, e: Event): Outcome<Node> {
    match e
    case Commit(es) =>
      (match Replay(n.machine, es)
       case Panic => Panic
       case Done(m) =>
         Done(Node(m, RefreshAll(n.pendingBlobs, m.trees.blobs, id, BlobKind, Actions(es)),
                   RefreshAll(n.pendingManifests, m.trees.manifests, id, ManifestKind, Actions(es)), n.mirroring)))
    case Restart => Done(Opened(id, n.machine))
    case InstallSnapshot(snap) =>
      Done(Node(Install(n.machine, snap), Recompute(snap.blobs, id), Recompute(snap.manifests, id), false))
  }

  /** What the three events do to a node, digest by digest. */
  lemma NodeStepMeans(id: NodeId, n: Node, e: Event, d: Digest)
    requires NodeStep(id, n, e).Done?
    ensures var m := NodeStep(id, n, e).value;
            && (e.Commit? ==>
                  && Replay(n.machine, e.entries) == Done(m.machine) && m.mirroring == n.mirroring
                  && m.pendingBlobs
                     == RefreshAll(n.pendingBlobs, m.machine.trees.blobs, id, BlobKind, Actions(e.entries))
                  && m.pendingManifests
                     == RefreshAll(n.pendingManifests, m.machine.trees.manifests, id, ManifestKind, Actions(e.entries)))
            && (e.Restart? ==>
                  && m.machine == n.machine && m.mirroring
                  && (d in m.pendingBlobs <==> Wanted(n.machine.trees.blobs, id, d))
                  && (d in m.pendingManifests <==> Wanted(n.machine.trees.manifests, id, d)))
            && (e.InstallSnapshot? ==>
                  && m.machine == Install(n.machine, e.snapshot) && !m.mirroring
                  && (d in m.pendingBlobs <==> Wanted(e.snapshot.blobs, id, d))
                  && (d in m.pendingManifests <==> Wanted(e.snapshot.manifests, id, d)))
  {
  }

  function NodeRun(id: NodeId, n: Node, events: seq<Event>): Outcome<Node> {
    if events == [] then Done(n)
    else
      match NodeRun(id, n, events[..|events| - 1])
      case Panic => Panic
      case Done(m) => NodeStep(id, m, events[|events| - 1])
  }

  ghost predicate NodeAgrees(id: NodeId, n: Node) {
    forall k :: PendingAgrees(n.Pending(k), n.machine.trees.Of(k), id)
  }

  /** No snapshot is installed over a stale digest that the node wants. */
  ghost predicate InstallsCleanly(id: NodeId, n: Node, e: Event) {
    e.InstallSnapshot? ==>
      forall d ::
        && (d in n.machine.trees.blobs && d !in e.snapshot.blobs ==> !Wanted(n.machine.trees.blobs, id, d))
        && (d in n.machine.trees.manifests && d !in e.snapshot.manifests ==> !Wanted(n.machine.trees.manifests, id, d))
  }

  lemma StepKeepsAgreement(id: NodeId, n: Node, e: Event)
    requires NodeAgrees(id, n) && NodeStep(id, n, e).Done? && InstallsCleanly(id, n, e)
    ensures NodeAgrees(id, NodeStep(id, n, e).value)
  {
    var m := NodeStep(id, n, e).value;
    forall k
      ensures PendingAgrees(m.Pending(k), m.machine.trees.Of(k), id)
    {
      match e {
        case Commit(es) =>
          assert PendingAgrees(n.Pending(k), n.machine.trees.Of(k), id);
          ReplayRuns(n.machine, es);
          BatchKeepsPending(n.Pending(k), n.machine.trees, Actions(es), k, id);
        case Restart =>
        case InstallSnapshot(snap) =>
          InstallPendingIff(n.machine.trees.Of(k), if k.BlobKind? then snap.blobs else snap.manifests, id);
      }
    }
  }

  ghost predicate CleanRun(id: NodeId, n: Node, events: seq<Event>) {
    events == [] ||
    (&& CleanRun(id, n, events[..|events| - 1])
     && (NodeRun(id, n, events[..|events| - 1]).Done? ==>
           InstallsCleanly(id, NodeRun(id, n, events[..|events| - 1]).value, events[|events| - 1])))
  }

  /**
    In every state a node can reach, by commits, restarts and clean installations in any order, its
    pending sets agree with the filter on every digest somebody holds.
   */
  lemma {:induction false} PendingAgreesAlways(id: NodeId, db: Machine, events: seq<Event>)
    requires NodeRun(id, Opened(id, db), events).Done? && CleanRun(id, Opened(id, db), events)
    ensures NodeAgrees(id, NodeRun(id, Opened(id, db), events).value)
  {
    if events != [] {
      var init := events[..|events| - 1];
      PendingAgreesAlways(id, db, init);
      StepKeepsAgreement(id, NodeRun(id, Opened(id, db), init).value, events[|events| - 1]);
    }
  }

  /** Event `i` installed a snapshot, and the node was not started again since. */
  ghost predicate InstalledSinceStart(events: seq<Event>, i: nat)
    requires i < |events|
  {
    events[i].InstallSnapshot? && forall j | i < j < |events| :: !events[j].Restart?
  }

  ghost predicate Stopped(events: seq<Event>) {
    exists i | 0 <= i < |events| :: InstalledSinceStart(events, i)
  }

  lemma StoppedSnoc(events: seq<Event>)
    requires events != []
    ensures var last := events[|events| - 1];
            Stopped(events) <==> last.InstallSnapshot? || (Stopped(events[..|events| - 1]) && !last.Restart?)
  {
    var init, last := events[..|events| - 1], events[|events| - 1];
    forall i | 0 <= i < |init|
      ensures InstalledSinceStart(events, i) <==> InstalledSinceStart(init, i) && !last.Restart?
    {
    }
    if Stopped(init) && !last.Restart? {
      var i :| 0 <= i < |init| && InstalledSinceStart(init, i);
      assert InstalledSinceStart(events, i);
    }
    assert InstalledSinceStart(events, |init|) <==> last.InstallSnapshot?;
  }

  lemma StepMirrors(id: NodeId, n: Node, e: Event)
    requires NodeStep(id, n, e).Done?
    ensures NodeStep(id, n, e).value.mirroring == if e.Commit? then n.mirroring else e.Restart?
  {
  }

  /** A node mirrors if and only if it has not installed a snapshot since it was last started. */
  lemma {:induction false} MirrorsIff(id: NodeId, db: Machine, events: seq<Event>)
    requires NodeRun(id, Opened(id, db), events).Done?
    ensures NodeRun(id, Opened(id, db), events).value.mirroring <==> !Stopped(events)
  {
    if events != [] {
      var init := events[..|events| - 1];
      MirrorsIff(id, db, init);
      StepMirrors(id, NodeRun(id, Opened(id, db), init).value, events[|events| - 1]);
      StoppedSnoc(events);
    }
  }
}
