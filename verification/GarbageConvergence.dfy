/** Two quiet rounds of garbage collection leave exactly the tagged manifests and what they reach. */
module GarbageConvergence {
  import opened Types
  import opened StateMachine
  import opened Replication
  import opened Graph
  import opened Garbage
  import opened GarbageSafety

  ghost predicate Phase1Leads(s: Trees, now: int, t: Trees) {
    exists acts :: IsPhase1(s, now, acts) && Run(s, acts) == Done(t)
  }

  /** Phase 2 of node `i` of a round, its manifests read in `h[x]` and its blobs in `h[y]`, leads to the next state. */
  ghost predicate Phase2Commits(h: seq<Trees>, now: int, nodes: seq<NodeId>, i: nat, x: nat, y: nat)
    requires i < |nodes| && |h| == |nodes| + 2 && x <= y <= i + 1
  {
    exists acts :: Phase2Acts(h[x], h[y], now, nodes[i], acts) && Run(h[i + 1], acts) == Done(h[i + 2])
  }

  ghost predicate Phase2Acts(m: Trees, b: Trees, now: int, node: NodeId, acts: seq<Action>) {
    exists ms, bs :: IsPhase2(m, now, node, {}, ms) && IsPhase2(b, now, node, {}, bs) && IsMix(ms, bs, acts)
  }

  /** Node `i` of a round commits. */
  ghost predicate NodeCommits(h: seq<Trees>, now: int, nodes: seq<NodeId>, i: nat)
    requires i < |nodes| && |h| == |nodes| + 2
  {
    exists x, y | 1 <= x <= y <= i + 1 :: Phase2Commits(h, now, nodes, i, x, y)
  }

  /**
    The leader's phase 1, then phase 2 at each of `nodes`, committed in the order given. The nodes decide
    concurrently, each from whatever it reads after phase 1. `h` lists the states.
   */
  ghost predicate IsRound(h: seq<Trees>, now: int, nodes: seq<NodeId>) {
    && |h| == |nodes| + 2
    && Phase1Leads(h[0], now, h[1])
    && forall i {:trigger NodeCommits(h, now, nodes, i)} | 0 <= i < |nodes| :: NodeCommits(h, now, nodes, i)
  }

  function TaggedManifests(s: Trees): Tree {
    map d | d in s.manifests && d in s.tags.Values :: s.manifests[d]
  }

  ghost predicate Live(s: Trees, d: Digest) {
    d in s.blobs && Reaches(s.blobs, Roots(TaggedManifests(s)), d)
  }

  /** Held by somebody, and only by nodes of the round; old enough, or unmounted already. */
  ghost predicate Removable(r: Record, now: int, nodes: seq<NodeId>) {
    && r.locations != {}
    && (forall n | n in r.locations :: n in nodes)
    && (now - r.created >= MINIMUM_GARBAGE_AGE || r.repositories == {})
  }

  ghost predicate Settled(s: Trees) {
    OrphanManifests(s) == {} && OrphanBlobs(s) == {}
  }

  /** The transaction that node `i` of a round commits, and the states it was decided from. */
  lemma NodeTransaction(h: seq<Trees>, now: int, nodes: seq<NodeId>, i: nat)
    returns (x: nat, y: nat, acts: seq<Action>)
    requires IsRound(h, now, nodes) && i < |nodes|
    ensures 1 <= x <= y <= i + 1 && Phase2Acts(h[x], h[y], now, nodes[i], acts)
    ensures Run(h[i + 1], acts) == Done(h[i + 2])
  {
    assert NodeCommits(h, now, nodes, i);
    x, y :| 1 <= x <= y <= i + 1 && Phase2Commits(h, now, nodes, i, x, y);
    acts :| Phase2Acts(h[x], h[y], now, nodes[i], acts) && Run(h[i + 1], acts) == Done(h[i + 2]);
  }

  lemma RoundIsGcRun(h: seq<Trees>, now: int, nodes: seq<NodeId>)
    requires IsRound(h, now, nodes)
    ensures GcRun(h)
  {
    forall i | 0 <= i < |h| - 1
      ensures IsGcStep(h, i)
    {
      if i == 0 {
        var acts :| IsPhase1(h[0], now, acts) && Run(h[0], acts) == Done(h[1]);
        OneRead(h[0], now, 0, {}, acts);
        assert CommitsLate(h, i, i, i, acts);
      } else {
        var x, y, acts := NodeTransaction(h, now, nodes, i - 1);
        assert Phase2Transaction(h[x], h[y], acts);
        assert CommitsLate(h, i, x, y, acts);
      }
    }
  }

  lemma {:induction false} FoldUnmounts(o: Option<Record>, cs: seq<Change>, r: Name)
    requires forall c | c in cs :: c.Unmounted?
    requires o.Some?
    ensures Fold(o, cs).Done? && Fold(o, cs).value.Some?
    ensures r in Fold(o, cs).value.value.repositories <==>
            r in o.value.repositories && forall c | c in cs :: c.repository != r
  {
    if cs != [] {
      var init := cs[..|cs| - 1];
      assert cs[|cs| - 1] in cs && cs == init + [cs[|cs| - 1]];
      FoldUnmounts(o, init, r);
    }
  }

  lemma {:induction false} FoldUnstores(o: Option<Record>, cs: seq<Change>, n: NodeId)
    requires forall c | c in cs :: c.Unstored? && c.node == n
    ensures Fold(o, cs).Done?
    ensures Fold(o, cs).value.Some? ==> o.Some? && Fold(o, cs).value.value.repositories == o.value.repositories
    ensures Fold(o, cs).value.Some? && cs != [] ==> n !in Fold(o, cs).value.value.locations
  {
    if cs != [] {
      assert cs[|cs| - 1] in cs;
      FoldUnstores(o, cs[..|cs| - 1], n);
    }
  }

  lemma Phase1Changes(s: Trees, now: int, acts: seq<Action>, k: Kind, d: Digest, r: Name)
    requires IsPhase1(s, now, acts)
    ensures forall c | c in Changes(acts, k, d) :: c.Unmounted?
    ensures Unmountable(s, now, k, d, r) ==> Unmounted(now, r) in Changes(acts, k, d)
  {
    forall c | c in Changes(acts, k, d)
      ensures c.Unmounted?
    {
      ChangesComeFrom(acts, k, d, c);
      var i :| 0 <= i < |acts| && TargetOf(acts[i]) == Object(k, d, c);
      assert acts[i] in acts;
    }
    if Unmountable(s, now, k, d, r) {
      var i :| 0 <= i < |acts| && acts[i] == UnmountAction(k, now, d, r);
      ChangesComeFrom(acts, k, d, Unmounted(now, r));
    }
  }

  lemma Phase1ClearsMounts(s: Trees, now: int, t: Trees, k: Kind, d: Digest)
    requires Phase1Leads(s, now, t) && Collectable(s, now, k, d) && t.Get(k, d).Some?
    ensures t.Of(k)[d].repositories == {}
  {
    var acts :| IsPhase1(s, now, acts) && Run(s, acts) == Done(t);
    RunProjects(s, acts, k, d);
    forall r
      ensures r !in t.Of(k)[d].repositories
    {
      Phase1Changes(s, now, acts, k, d, r);
      FoldUnmounts(s.Get(k, d), Changes(acts, k, d), r);
      assert r in s.Of(k)[d].repositories ==> Unmountable(s, now, k, d, r);
    }
  }

  lemma Phase2Changes(m: Trees, b: Trees, now: int, node: NodeId, acts: seq<Action>, k: Kind, d: Digest)
    requires Phase2Acts(m, b, now, node, acts)
    ensures forall c | c in Changes(acts, k, d) ::
              c.Unstored? && c.node == node && Unstorable(ReadOf(m, b, k), node, {}, k, d)
    ensures Unstorable(ReadOf(m, b, k), node, {}, k, d) ==> Changes(acts, k, d) != []
  {
    var ms, bs :| IsPhase2(m, now, node, {}, ms) && IsPhase2(b, now, node, {}, bs) && IsMix(ms, bs, acts);
    var read, whole := ReadOf(m, b, k), if k.ManifestKind? then ms else bs;
    assert IsPhase2(read, now, node, {}, whole);
    forall c | c in Changes(acts, k, d)
      ensures c.Unstored? && c.node == node && Unstorable(read, node, {}, k, d)
    {
      ChangesComeFrom(acts, k, d, c);
      var i :| 0 <= i < |acts| && TargetOf(acts[i]) == Object(k, d, c);
      assert FromKind(whole, k, acts[i]);
      var k', d' :| Unstorable(read, node, {}, k', d') && acts[i] == UnstoreAction(k', now, d', node);
      assert TargetOf(acts[i]) == Object(k', d', Unstored(now, node));
    }
    if Unstorable(read, node, {}, k, d) {
      var a := UnstoreAction(k, now, d, node);
      assert FromKind(whole, k, a);
      var i :| 0 <= i < |acts| && acts[i] == a;
      ChangesComeFrom(acts, k, d, Unstored(now, node));
    }
  }

  /** One node's phase 2 on an object that was orphaned and unmounted when read. */
  lemma Phase2ClearsCopy(m: Trees, b: Trees, s: Trees, now: int, node: NodeId, acts: seq<Action>, k: Kind, d: Digest)
    requires Phase2Acts(m, b, now, node, acts) && Run(s, acts).Done?
    requires var read := ReadOf(m, b, k);
             && d in Orphans(read, k) && read.Of(k)[d].repositories == {}
             && Shrunk(read.Get(k, d), s.Get(k, d))
    requires Run(s, acts).value.Get(k, d).Some?
    ensures var r := Run(s, acts).value.Of(k)[d]; r.repositories == {} && node !in r.locations
  {
    RunProjects(s, acts, k, d);
    Phase2Changes(m, b, now, node, acts, k, d);
    FoldUnstores(s.Get(k, d), Changes(acts, k, d), node);
    if Changes(acts, k, d) == [] {
      assert node !in ReadOf(m, b, k).Of(k)[d].locations;
    }
  }

  /** After phase 2 at the first `i` nodes, an orphan old enough or unmounted is gone or held by none of them. */
  lemma {:induction false} CopiesLeave(h: seq<Trees>, now: int, nodes: seq<NodeId>, k: Kind, d: Digest, i: nat)
    requires IsRound(h, now, nodes) && d in Orphans(h[0], k) && i <= |nodes|
    requires Collectable(h[0], now, k, d) || h[0].Of(k)[d].repositories == {}
    requires h[i + 1].Get(k, d).Some?
    ensures var r := h[i + 1].Of(k)[d];
            r.repositories == {} && forall x | 0 <= x < i :: nodes[x] !in r.locations
    decreases i
  {
    RoundIsGcRun(h, now, nodes);
    if i == 0 {
      RunShrinks(h, 0, 1);
      assert Shrunk(h[0].Get(k, d), h[1].Get(k, d));
      if Collectable(h[0], now, k, d) {
        Phase1ClearsMounts(h[0], now, h[1], k, d);
      }
    } else {
      var x, y, acts := NodeTransaction(h, now, nodes, i - 1);
      var z := if k.ManifestKind? then x else y;
      RunShrinks(h, i, i + 1);
      assert Shrunk(h[i].Get(k, d), h[i + 1].Get(k, d));
      RunShrinks(h, z, i);
      assert Shrunk(h[z].Get(k, d), h[i].Get(k, d));
      CopiesLeave(h, now, nodes, k, d, i - 1);
      CopiesLeave(h, now, nodes, k, d, z - 1);
      DecisionsStayValid(h, 0, z, k, d);
      Phase2ClearsCopy(h[x], h[y], h[i], now, nodes[i - 1], acts, k, d);
    }
  }

  lemma {:induction false} FoldUnstoresOthers(o: Option<Record>, cs: seq<Change>, n: NodeId)
    requires o.Some? && n in o.value.locations
    requires forall c | c in cs :: c.Unstored? && c.node != n
    ensures Fold(o, cs).Done? && Fold(o, cs).value.Some? && n in Fold(o, cs).value.value.locations
  {
    if cs != [] {
      assert cs[|cs| - 1] in cs;
      FoldUnstoresOthers(o, cs[..|cs| - 1], n);
    }
  }

  /** A copy at a node outside the round keeps the object. */
  lemma {:induction false} OutsideCopyStays(h: seq<Trees>, now: int, nodes: seq<NodeId>, k: Kind, d: Digest, n: NodeId,
                                           i: nat)
    requires IsRound(h, now, nodes) && i <= |nodes| && n !in nodes
    requires d in h[0].Of(k) && n in h[0].Of(k)[d].locations
    ensures d in h[i + 1].Of(k) && n in h[i + 1].Of(k)[d].locations
    decreases i
  {
    if i == 0 {
      var acts :| IsPhase1(h[0], now, acts) && Run(h[0], acts) == Done(h[1]);
      RunProjects(h[0], acts, k, d);
      forall c | c in Changes(acts, k, d)
        ensures c.Unmounted?
      {
        Phase1Changes(h[0], now, acts, k, d, []);
      }
      FoldWithoutMoves(h[0].Get(k, d), Changes(acts, k, d));
    } else {
      OutsideCopyStays(h, now, nodes, k, d, n, i - 1);
      var x, y, acts := NodeTransaction(h, now, nodes, i - 1);
      RunProjects(h[i], acts, k, d);
      Phase2Changes(h[x], h[y], now, nodes[i - 1], acts, k, d);
      FoldUnstoresOthers(h[i].Get(k, d), Changes(acts, k, d), n);
    }
  }

  lemma Phase1NamesCollectable(s: Trees, now: int, acts: seq<Action>, a: Action)
    requires IsPhase1(s, now, acts) && a in acts
    ensures TargetOf(a).Object? && Collectable(s, now, TargetOf(a).kind, TargetOf(a).digest)
  {
    var k, d, r :| Unmountable(s, now, k, d, r) && a == UnmountAction(k, now, d, r);
    assert TargetOf(a) == Object(k, d, Unmounted(now, r));
  }

  lemma Phase1SparesYoung(s: Trees, now: int, t: Trees, k: Kind, d: Digest)
    requires Phase1Leads(s, now, t) && !Collectable(s, now, k, d)
    ensures t.Get(k, d) == s.Get(k, d)
  {
    var acts :| IsPhase1(s, now, acts) && Run(s, acts) == Done(t);
    RunProjects(s, acts, k, d);
    forall i | 0 <= i < |acts|
      ensures TargetsOther(acts[i], k, d)
    {
      Phase1NamesCollectable(s, now, acts, acts[i]);
    }
    ChangesNone(acts, k, d);
  }

  lemma Phase2SparesMounted(m: Trees, b: Trees, s: Trees, now: int, node: NodeId, acts: seq<Action>, k: Kind, d: Digest)
    requires Phase2Acts(m, b, now, node, acts) && Run(s, acts).Done?
    requires d in ReadOf(m, b, k).Of(k) && ReadOf(m, b, k).Of(k)[d].repositories != {}
    ensures Run(s, acts).value.Get(k, d) == s.Get(k, d)
  {
    var cs := Changes(acts, k, d);
    assert |cs| > 0 ==> cs[0] in cs;
    RunProjects(s, acts, k, d);
    Phase2Changes(m, b, now, node, acts, k, d);
  }

  /** A young object that is still mounted comes through the round untouched. */
  lemma {:induction false} YoungMountedStays(h: seq<Trees>, now: int, nodes: seq<NodeId>, k: Kind, d: Digest, i: nat)
    requires IsRound(h, now, nodes) && i <= |nodes|
    requires d in h[0].Of(k) && h[0].Of(k)[d].repositories != {} && !Collectable(h[0], now, k, d)
    ensures h[i + 1].Get(k, d) == h[0].Get(k, d)
    decreases i
  {
    if i == 0 {
      Phase1SparesYoung(h[0], now, h[1], k, d);
    } else {
      var x, y, acts := NodeTransaction(h, now, nodes, i - 1);
      var z := if k.ManifestKind? then x else y;
      YoungMountedStays(h, now, nodes, k, d, i - 1);
      YoungMountedStays(h, now, nodes, k, d, z - 1);
      assert h[z].Get(k, d).Some?;
      Phase2SparesMounted(h[x], h[y], h[i], now, nodes[i - 1], acts, k, d);
    }
  }

  lemma RemovableIsRemoved(h: seq<Trees>, now: int, nodes: seq<NodeId>, k: Kind, d: Digest)
    requires IsRound(h, now, nodes)
    requires d in Orphans(h[0], k) && Removable(h[0].Of(k)[d], now, nodes)
    ensures h[|h| - 1].Get(k, d).None?
  {
    var last := h[|h| - 1];
    RoundIsGcRun(h, now, nodes);
    RunShrinks(h, 0, |h| - 1);
    assert Shrunk(h[0].Get(k, d), last.Get(k, d));
    if last.Get(k, d).Some? {
      var n :| n in last.Of(k)[d].locations;
      assert n in nodes;
      CopiesLeave(h, now, nodes, k, d, |nodes|);
    }
  }

  /** What is not removable, now or later, is not removed, and stays that way. */
  lemma UnremovableStays(h: seq<Trees>, now: int, nodes: seq<NodeId>, k: Kind, d: Digest, later: int, more: seq<NodeId>)
    requires IsRound(h, now, nodes) && now <= later && forall n | n in nodes :: n in more
    requires d in h[0].Of(k) && !Removable(h[0].Of(k)[d], later, more)
    ensures d in h[|h| - 1].Of(k) && !Removable(h[|h| - 1].Of(k)[d], later, more)
  {
    var r := h[0].Of(k)[d];
    RoundIsGcRun(h, now, nodes);
    if r.locations == {} {
      UnheldIsNeverCollected(h, |h| - 1, k, d);
    } else if n :| n in r.locations && n !in more {
      OutsideCopyStays(h, now, nodes, k, d, n, |nodes|);
    } else {
      YoungMountedStays(h, now, nodes, k, d, |nodes|);
      assert h[|h| - 1].Get(k, d).Some?;
    }
  }

  /**
    What one round collects: an orphan goes if and only if some node holds it, only nodes of the round do,
    and it is old enough or unmounted already.
   */
  lemma RoundRemovesIff(h: seq<Trees>, now: int, nodes: seq<NodeId>, k: Kind, d: Digest)
    requires IsRound(h, now, nodes) && d in Orphans(h[0], k)
    ensures h[|h| - 1].Get(k, d).None? <==> Removable(h[0].Of(k)[d], now, nodes)
  {
    if Removable(h[0].Of(k)[d], now, nodes) {
      RemovableIsRemoved(h, now, nodes, k, d);
    } else {
      UnremovableStays(h, now, nodes, k, d, now, nodes);
    }
  }

  /**
    A round leaves alone what the tagged manifests reach. It leaves exactly the tagged manifests if and
    only if every other one is removable.
   */
  lemma FirstRound(h: seq<Trees>, now: int, nodes: seq<NodeId>)
    requires IsRound(h, now, nodes)
    ensures var s, t := h[0], h[|h| - 1];
            && AllShrunk(s, t)
            && (forall d | Live(s, d) :: t.Get(BlobKind, d) == s.Get(BlobKind, d))
            && (t.manifests == TaggedManifests(s) <==>
                forall m | m in OrphanManifests(s) :: Removable(s.manifests[m], now, nodes))
  {
    var s, t := h[0], h[|h| - 1];
    RoundIsGcRun(h, now, nodes);
    RunShrinks(h, 0, |h| - 1);
    forall m
      ensures m in TaggedManifests(s) ==> t.Get(ManifestKind, m) == s.Get(ManifestKind, m) && KeepsImage(s, t, m)
      ensures m in OrphanManifests(s) ==>
                (t.Get(ManifestKind, m).None? <==> Removable(s.manifests[m], now, nodes))
      ensures m !in s.manifests ==> m !in t.manifests
    {
      assert Shrunk(s.Get(ManifestKind, m), t.Get(ManifestKind, m));
      if m in TaggedManifests(s) {
        TaggedManifestsKept(h, |h| - 1, m);
        assert t.Get(ManifestKind, m) == s.Get(ManifestKind, m);
        SurvivingImagesKept(h, |h| - 1, m);
      } else if m in s.manifests {
        RoundRemovesIff(h, now, nodes, ManifestKind, m);
      }
    }
    TaggedLeft(s, t, now, nodes);
    forall d | Live(s, d)
      ensures t.Get(BlobKind, d) == s.Get(BlobKind, d)
    {
      var p :| IsPathTo(s.blobs, Roots(TaggedManifests(s)), d, p);
      var m :| m in TaggedManifests(s) && p[0] in Deps(s.manifests[m]);
      assert IsPathTo(s.blobs, Deps(s.manifests[m]), d, p);
      assert KeepsImage(s, t, m);
    }
  }

  lemma TaggedLeft(s: Trees, t: Trees, now: int, nodes: seq<NodeId>)
    requires forall m | m in TaggedManifests(s) :: t.Get(ManifestKind, m) == s.Get(ManifestKind, m)
    requires forall m | m in OrphanManifests(s) ::
               t.Get(ManifestKind, m).None? <==> Removable(s.manifests[m], now, nodes)
    requires forall m | m !in s.manifests :: m !in t.manifests
    ensures t.manifests == TaggedManifests(s) <==>
            forall m | m in OrphanManifests(s) :: Removable(s.manifests[m], now, nodes)
  {
    if forall m | m in OrphanManifests(s) :: Removable(s.manifests[m], now, nodes) {
      forall m
        ensures m in t.manifests <==> m in TaggedManifests(s)
        ensures m in TaggedManifests(s) ==> t.manifests[m] == s.manifests[m]
      {
        assert m in s.manifests ==> m in TaggedManifests(s) || m in OrphanManifests(s);
        assert m in TaggedManifests(s) ==> t.Get(ManifestKind, m) == s.Get(ManifestKind, m);
        assert m in OrphanManifests(s) ==> t.Get(ManifestKind, m).None?;
      }
    } else {
      var m :| m in OrphanManifests(s) && !Removable(s.manifests[m], now, nodes);
      assert t.Get(ManifestKind, m).Some? && m !in TaggedManifests(s);
    }
  }

  /** Where every live blob is unchanged, the tagged manifests reach what they reached. */
  lemma LiveStillReached(s: Trees, t: Trees, d: Digest)
    requires forall x | Live(s, x) :: t.Get(BlobKind, x) == s.Get(BlobKind, x)
    requires t.manifests == TaggedManifests(s) && Live(s, d)
    ensures d in t.blobs && Reaches(t.blobs, Roots(t.manifests), d)
  {
    var roots := Roots(TaggedManifests(s));
    var p :| IsPathTo(s.blobs, roots, d, p);
    assert t.Get(BlobKind, d) == s.Get(BlobKind, d);
    forall x | 0 <= x < |p| - 1 && p[x] in s.blobs
      ensures p[x] in t.blobs && Deps(s.blobs[p[x]]) <= Deps(t.blobs[p[x]])
    {
      PathPrefix(s.blobs, p, x + 1);
      assert IsPathTo(s.blobs, roots, p[x], p[..x + 1]);
      assert Live(s, p[x]);
      assert t.Get(BlobKind, p[x]) == s.Get(BlobKind, p[x]);
    }
    PathElsewhere(s.blobs, t.blobs, p);
    assert IsPathTo(t.blobs, roots, d, p);
  }

  /** With only tagged manifests there, a round removes exactly the removable blobs that they do not reach. */
  lemma SecondRound(h: seq<Trees>, now: int, nodes: seq<NodeId>)
    requires IsRound(h, now, nodes) && OrphanManifests(h[0]) == {}
    ensures var s, t := h[0], h[|h| - 1];
            && t.manifests == s.manifests && t.tags == s.tags
            && (forall d :: d in t.blobs <==>
                  d in s.blobs && (d in OrphanBlobs(s) ==> !Removable(s.blobs[d], now, nodes)))
            && (forall d | d in s.blobs && d !in OrphanBlobs(s) ::
                  d in t.blobs && t.blobs[d] == s.blobs[d] && d !in OrphanBlobs(t))
            && (Settled(t) <==> forall d | d in OrphanBlobs(s) :: Removable(s.blobs[d], now, nodes))
  {
    var s, t := h[0], h[|h| - 1];
    assert TaggedManifests(s) == s.manifests by {
      assert forall m | m in s.manifests :: m !in OrphanManifests(s);
    }
    FirstRound(h, now, nodes);
    RoundIsGcRun(h, now, nodes);
    assert OrphanManifests(t) == {};
    forall d
      ensures d in t.blobs ==> d in s.blobs
      ensures d in OrphanBlobs(s) ==> (d in t.blobs <==> !Removable(s.blobs[d], now, nodes))
      ensures d in OrphanBlobs(s) && d in t.blobs ==> d in OrphanBlobs(t)
      ensures d in s.blobs && d !in OrphanBlobs(s) ==>
                d in t.blobs && t.blobs[d] == s.blobs[d] && d !in OrphanBlobs(t)
    {
      SecondRoundAt(h, now, nodes, d);
    }
    if d :| d in OrphanBlobs(s) && !Removable(s.blobs[d], now, nodes) {
      assert d in OrphanBlobs(t);
    }
  }

  lemma SecondRoundAt(h: seq<Trees>, now: int, nodes: seq<NodeId>, d: Digest)
    requires IsRound(h, now, nodes) && TaggedManifests(h[0]) == h[0].manifests
    requires h[|h| - 1].manifests == h[0].manifests
    ensures var s, t := h[0], h[|h| - 1];
            && (d in t.blobs ==> d in s.blobs)
            && (d in OrphanBlobs(s) ==> (d in t.blobs <==> !Removable(s.blobs[d], now, nodes)))
            && (d in OrphanBlobs(s) && d in t.blobs ==> d in OrphanBlobs(t))
            && (d in s.blobs && d !in OrphanBlobs(s) ==>
                  d in t.blobs && t.blobs[d] == s.blobs[d] && d !in OrphanBlobs(t))
  {
    var s, t := h[0], h[|h| - 1];
    FirstRound(h, now, nodes);
    RoundIsGcRun(h, now, nodes);
    assert Shrunk(s.Get(BlobKind, d), t.Get(BlobKind, d));
    if d in OrphanBlobs(s) {
      assert d in Orphans(s, BlobKind);
      RoundRemovesIff(h, now, nodes, BlobKind, d);
      DecisionsStayValid(h, 0, |h| - 1, BlobKind, d);
    } else if d in s.blobs {
      assert Live(s, d);
      LiveStillReached(s, t, d);
      assert t.Get(BlobKind, d) == s.Get(BlobKind, d);
    }
  }

  /** The tags, exactly the tagged manifests, and exactly the blobs reachable from them, all as they were. */
  ghost predicate Converged(s: Trees, t: Trees) {
    && t.tags == s.tags
    && t.manifests == TaggedManifests(s)
    && (forall d :: d in t.blobs <==> Live(s, d))
    && (forall d | d in t.blobs :: t.blobs[d] == s.blobs[d])
  }

  /**
    Convergence: two rounds suffice if the first can remove every untagged manifest, and one of them every
    blob that no tagged manifest reaches.
   */
  lemma TwoRoundsConverge(h1: seq<Trees>, now1: int, nodes1: seq<NodeId>,
                          h2: seq<Trees>, now2: int, nodes2: seq<NodeId>)
    requires IsRound(h1, now1, nodes1) && IsRound(h2, now2, nodes2) && h2[0] == h1[|h1| - 1]
    requires forall m | m in OrphanManifests(h1[0]) :: Removable(h1[0].manifests[m], now1, nodes1)
    requires forall d | d in h1[0].blobs && !Live(h1[0], d) ::
               || Removable(h1[0].blobs[d], now2, nodes2)
               || (d in OrphanBlobs(h1[0]) && Removable(h1[0].blobs[d], now1, nodes1))
    ensures Converged(h1[0], h2[|h2| - 1]) && Settled(h2[|h2| - 1])
  {
    AfterFirst(h1, now1, nodes1, now2, nodes2);
    SecondRound(h2, now2, nodes2);
    BothRounds(h1[0], h2[0], h2[|h2| - 1], now2, nodes2);
  }

  lemma BothRounds(s: Trees, x: Trees, t: Trees, now: int, nodes: seq<NodeId>)
    requires x.manifests == TaggedManifests(s) == t.manifests && x.tags == s.tags == t.tags
    requires forall d :: d in x.blobs && d !in OrphanBlobs(x) <==> Live(s, d)
    requires forall d | Live(s, d) :: x.blobs[d] == s.blobs[d]
    requires forall d | d in OrphanBlobs(x) :: Removable(x.blobs[d], now, nodes)
    requires forall d :: d in t.blobs <==>
               d in x.blobs && (d in OrphanBlobs(x) ==> !Removable(x.blobs[d], now, nodes))
    requires forall d | d in x.blobs && d !in OrphanBlobs(x) :: d in t.blobs && t.blobs[d] == x.blobs[d]
    ensures Converged(s, t)
  {
  }

  /** What the first round leaves for the second. */
  lemma AfterFirst(h: seq<Trees>, now: int, nodes: seq<NodeId>, later: int, more: seq<NodeId>)
    requires IsRound(h, now, nodes)
    requires forall m | m in OrphanManifests(h[0]) :: Removable(h[0].manifests[m], now, nodes)
    requires forall d | d in h[0].blobs && !Live(h[0], d) ::
               || Removable(h[0].blobs[d], later, more)
               || (d in OrphanBlobs(h[0]) && Removable(h[0].blobs[d], now, nodes))
    ensures var s, x := h[0], h[|h| - 1];
            && x.manifests == TaggedManifests(s) && x.tags == s.tags && OrphanManifests(x) == {}
            && (forall d :: d in x.blobs && d !in OrphanBlobs(x) <==> Live(s, d))
            && (forall d | Live(s, d) :: x.blobs[d] == s.blobs[d])
            && (forall d | d in OrphanBlobs(x) :: Removable(x.blobs[d], later, more))
  {
    var s, x := h[0], h[|h| - 1];
    FirstRound(h, now, nodes);
    forall d
      ensures d in x.blobs && d !in OrphanBlobs(x) <==> Live(s, d)
      ensures Live(s, d) ==> x.blobs[d] == s.blobs[d]
      ensures d in OrphanBlobs(x) ==> Removable(x.blobs[d], later, more)
    {
      LeftByFirst(s, x, d);
      if d in OrphanBlobs(x) {
        assert Shrunk(s.Get(BlobKind, d), x.Get(BlobKind, d));
        LeftIsRemovable(h, now, nodes, d, later, more);
      }
    }
  }

  lemma LeftIsRemovable(h: seq<Trees>, now: int, nodes: seq<NodeId>, d: Digest, later: int, more: seq<NodeId>)
    requires IsRound(h, now, nodes) && d in h[0].blobs && d in h[|h| - 1].blobs
    requires Removable(h[0].blobs[d], later, more) || (d in OrphanBlobs(h[0]) && Removable(h[0].blobs[d], now, nodes))
    ensures Removable(h[|h| - 1].blobs[d], later, more)
  {
    RoundIsGcRun(h, now, nodes);
    RunShrinks(h, 0, |h| - 1);
    assert Shrunk(h[0].Get(BlobKind, d), h[|h| - 1].Get(BlobKind, d));
    if d in OrphanBlobs(h[0]) {
      assert d in Orphans(h[0], BlobKind);
      RoundRemovesIff(h, now, nodes, BlobKind, d);
    }
  }

  /** After a round that left the tagged manifests, the orphans are what was not live. */
  lemma LeftByFirst(s: Trees, x: Trees, d: Digest)
    requires AllShrunk(s, x) && x.manifests == TaggedManifests(s)
    requires forall y | Live(s, y) :: x.Get(BlobKind, y) == s.Get(BlobKind, y)
    ensures d in x.blobs && d !in OrphanBlobs(x) <==> Live(s, d)
    ensures Live(s, d) ==> x.blobs[d] == s.blobs[d]
  {
    assert Shrunk(s.Get(BlobKind, d), x.Get(BlobKind, d));
    if Live(s, d) {
      assert x.Get(BlobKind, d) == s.Get(BlobKind, d);
      LiveStillReached(s, x, d);
    } else if d in x.blobs && Reaches(x.blobs, Roots(x.manifests), d) {
      forall y | y in x.blobs
        ensures y in s.blobs && Deps(x.blobs[y]) <= Deps(s.blobs[y])
      {
        assert Shrunk(s.Get(BlobKind, y), x.Get(BlobKind, y));
      }
      ReachesMonotone(x.blobs, s.blobs, Roots(x.manifests), Roots(TaggedManifests(s)), d);
    }
  }

  /**
    When the second round is later and at least as wide, this is exact: the two rounds converge if and only
    if every blob that no tagged manifest reaches is removable by the second.
   */
  lemma TwoRoundsConvergeIff(h1: seq<Trees>, now1: int, nodes1: seq<NodeId>,
                             h2: seq<Trees>, now2: int, nodes2: seq<NodeId>)
    requires IsRound(h1, now1, nodes1) && IsRound(h2, now2, nodes2) && h2[0] == h1[|h1| - 1]
    requires now1 <= now2 && forall n | n in nodes1 :: n in nodes2
    requires forall m | m in OrphanManifests(h1[0]) :: Removable(h1[0].manifests[m], now1, nodes1)
    ensures Converged(h1[0], h2[|h2| - 1]) <==>
            forall d | d in h1[0].blobs && !Live(h1[0], d) :: Removable(h1[0].blobs[d], now2, nodes2)
  {
    var s := h1[0];
    if forall d | d in s.blobs && !Live(s, d) :: Removable(s.blobs[d], now2, nodes2) {
      TwoRoundsConverge(h1, now1, nodes1, h2, now2, nodes2);
    } else {
      var d :| d in s.blobs && !Live(s, d) && !Removable(s.blobs[d], now2, nodes2);
      assert d in s.Of(BlobKind);
      UnremovableStays(h1, now1, nodes1, BlobKind, d, now2, nodes2);
      UnremovableStays(h2, now2, nodes2, BlobKind, d, now2, nodes2);
      assert d in h2[|h2| - 1].blobs;
    }
  }

  /** In a settled state neither phase finds anything to do. */
  lemma SettledEmitsNothing(s: Trees, now: int, node: NodeId, failed: set<(Kind, Digest)>, acts: seq<Action>)
    requires Settled(s)
    requires IsPhase1(s, now, acts) || IsPhase2(s, now, node, failed, acts)
    ensures acts == []
  {
    assert |acts| > 0 ==> acts[0] in acts;
    forall k: Kind, d
      ensures d !in Orphans(s, k)
    {
      match k case BlobKind => case ManifestKind =>
    }
  }
}
