/**
  Garbage collection under interleaving. A run commits transactions that some node decided from earlier
  states, however long ago: it reads the orphaned manifests in one and the orphaned blobs in that one or a
  later one. Client writes are absent from the run.
 */
module GarbageSafety {
  import opened Types
  import opened StateMachine
  import opened Replication
  import opened Graph
  import opened Garbage

  /** The state in which orphans of kind `k` were read: manifests in `m`, blobs in `b`. */
  function ReadOf(m: Trees, b: Trees, k: Kind): Trees {
    match k case ManifestKind => m case BlobKind => b
  }

  predicate FromKind(acts: seq<Action>, k: Kind, a: Action) {
    a in acts && TargetOf(a).Object? && TargetOf(a).kind == k
  }

  /** `acts` are the manifest actions of `ms` and the blob actions of `bs`. */
  ghost predicate IsMix(ms: seq<Action>, bs: seq<Action>, acts: seq<Action>) {
    forall a :: a in acts <==> FromKind(ms, ManifestKind, a) || FromKind(bs, BlobKind, a)
  }

  ghost predicate Phase1Transaction(m: Trees, b: Trees, acts: seq<Action>) {
    exists now, now', ms, bs :: IsPhase1(m, now, ms) && IsPhase1(b, now', bs) && IsMix(ms, bs, acts)
  }

  ghost predicate Phase2Transaction(m: Trees, b: Trees, acts: seq<Action>) {
    exists now, now', node, failed, failed', ms, bs ::
      IsPhase2(m, now, node, failed, ms) && IsPhase2(b, now', node, failed', bs) && IsMix(ms, bs, acts)
  }

  /** A transaction of either phase, decided from those two reads. */
  ghost predicate GcTransaction(m: Trees, b: Trees, acts: seq<Action>) {
    Phase1Transaction(m, b, acts) || Phase2Transaction(m, b, acts)
  }

  ghost predicate CommitsLate(h: seq<Trees>, i: nat, j: nat, e: nat, acts: seq<Action>)
    requires j <= e <= i < |h| - 1
  {
    GcTransaction(h[j], h[e], acts) && Run(h[i], acts) == Done(h[i + 1])
  }

  /** Each state follows from the one before by a transaction decided from states no later than that. */
  ghost predicate GcRun(h: seq<Trees>) {
    && h != []
    && forall i | 0 <= i < |h| - 1 :: IsGcStep(h, i)
  }

  ghost predicate IsGcStep(h: seq<Trees>, i: nat)
    requires i < |h| - 1
  {
    exists j, e, acts | 0 <= j <= e <= i :: CommitsLate(h, i, j, e, acts)
  }

  lemma StepInto(h: seq<Trees>, i: nat) returns (j: nat, e: nat, acts: seq<Action>)
    requires GcRun(h) && 0 < i < |h|
    ensures j <= e < i && GcTransaction(h[j], h[e], acts) && Run(h[i - 1], acts) == Done(h[i])
  {
    var x := i - 1;
    assert IsGcStep(h, x);
    j, e, acts :| 0 <= j <= e <= x && CommitsLate(h, x, j, e, acts);
  }

  /** What garbage collection may do to a record: delete it, or take away mounts and copies. */
  ghost predicate Shrunk(o: Option<Record>, p: Option<Record>) {
    p.None? ||
    (&& o.Some?
     && p.value.created == o.value.created && p.value.contentType == o.value.contentType
     && p.value.size == o.value.size && p.value.dependencies == o.value.dependencies
     && p.value.locations <= o.value.locations && p.value.repositories <= o.value.repositories
     && (o.value.locations != {} ==> p.value.locations != {}))
  }

  ghost predicate AllShrunk(s: Trees, t: Trees) {
    s.tags == t.tags && forall k, d :: Shrunk(s.Get(k, d), t.Get(k, d))
  }

  /** Every digest reachable from a manifest is present. */
  ghost predicate Complete(s: Trees) {
    forall d | Reaches(s.blobs, Roots(s.manifests), d) :: d in s.blobs
  }

  /** `t` still has manifest `m`, and every blob it reached in `s`, unchanged. */
  ghost predicate KeepsImage(s: Trees, t: Trees, m: Digest) {
    && m in s.manifests && m in t.manifests && Deps(t.manifests[m]) == Deps(s.manifests[m])
    && forall d | d in s.blobs && Reaches(s.blobs, Deps(s.manifests[m]), d) ::
         t.Get(BlobKind, d) == s.Get(BlobKind, d)
  }

  lemma {:induction false} FoldShrinks(o: Option<Record>, cs: seq<Change>)
    requires forall c | c in cs :: c.Unmounted? || c.Unstored?
    ensures Fold(o, cs).Done? && Shrunk(o, Fold(o, cs).value)
  {
    if cs != [] {
      assert cs[|cs| - 1] in cs;
      FoldShrinks(o, cs[..|cs| - 1]);
    }
  }

  /** Deciding from a single state is the case where both reads see it. */
  lemma OneRead(s: Trees, now: int, node: NodeId, failed: set<(Kind, Digest)>, acts: seq<Action>)
    requires IsPhase1(s, now, acts) || IsPhase2(s, now, node, failed, acts)
    ensures GcTransaction(s, s, acts)
  {
    forall a | a in acts
      ensures TargetOf(a).Object?
    {
      if IsPhase1(s, now, acts) {
        Phase1Target(s, now, acts, a);
      } else {
        Phase2Target(s, now, node, failed, acts, a);
      }
    }
    assert IsMix(acts, acts, acts);
  }

  lemma Phase1Target(s: Trees, now: int, acts: seq<Action>, a: Action)
    requires IsPhase1(s, now, acts) && a in acts
    ensures TargetOf(a).Object? && TargetOf(a).digest in Orphans(s, TargetOf(a).kind) && TargetOf(a).change.Unmounted?
  {
    var k, d, r :| Unmountable(s, now, k, d, r) && a == UnmountAction(k, now, d, r);
    assert d in Orphans(s, k);
  }

  lemma Phase2Target(s: Trees, now: int, node: NodeId, failed: set<(Kind, Digest)>, acts: seq<Action>, a: Action)
    requires IsPhase2(s, now, node, failed, acts) && a in acts
    ensures TargetOf(a).Object? && TargetOf(a).digest in Orphans(s, TargetOf(a).kind) && TargetOf(a).change.Unstored?
    ensures TargetOf(a).change.node in s.Of(TargetOf(a).kind)[TargetOf(a).digest].locations
  {
    var k, d :| Unstorable(s, node, failed, k, d) && a == UnstoreAction(k, now, d, node);
    assert d in Orphans(s, k);
  }

  /** A collection transaction names only objects that were orphaned where they were read. */
  lemma GcTarget(m: Trees, b: Trees, acts: seq<Action>, a: Action)
    requires GcTransaction(m, b, acts) && a in acts
    ensures var t := TargetOf(a);
            && t.Object? && t.digest in Orphans(ReadOf(m, b, t.kind), t.kind)
            && (t.change.Unmounted? ||
                (t.change.Unstored? && t.change.node in ReadOf(m, b, t.kind).Of(t.kind)[t.digest].locations))
  {
    if Phase1Transaction(m, b, acts) {
      var now, now', ms, bs :| IsPhase1(m, now, ms) && IsPhase1(b, now', bs) && IsMix(ms, bs, acts);
      if FromKind(ms, ManifestKind, a) {
        Phase1Target(m, now, ms, a);
      } else {
        Phase1Target(b, now', bs, a);
      }
    } else {
      var now, now', node, failed, failed', ms, bs :|
        IsPhase2(m, now, node, failed, ms) && IsPhase2(b, now', node, failed', bs) && IsMix(ms, bs, acts);
      if FromKind(ms, ManifestKind, a) {
        Phase2Target(m, now, node, failed, ms, a);
      } else {
        Phase2Target(b, now', node, failed', bs, a);
      }
    }
  }

  lemma GcNamesOrphans(m: Trees, b: Trees, acts: seq<Action>, k: Kind, d: Digest)
    requires GcTransaction(m, b, acts)
    ensures forall c | c in Changes(acts, k, d) :: c.Unmounted? || c.Unstored?
    ensures d !in Orphans(ReadOf(m, b, k), k) ==> Changes(acts, k, d) == []
  {
    var cs := Changes(acts, k, d);
    assert |cs| > 0 ==> cs[0] in cs;
    forall c | c in cs
      ensures d in Orphans(ReadOf(m, b, k), k) && (c.Unmounted? || c.Unstored?)
    {
      ChangesComeFrom(acts, k, d, c);
      var i :| 0 <= i < |acts| && TargetOf(acts[i]) == Object(k, d, c);
      GcTarget(m, b, acts, acts[i]);
    }
  }

  lemma {:induction false} GcLeavesTags(s: Trees, acts: seq<Action>, key: TagKey)
    requires forall a | a in acts :: TargetOf(a).Object?
    ensures LastTag(acts, key) == None
  {
    if acts != [] {
      assert acts[|acts| - 1] in acts;
      GcLeavesTags(s, acts[..|acts| - 1], key);
    }
  }

  lemma GcNeverPanics(m: Trees, b: Trees, t: Trees, acts: seq<Action>)
    requires GcTransaction(m, b, acts)
    ensures Run(t, acts).Done?
  {
    RunPanicsIff(t, acts);
    forall k, d
      ensures Fold(t.Get(k, d), Changes(acts, k, d)).Done?
    {
      GcNamesOrphans(m, b, acts, k, d);
      FoldShrinks(t.Get(k, d), Changes(acts, k, d));
    }
  }

  lemma GcKeepsTags(m: Trees, b: Trees, t: Trees, acts: seq<Action>)
    requires GcTransaction(m, b, acts) && Run(t, acts).Done?
    ensures Run(t, acts).value.tags == t.tags
  {
    var u := Run(t, acts).value;
    forall a | a in acts
      ensures TargetOf(a).Object?
    {
      GcTarget(m, b, acts, a);
    }
    forall key
      ensures key in u.tags <==> key in t.tags
      ensures key in t.tags ==> u.tags[key] == t.tags[key]
    {
      RunTags(t, acts, key);
      GcLeavesTags(t, acts, key);
      assert u.Tag(key) == t.Tag(key);
    }
  }

  /** Committed in any state `t`, a transaction never panics and touches only what was orphaned when read. */
  lemma GcCommit(m: Trees, b: Trees, t: Trees, acts: seq<Action>)
    requires GcTransaction(m, b, acts)
    ensures Run(t, acts).Done? && AllShrunk(t, Run(t, acts).value)
    ensures forall k, d | d !in Orphans(ReadOf(m, b, k), k) :: Run(t, acts).value.Get(k, d) == t.Get(k, d)
  {
    GcNeverPanics(m, b, t, acts);
    GcKeepsTags(m, b, t, acts);
    var u := Run(t, acts).value;
    forall k, d
      ensures Shrunk(t.Get(k, d), u.Get(k, d))
      ensures d !in Orphans(ReadOf(m, b, k), k) ==> u.Get(k, d) == t.Get(k, d)
    {
      GcNamesOrphans(m, b, acts, k, d);
      FoldShrinks(t.Get(k, d), Changes(acts, k, d));
      RunProjects(t, acts, k, d);
    }
  }

  /** Records only ever shrink along a run. */
  lemma {:induction false} RunShrinks(h: seq<Trees>, i: nat, j: nat)
    requires GcRun(h) && i <= j < |h|
    ensures AllShrunk(h[i], h[j])
    decreases j
  {
    if i < j {
      RunShrinks(h, i, j - 1);
      var x, e, acts := StepInto(h, j);
      GcCommit(h[x], h[e], h[j - 1], acts);
      forall k, d
        ensures Shrunk(h[i].Get(k, d), h[j].Get(k, d))
      {
        assert Shrunk(h[i].Get(k, d), h[j - 1].Get(k, d));
        assert Shrunk(h[j - 1].Get(k, d), h[j].Get(k, d));
      }
    }
  }

  lemma ShrunkReachesLess(s: Trees, t: Trees, d: Digest)
    requires AllShrunk(s, t) && Reaches(t.blobs, Roots(t.manifests), d)
    ensures Reaches(s.blobs, Roots(s.manifests), d)
  {
    forall x | x in t.blobs
      ensures x in s.blobs && Deps(t.blobs[x]) <= Deps(s.blobs[x])
    {
      assert Shrunk(s.Get(BlobKind, x), t.Get(BlobKind, x));
    }
    forall m | m in t.manifests
      ensures m in s.manifests && Deps(t.manifests[m]) == Deps(s.manifests[m])
    {
      assert Shrunk(s.Get(ManifestKind, m), t.Get(ManifestKind, m));
    }
    ReachesMonotone(t.blobs, s.blobs, Roots(t.manifests), Roots(s.manifests), d);
  }

  /** Orphanhood and empty repositories, once observed, stay true until the object is gone. */
  lemma DecisionsStayValid(h: seq<Trees>, i: nat, j: nat, k: Kind, d: Digest)
    requires GcRun(h) && i <= j < |h| && d in Orphans(h[i], k)
    ensures h[j].Get(k, d).None? || d in Orphans(h[j], k)
    ensures h[j].Get(k, d).Some? && h[i].Of(k)[d].repositories == {} ==> h[j].Of(k)[d].repositories == {}
    ensures h[j].Get(k, d).Some? ==> h[j].Of(k)[d].created == h[i].Of(k)[d].created
  {
    RunShrinks(h, i, j);
    assert Shrunk(h[i].Get(k, d), h[j].Get(k, d));
    if h[j].Get(k, d).Some? && k.BlobKind? && Reaches(h[j].blobs, Roots(h[j].manifests), d) {
      ShrunkReachesLess(h[i], h[j], d);
    }
  }

  /** While an image is kept, everything it reached it still reaches. */
  lemma KeptImageReaches(s: Trees, t: Trees, m: Digest, d: Digest)
    requires KeepsImage(s, t, m) && Reaches(s.blobs, Deps(s.manifests[m]), d)
    ensures Reaches(t.blobs, Deps(t.manifests[m]), d) && Reaches(t.blobs, Roots(t.manifests), d)
  {
    var roots := Deps(s.manifests[m]);
    var p :| IsPathTo(s.blobs, roots, d, p);
    forall x | 0 <= x < |p| - 1 && p[x] in s.blobs
      ensures p[x] in t.blobs && Deps(s.blobs[p[x]]) <= Deps(t.blobs[p[x]])
    {
      PathPrefix(s.blobs, p, x + 1);
      assert IsPathTo(s.blobs, roots, p[x], p[..x + 1]);
      assert t.Get(BlobKind, p[x]) == s.Get(BlobKind, p[x]);
    }
    PathElsewhere(s.blobs, t.blobs, p);
    assert IsPathTo(t.blobs, roots, d, p);
    assert IsPathTo(t.blobs, Roots(t.manifests), d, p);
  }

  /** A manifest that survives a run keeps every blob it reached, however late the transactions commit. */
  lemma {:induction false} SurvivingImagesKept(h: seq<Trees>, i: nat, m: Digest)
    requires GcRun(h) && i < |h| && m in h[i].manifests
    ensures KeepsImage(h[0], h[i], m)
    decreases i
  {
    RunShrinks(h, 0, i);
    assert Shrunk(h[0].Get(ManifestKind, m), h[i].Get(ManifestKind, m));
    if i > 0 {
      RunShrinks(h, i - 1, i);
      assert Shrunk(h[i - 1].Get(ManifestKind, m), h[i].Get(ManifestKind, m));
      SurvivingImagesKept(h, i - 1, m);
      var x, e, acts := StepInto(h, i);
      RunShrinks(h, e, i);
      assert Shrunk(h[e].Get(ManifestKind, m), h[i].Get(ManifestKind, m));
      SurvivingImagesKept(h, e, m);
      GcCommit(h[x], h[e], h[i - 1], acts);
      forall d | d in h[0].blobs && Reaches(h[0].blobs, Deps(h[0].manifests[m]), d)
        ensures h[i].Get(BlobKind, d) == h[0].Get(BlobKind, d)
      {
        KeptImageReaches(h[0], h[e], m, d);
        assert d !in Orphans(ReadOf(h[x], h[e], BlobKind), BlobKind);
      }
    }
  }

  /** Tagged manifests and tags come through every run unchanged. */
  lemma {:induction false} TaggedManifestsKept(h: seq<Trees>, i: nat, m: Digest)
    requires GcRun(h) && i < |h| && m in h[0].manifests && m in h[0].tags.Values
    ensures h[i].tags == h[0].tags && h[i].Get(ManifestKind, m) == h[0].Get(ManifestKind, m)
    decreases i
  {
    RunShrinks(h, 0, i);
    if i > 0 {
      TaggedManifestsKept(h, i - 1, m);
      var x, e, acts := StepInto(h, i);
      GcCommit(h[x], h[e], h[i - 1], acts);
      RunShrinks(h, 0, x);
      assert m !in Orphans(ReadOf(h[x], h[e], ManifestKind), ManifestKind);
    }
  }

  /** Safety between any two points of a run: what survives keeps all the blobs it had. */
  lemma NothingReachableIsLost(h: seq<Trees>, i: nat, j: nat, m: Digest, d: Digest)
    requires GcRun(h) && i <= j < |h| && m in h[j].manifests
    requires m in h[i].manifests && d in h[i].blobs && Reaches(h[i].blobs, Deps(h[i].manifests[m]), d)
    ensures h[j].Get(BlobKind, d) == h[i].Get(BlobKind, d)
  {
    RunShrinks(h, 0, i);
    SurvivingImagesKept(h, i, m);
    SurvivingImagesKept(h, j, m);
    forall x | x in h[i].blobs
      ensures x in h[0].blobs && Deps(h[i].blobs[x]) <= Deps(h[0].blobs[x])
    {
      assert Shrunk(h[0].Get(BlobKind, x), h[i].Get(BlobKind, x));
    }
    ReachesMonotone(h[i].blobs, h[0].blobs, Deps(h[i].manifests[m]), Deps(h[0].manifests[m]), d);
  }

  /** Garbage collection never leaves a manifest with a missing blob that was not missing already. */
  lemma CompletenessKept(h: seq<Trees>, i: nat)
    requires GcRun(h) && i < |h| && Complete(h[0])
    ensures Complete(h[i])
  {
    RunShrinks(h, 0, i);
    forall d | Reaches(h[i].blobs, Roots(h[i].manifests), d)
      ensures d in h[i].blobs
    {
      var p :| IsPathTo(h[i].blobs, Roots(h[i].manifests), d, p);
      var m :| m in h[i].manifests && p[0] in Deps(h[i].manifests[m]);
      SurvivingImagesKept(h, i, m);
      forall x | x in h[i].blobs
        ensures x in h[0].blobs && Deps(h[i].blobs[x]) <= Deps(h[0].blobs[x])
      {
        assert Shrunk(h[0].Get(BlobKind, x), h[i].Get(BlobKind, x));
      }
      assert IsPathTo(h[i].blobs, Deps(h[i].manifests[m]), d, p);
      ReachesMonotone(h[i].blobs, h[0].blobs, Deps(h[i].manifests[m]), Deps(h[0].manifests[m]), d);
      ReachesMonotone(h[0].blobs, h[0].blobs, Deps(h[0].manifests[m]), Roots(h[0].manifests), d);
      assert h[i].Get(BlobKind, d) == h[0].Get(BlobKind, d);
    }
  }

  lemma GcUnstoresHolders(m: Trees, b: Trees, acts: seq<Action>, k: Kind, d: Digest, c: Change)
    requires GcTransaction(m, b, acts) && c in Changes(acts, k, d) && c.Unstored?
    ensures var s := ReadOf(m, b, k); d in s.Of(k) && c.node in s.Of(k)[d].locations
  {
    ChangesComeFrom(acts, k, d, c);
    var i :| 0 <= i < |acts| && TargetOf(acts[i]) == Object(k, d, c);
    GcTarget(m, b, acts, acts[i]);
  }

  /** An object nobody holds is never deleted, orphaned or not: only giving up a copy deletes. */
  lemma {:induction false} UnheldIsNeverCollected(h: seq<Trees>, i: nat, k: Kind, d: Digest)
    requires GcRun(h) && i < |h| && d in h[0].Of(k) && h[0].Of(k)[d].locations == {}
    ensures d in h[i].Of(k) && h[i].Of(k)[d].locations == {}
    decreases i
  {
    if i > 0 {
      UnheldIsNeverCollected(h, i - 1, k, d);
      var x, e, acts := StepInto(h, i);
      UnheldIsNeverCollected(h, x, k, d);
      UnheldIsNeverCollected(h, e, k, d);
      forall c | c in Changes(acts, k, d)
        ensures c.Unmounted?
      {
        GcNamesOrphans(h[x], h[e], acts, k, d);
        if c.Unstored? {
          GcUnstoresHolders(h[x], h[e], acts, k, d, c);
        }
      }
      RunProjects(h[i - 1], acts, k, d);
      FoldWithoutMoves(h[i - 1].Get(k, d), Changes(acts, k, d));
    }
  }
}
