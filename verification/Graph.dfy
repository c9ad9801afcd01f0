/** The dependency graph: manifests point at blobs, blobs at further blobs; cycles and dangling digests allowed. */
module Graph {
  import opened Types
  import opened StateMachine

  function Deps(r: Record): set<Digest> {
    if r.dependencies.Some? then set d | d in r.dependencies.value else {}
  }

  /** The digests some manifest depends on directly. */
  function Roots(manifests: Tree): set<Digest> {
    set m, d | m in manifests && d in Deps(manifests[m]) :: d
  }

  ghost predicate IsPath(blobs: Tree, p: seq<Digest>) {
    p != [] && forall i | 0 <= i < |p| - 1 :: Linked(blobs, p, i)
  }

  predicate Linked(blobs: Tree, p: seq<Digest>, i: nat)
    requires i + 1 < |p|
  {
    p[i] in blobs && p[i + 1] in Deps(blobs[p[i]])
  }

  lemma PathPrefix(blobs: Tree, p: seq<Digest>, n: nat)
    requires IsPath(blobs, p) && 0 < n <= |p|
    ensures IsPath(blobs, p[..n])
  {
    forall i | 0 <= i < n - 1
      ensures Linked(blobs, p[..n], i)
    {
      assert Linked(blobs, p, i);
    }
  }

  /** A path survives in any tree that has the links of its inner digests. */
  lemma PathElsewhere(blobs: Tree, blobs': Tree, p: seq<Digest>)
    requires IsPath(blobs, p)
    requires forall i | 0 <= i < |p| - 1 && p[i] in blobs :: p[i] in blobs' && Deps(blobs[p[i]]) <= Deps(blobs'[p[i]])
    ensures IsPath(blobs', p)
  {
    forall i | 0 <= i < |p| - 1
      ensures Linked(blobs', p, i)
    {
      assert Linked(blobs, p, i);
    }
  }

  ghost predicate IsPathTo(blobs: Tree, roots: set<Digest>, d: Digest, p: seq<Digest>) {
    IsPath(blobs, p) && p[0] in roots && p[|p| - 1] == d
  }

  /** `d` is at the end of a dependency path that starts in `roots`. */
  ghost predicate Reaches(blobs: Tree, roots: set<Digest>, d: Digest) {
    exists p :: IsPathTo(blobs, roots, d, p)
  }

  ghost function OrphanBlobs(s: Trees): set<Digest> {
    set d | d in s.blobs && !Reaches(s.blobs, Roots(s.manifests), d)
  }

  function OrphanManifests(s: Trees): set<Digest> {
    set d | d in s.manifests && d !in s.tags.Values
  }

  ghost function Orphans(s: Trees, k: Kind): set<Digest> {
    match k case BlobKind => OrphanBlobs(s) case ManifestKind => OrphanManifests(s)
  }

  lemma RootReached(blobs: Tree, roots: set<Digest>, d: Digest)
    requires d in roots
    ensures Reaches(blobs, roots, d)
  {
    assert IsPathTo(blobs, roots, d, [d]);
  }

  lemma StepReached(blobs: Tree, roots: set<Digest>, d: Digest, e: Digest)
    requires Reaches(blobs, roots, d) && d in blobs && e in Deps(blobs[d])
    ensures Reaches(blobs, roots, e)
  {
    var p :| IsPathTo(blobs, roots, d, p);
    var q := p + [e];
    forall i | 0 <= i < |q| - 1
      ensures Linked(blobs, q, i)
    {
      assert i < |p| - 1 ==> Linked(blobs, p, i);
    }
    assert IsPathTo(blobs, roots, e, q);
  }

  /** What lies along a path from a reached digest is reached. */
  lemma {:induction false} FollowPath(blobs: Tree, roots: set<Digest>, p: seq<Digest>)
    requires IsPath(blobs, p) && Reaches(blobs, roots, p[0])
    ensures Reaches(blobs, roots, p[|p| - 1])
  {
    if |p| > 1 {
      PathPrefix(blobs, p, |p| - 1);
      FollowPath(blobs, roots, p[..|p| - 1]);
      assert Linked(blobs, p, |p| - 2);
      StepReached(blobs, roots, p[|p| - 2], p[|p| - 1]);
    }
  }

  /** A set that holds the roots and is closed under dependencies holds everything reachable. */
  lemma {:induction false} ClosedHoldsPath(blobs: Tree, roots: set<Digest>, closed: set<Digest>, p: seq<Digest>)
    requires roots <= closed
    requires forall d | d in closed && d in blobs :: Deps(blobs[d]) <= closed
    requires IsPath(blobs, p) && p[0] in roots
    ensures p[|p| - 1] in closed
  {
    if |p| > 1 {
      PathPrefix(blobs, p, |p| - 1);
      ClosedHoldsPath(blobs, roots, closed, p[..|p| - 1]);
      assert Linked(blobs, p, |p| - 2);
    }
  }

  lemma ClosedHoldsReached(blobs: Tree, roots: set<Digest>, closed: set<Digest>)
    requires roots <= closed
    requires forall d | d in closed && d in blobs :: Deps(blobs[d]) <= closed
    ensures forall d | Reaches(blobs, roots, d) :: d in closed
  {
    forall d | Reaches(blobs, roots, d)
      ensures d in closed
    {
      var p :| IsPathTo(blobs, roots, d, p);
      ClosedHoldsPath(blobs, roots, closed, p);
    }
  }

  /** Fewer edges and fewer roots reach less. */
  lemma ReachesMonotone(small: Tree, large: Tree, roots: set<Digest>, roots': set<Digest>, d: Digest)
    requires roots <= roots' && Reaches(small, roots, d)
    requires forall x | x in small :: x in large && Deps(small[x]) <= Deps(large[x])
    ensures Reaches(large, roots', d)
  {
    var p :| IsPathTo(small, roots, d, p);
    PathElsewhere(small, large, p);
    assert IsPathTo(large, roots', d, p);
  }

  /** What a manifest or blob depends on, and which manifests are orphaned. */
  lemma DepsMean(s: Trees, r: Record, d: Digest)
    ensures d in Deps(r) <==>
              r.dependencies.Some? && exists i :: 0 <= i < |r.dependencies.value| && r.dependencies.value[i] == d
    ensures d in Roots(s.manifests) <==> exists m :: m in s.manifests && d in Deps(s.manifests[m])
    ensures d in OrphanManifests(s) <==> d in s.manifests && forall key | key in s.tags :: s.tags[key] != d
  {
    if key :| key in s.tags && s.tags[key] == d {
      assert d in s.tags.Values;
    }
  }

  /** `closed` holds every direct dependency of a manifest, and with a blob everything the blob depends on. */
  ghost predicate ClosedUnderDependencies(s: Trees, closed: set<Digest>) {
    && (forall m, i | m in s.manifests && s.manifests[m].dependencies.Some?
                      && 0 <= i < |s.manifests[m].dependencies.value| :: s.manifests[m].dependencies.value[i] in closed)
    && (forall b, i | b in closed && b in s.blobs && s.blobs[b].dependencies.Some?
                      && 0 <= i < |s.blobs[b].dependencies.value| :: s.blobs[b].dependencies.value[i] in closed)
  }

  /** A blob is orphaned if and only if some set closed under dependencies does without it. */
  lemma OrphanBlobIff(s: Trees, d: Digest)
    ensures d in OrphanBlobs(s) <==>
            d in s.blobs && exists closed: set<Digest> :: ClosedUnderDependencies(s, closed) && d !in closed
  {
    var roots := Roots(s.manifests);
    if d in OrphanBlobs(s) {
      var reached := set e | e in roots + Roots(s.blobs) && Reaches(s.blobs, roots, e);
      ReachedIsClosed(s, reached);
      assert ClosedUnderDependencies(s, reached) && d !in reached;
    }
    if closed: set<Digest> :| ClosedUnderDependencies(s, closed) && d !in closed {
      ClosedHoldsReached(s.blobs, roots, closed);
    }
  }

  lemma ReachedIsClosed(s: Trees, reached: set<Digest>)
    requires reached == set e | e in Roots(s.manifests) + Roots(s.blobs) && Reaches(s.blobs, Roots(s.manifests), e)
    ensures ClosedUnderDependencies(s, reached)
  {
    var roots := Roots(s.manifests);
    forall m, i | m in s.manifests && s.manifests[m].dependencies.Some? && 0 <= i < |s.manifests[m].dependencies.value|
      ensures s.manifests[m].dependencies.value[i] in reached
    {
      var e := s.manifests[m].dependencies.value[i];
      assert e in Deps(s.manifests[m]);
      RootReached(s.blobs, roots, e);
    }
    forall b, i |
      b in reached && b in s.blobs && s.blobs[b].dependencies.Some? && 0 <= i < |s.blobs[b].dependencies.value|
      ensures s.blobs[b].dependencies.value[i] in reached
    {
      var e := s.blobs[b].dependencies.value[i];
      assert e in Deps(s.blobs[b]);
      StepReached(s.blobs, roots, b, e);
    }
  }
}
