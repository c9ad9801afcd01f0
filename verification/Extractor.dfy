/** The manifest extractor of `src/extractor.rs`: a worklist over the references found in stored content. */
module Extractor {
  import opened Types
  import opened StateMachine

  datatype Result<+T> = Ok(value: T) | Err

  datatype Extraction = Extraction(digest: Digest, contentType: string, size: Option<nat>)

  /**
    What the extractor reads: the blob tree, the repository pushed to, the content types it has
    schemas for, and the references in each blob file it is able to read.
   */
  datatype Env = Env(blobs: Tree, repository: Name, schemas: set<string>, files: map<Digest, set<Extraction>>) {
    predicate Analysed(d: Digest) {
      d in blobs && blobs[d].contentType.Some?
    }

    /** The extraction does not stop the push. */
    predicate Acceptable(e: Extraction) {
      && e.digest in blobs
      && (Analysed(e.digest) ||
          (&& repository in blobs[e.digest].repositories
           && (e.size.Some? ==> e.size == blobs[e.digest].size)
           && (e.contentType in schemas ==> e.digest in files)))
    }

    /** The references that visiting `e` adds to the worklist. */
    function Children(e: Extraction): set<Extraction> {
      if e.contentType in schemas && e.digest in files then files[e.digest] else {}
    }

    /** Extraction goes through blobs that are present and not analysed yet. */
    ghost predicate IsTrail(p: seq<Extraction>) {
      p != [] && forall i | 0 <= i < |p| - 1 :: Follows(p, i)
    }

    predicate Follows(p: seq<Extraction>, i: nat)
      requires i + 1 < |p|
    {
      p[i].digest in blobs && !Analysed(p[i].digest) && p[i + 1] in Children(p[i])
    }

    ghost predicate IsTrailTo(roots: set<Extraction>, e: Extraction, p: seq<Extraction>) {
      IsTrail(p) && p[0] in roots && p[|p| - 1] == e
    }

    /** `e` is referred to, directly or through content not analysed yet, by a manifest with references `roots`. */
    ghost predicate Refers(roots: set<Extraction>, e: Extraction) {
      exists p :: IsTrailTo(roots, e, p)
    }

    /** All references to one digest agree on its type and size. */
    ghost predicate Agree(roots: set<Extraction>) {
      forall e, f | Refers(roots, e) && Refers(roots, f) && e.digest == f.digest :: e == f
    }
  }

  function Digests(es: set<Extraction>): set<Digest> {
    set e | e in es :: e.digest
  }

  function SetOf(ds: seq<Digest>): set<Digest> {
    set d | d in ds
  }

  /** The analysis of a manifest: its own info first, then one info per blob visited. */
  ghost predicate IsAnalysis(env: Env, roots: set<Extraction>, now: int, digest: Digest, contentType: string,
                             acts: seq<Action>) {
    && acts != []
    && acts[0].ManifestInfo? && acts[0].digest == digest
    && acts[0].contentType == contentType && acts[0].timestamp == now
    && SetOf(acts[0].dependencies) == Digests(roots)
    && (forall i | 0 < i < |acts| :: acts[i].BlobInfo? && acts[i].timestamp == now)
    // each visited blob is present, unanalysed, mounted where the push goes, and read as one of its references says
    && (forall i | 0 < i < |acts| :: Justified(env, roots, acts[i]))
    // at most one info per blob
    && (forall i, j | 0 < i < j < |acts| :: DifferentInfos(acts, i, j))
    // an info is only written for a dependency of an info before it
    && (forall i {:trigger Introduced(acts, i)} | 0 < i < |acts| :: Introduced(acts, i))
    // every dependency is present, and either has its own info or was analysed before
    && (forall i, d | 0 <= i < |acts| && d in InfoDeps(acts[i]) :: Covered(env, acts, d))
  }

  function InfoDeps(a: Action): seq<Digest> {
    if a.ManifestInfo? || a.BlobInfo? then a.dependencies else []
  }

  ghost predicate Justified(env: Env, roots: set<Extraction>, a: Action) {
    && a.BlobInfo? && a.digest in env.blobs && !env.Analysed(a.digest)
    && env.repository in env.blobs[a.digest].repositories
    && exists e :: JustifiedBy(env, roots, a, e)
  }

  ghost predicate JustifiedBy(env: Env, roots: set<Extraction>, a: Action, e: Extraction) {
    && a.BlobInfo? && e.digest == a.digest && e.contentType == a.contentType
    && env.Refers(roots, e) && env.Acceptable(e)
    && SetOf(a.dependencies) == Digests(env.Children(e))
  }

  ghost predicate Introduced(acts: seq<Action>, i: nat)
    requires i < |acts|
  {
    acts[i].BlobInfo? && exists j | 0 <= j < i :: acts[i].digest in InfoDeps(acts[j])
  }

  ghost predicate HasInfo(acts: seq<Action>, d: Digest) {
    exists i | 0 < i < |acts| :: acts[i].BlobInfo? && acts[i].digest == d
  }

  ghost predicate Covered(env: Env, acts: seq<Action>, d: Digest) {
    d in env.blobs && (env.Analysed(d) || HasInfo(acts, d))
  }

  lemma RootRefers(env: Env, roots: set<Extraction>, e: Extraction)
    requires e in roots
    ensures env.Refers(roots, e)
  {
    assert env.IsTrailTo(roots, e, [e]);
  }

  lemma ChildRefers(env: Env, roots: set<Extraction>, e: Extraction, f: Extraction)
    requires env.Refers(roots, e) && e.digest in env.blobs && !env.Analysed(e.digest) && f in env.Children(e)
    ensures env.Refers(roots, f)
  {
    var p :| env.IsTrailTo(roots, e, p);
    var q := p + [f];
    forall i | 0 <= i < |q| - 1
      ensures env.Follows(q, i)
    {
      assert i < |p| - 1 ==> env.Follows(p, i);
    }
    assert env.IsTrailTo(roots, f, q);
  }

  /** Any enumeration of a set of extractions, as its digests. */
  method DigestList(es: set<Extraction>) returns (ds: seq<Digest>)
    ensures SetOf(ds) == Digests(es)
  {
    ds := [];
    var rest := es;
    while rest != {}
      invariant rest <= es
      invariant forall d | d in ds :: d in Digests(es)
      invariant forall e | e in es && e !in rest :: e.digest in ds
    {
      var e :| e in rest;
      ds := ds + [e.digest];
      rest := rest - {e};
    }
  }

  ghost predicate Mentioned(acts: seq<Action>, d: Digest) {
    exists j | 0 <= j < |acts| :: d in InfoDeps(acts[j])
  }

  /** `src[i]` is the reference that led to `acts[i + 1]`. */
  ghost predicate Written(env: Env, roots: set<Extraction>, acts: seq<Action>, src: seq<Extraction>) {
    && |acts| == |src| + 1
    && acts[0].ManifestInfo? && SetOf(acts[0].dependencies) == Digests(roots)
    && (forall i | 0 < i < |acts| :: InfoOf(env, roots, acts, src, i))
  }

  ghost predicate InfoOf(env: Env, roots: set<Extraction>, acts: seq<Action>, src: seq<Extraction>, i: nat)
    requires 0 < i < |acts| == |src| + 1
  {
    && JustifiedBy(env, roots, acts[i], src[i - 1]) && Justified(env, roots, acts[i])
    && Introduced(acts, i)
  }

  /** `seen` holds the digests written about, each once. */
  ghost predicate Tracks(acts: seq<Action>, now: int, seen: set<Digest>) {
    && (forall i | 0 < i < |acts| :: SeenInfo(acts, now, seen, i))
    && (forall d {:trigger HasInfo(acts, d)} | d in seen :: HasInfo(acts, d))
    && (forall i, j | 0 < i < j < |acts| :: DifferentInfos(acts, i, j))
  }

  predicate SeenInfo(acts: seq<Action>, now: int, seen: set<Digest>, i: nat)
    requires i < |acts|
  {
    acts[i].BlobInfo? && acts[i].timestamp == now && acts[i].digest in seen
  }

  predicate DifferentInfos(acts: seq<Action>, i: nat, j: nat)
    requires i < |acts| && j < |acts|
  {
    acts[i].BlobInfo? && acts[j].BlobInfo? && acts[i].digest != acts[j].digest
  }

  /** `met` holds every reference met so far. */
  ghost predicate Frontier(env: Env, roots: set<Extraction>, acts: seq<Action>, src: seq<Extraction>,
                           met: set<Extraction>) {
    && roots <= met
    && (forall e {:trigger env.Children(e)} | e in src :: env.Children(e) <= met)
    && (forall e {:trigger env.Refers(roots, e)} | e in met :: env.Refers(roots, e))
    && (forall e {:trigger Mentioned(acts, e.digest)} | e in met :: Mentioned(acts, e.digest))
  }

  /** A reference met and no longer on the worklist needs nothing more. */
  ghost predicate Settles(env: Env, seen: set<Digest>, met: set<Extraction>, todo: set<Extraction>) {
    forall e {:trigger Dealt(env, seen, e)} | e in met && e !in todo :: Dealt(env, seen, e)
  }

  lemma SettlesStill(env: Env, seen: set<Digest>, met: set<Extraction>, todo: set<Extraction>, e: Extraction,
                     seen': set<Digest>, met': set<Extraction>, todo': set<Extraction>)
    requires Settles(env, seen, met, todo) && seen <= seen'
    requires todo - {e} <= todo' && met' <= met + todo'
    requires Dealt(env, seen', e)
    ensures Settles(env, seen', met', todo')
  {
    forall f | f in met' && f !in todo'
      ensures Dealt(env, seen', f)
    {
      if f != e {
        assert f !in todo - {e};
        assert Dealt(env, seen, f);
      }
    }
  }

  predicate Dealt(env: Env, seen: set<Digest>, e: Extraction) {
    e.digest in env.blobs && (env.Analysed(e.digest) || e.digest in seen)
  }

  lemma Start(env: Env, roots: set<Extraction>, a: Action)
    requires a.ManifestInfo? && SetOf(a.dependencies) == Digests(roots)
    ensures Written(env, roots, [a], []) && Tracks([a], a.timestamp, {}) && Frontier(env, roots, [a], [], roots)
  {
    forall e | e in roots
      ensures env.Refers(roots, e) && Mentioned([a], e.digest)
    {
      RootRefers(env, roots, e);
      assert e.digest in SetOf(a.dependencies) && [a][0] == a;
    }
  }

  lemma EmitWritten(env: Env, roots: set<Extraction>, acts: seq<Action>, src: seq<Extraction>,
                    e: Extraction, a: Action)
    requires Written(env, roots, acts, src) && Mentioned(acts, e.digest)
    requires JustifiedBy(env, roots, a, e) && !env.Analysed(e.digest)
    ensures Written(env, roots, acts + [a], src + [e])
  {
    var acts', src' := acts + [a], src + [e];
    forall i | 0 < i < |acts'|
      ensures InfoOf(env, roots, acts', src', i)
    {
      if i < |acts| {
        assert acts'[i] == acts[i] && src'[i - 1] == src[i - 1];
        assert InfoOf(env, roots, acts, src, i);
      }
      var j :| 0 <= j < i && j < |acts| && acts'[i].digest in InfoDeps(acts[j]);
      assert acts'[j] == acts[j];
    }
  }

  lemma EmitTracks(acts: seq<Action>, now: int, seen: set<Digest>, a: Action)
    requires acts != [] && Tracks(acts, now, seen) && a.BlobInfo? && a.timestamp == now && a.digest !in seen
    ensures Tracks(acts + [a], now, seen + {a.digest})
  {
    var acts' := acts + [a];
    forall i | 0 < i < |acts'|
      ensures SeenInfo(acts', now, seen + {a.digest}, i)
    {
      assert i < |acts| ==> SeenInfo(acts, now, seen, i);
    }
    forall d | d in seen + {a.digest}
      ensures HasInfo(acts', d)
    {
      if d == a.digest {
        assert acts'[|acts|] == a;
      } else {
        assert HasInfo(acts, d);
        var i :| 0 < i < |acts| && acts[i].BlobInfo? && acts[i].digest == d;
        assert acts'[i] == acts[i];
      }
    }
    forall i, j | 0 < i < j < |acts'|
      ensures DifferentInfos(acts', i, j)
    {
      assert SeenInfo(acts, now, seen, i);
      assert j < |acts| ==> DifferentInfos(acts, i, j);
    }
  }

  lemma MentionedStill(acts: seq<Action>, a: Action, d: Digest)
    requires Mentioned(acts, d)
    ensures Mentioned(acts + [a], d)
  {
    var j :| 0 <= j < |acts| && d in InfoDeps(acts[j]);
    assert (acts + [a])[j] == acts[j];
  }

  lemma MentionedLast(acts: seq<Action>, a: Action, d: Digest)
    requires d in InfoDeps(a)
    ensures Mentioned(acts + [a], d)
  {
    assert (acts + [a])[|acts|] == a;
  }

  lemma EmitFrontierAt(env: Env, roots: set<Extraction>, acts: seq<Action>, src: seq<Extraction>,
                       met: set<Extraction>, e: Extraction, a: Action, f: Extraction)
    requires Frontier(env, roots, acts, src, met) && e in met && f in met + env.Children(e)
    requires JustifiedBy(env, roots, a, e) && !env.Analysed(e.digest)
    ensures env.Refers(roots, f) && Mentioned(acts + [a], f.digest)
  {
    if f in met {
      MentionedStill(acts, a, f.digest);
    } else {
      ChildRefers(env, roots, e, f);
      assert f.digest in SetOf(a.dependencies);
      MentionedLast(acts, a, f.digest);
    }
  }

  lemma EmitFrontier(env: Env, roots: set<Extraction>, acts: seq<Action>, src: seq<Extraction>,
                     met: set<Extraction>, e: Extraction, a: Action)
    requires Frontier(env, roots, acts, src, met) && e in met
    requires JustifiedBy(env, roots, a, e) && !env.Analysed(e.digest)
    ensures Frontier(env, roots, acts + [a], src + [e], met + env.Children(e))
  {
    forall f | f in met + env.Children(e) {
      EmitFrontierAt(env, roots, acts, src, met, e, a, f);
    }
  }

  lemma FewerLeft(all: set<Digest>, small: set<Digest>, large: set<Digest>)
    requires small < large <= all
    ensures all - large < all - small
  {
    var d :| d in large && d !in small;
    assert d in all - small && d !in all - large;
  }

  lemma Finish(env: Env, roots: set<Extraction>, acts: seq<Action>, src: seq<Extraction>,
               now: int, seen: set<Digest>, met: set<Extraction>, digest: Digest, contentType: string)
    requires Written(env, roots, acts, src) && Tracks(acts, now, seen) && Frontier(env, roots, acts, src, met)
    requires Settles(env, seen, met, {})
    requires acts[0].digest == digest && acts[0].contentType == contentType && acts[0].timestamp == now
    ensures IsAnalysis(env, roots, now, digest, contentType, acts)
  {
    forall i | 0 < i < |acts|
      ensures Justified(env, roots, acts[i]) && Introduced(acts, i) && acts[i].BlobInfo? && acts[i].timestamp == now
    {
      assert InfoOf(env, roots, acts, src, i) && SeenInfo(acts, now, seen, i);
    }
    forall i, d | 0 <= i < |acts| && d in InfoDeps(acts[i])
      ensures Covered(env, acts, d)
    {
      var refs := roots;
      if i > 0 {
        refs := env.Children(src[i - 1]);
        assert src[i - 1] in src;
        assert InfoOf(env, roots, acts, src, i);
      }
      assert SetOf(acts[i].dependencies) == Digests(refs);
      assert d in SetOf(acts[i].dependencies);
      var e :| e in refs && e.digest == d;
      assert e in met && Dealt(env, seen, e);
      assert d in seen ==> HasInfo(acts, d);
    }
  }

  /** Visiting one reference: `None` stops the push, otherwise at most one info and its references. */
  method Visit(env: Env, now: int, extraction: Extraction, seen: set<Digest>)
    returns (r: Result<Option<Action>>, found: set<Extraction>)
    requires seen <= env.blobs.Keys
    ensures r.Err? ==> !env.Acceptable(extraction) && Faulty(env, extraction)
    ensures r.Ok? && r.value.Some? ==> ReadFor(env, r.value.value, extraction)
    // in the terms of the tree, the schemas and the files
    ensures r.Err? <==>
            && extraction.digest !in seen
            && (extraction.digest in env.blobs ==>
                  var blob := env.blobs[extraction.digest];
                  && blob.contentType.None?
                  && (|| env.repository !in blob.repositories
                      || (extraction.size.Some? && extraction.size != blob.size)
                      || (extraction.contentType in env.schemas && extraction.digest !in env.files)))
    ensures r.Ok? && r.value.Some? && extraction.contentType in env.schemas ==> found == env.files[extraction.digest]
    ensures r.Ok? && (r.value.Some? ==> extraction.contentType !in env.schemas) ==> found == {}
    ensures r.Ok? && r.value.None? ==> Dealt(env, seen, extraction) && found == {}
    ensures r.Ok? && r.value.Some? ==>
              && extraction.digest !in seen && !env.Analysed(extraction.digest) && env.Acceptable(extraction)
              && r.value.value.BlobInfo? && r.value.value.timestamp == now
              && r.value.value.digest == extraction.digest && r.value.value.contentType == extraction.contentType
              && SetOf(r.value.value.dependencies) == Digests(found) && found == env.Children(extraction)
  {
    found := {};
    if extraction.digest in seen {
      return Ok(None), {};
    }
    if extraction.digest !in env.blobs {
      return Err, {};
    }
    var blob := env.blobs[extraction.digest];
    if blob.contentType.Some? {
      // analysed by an earlier push
      return Ok(None), {};
    }
    if env.repository !in blob.repositories {
      return Err, {};
    }
    if extraction.size.Some? && extraction.size != blob.size {
      return Err, {};
    }
    if extraction.contentType in env.schemas {
      if extraction.digest !in env.files {
        return Err, {};
      }
      found := env.files[extraction.digest];
    }
    var dependencies := DigestList(found);
    ListedAre(dependencies, found);
    return Ok(Some(BlobInfo(now, extraction.digest, dependencies, extraction.contentType))), found;
  }

  /** Why a reference stops the push, in the terms of the tree, the schemas and the files. */
  ghost predicate Faulty(env: Env, e: Extraction) {
    || e.digest !in env.blobs
    || (&& env.blobs[e.digest].contentType.None?
        && (|| env.repository !in env.blobs[e.digest].repositories
            || (e.size.Some? && e.size != env.blobs[e.digest].size)
            || (e.contentType in env.schemas && e.digest !in env.files)))
  }

  /** What reference `e` must be for info `a` to have been written for it. */
  ghost predicate ReadFor(env: Env, a: Action, e: Extraction) {
    && a.BlobInfo? && a.digest == e.digest && a.contentType == e.contentType
    && e.digest in env.blobs && env.blobs[e.digest].contentType.None?
    && env.repository in env.blobs[e.digest].repositories
    && (e.size.Some? ==> e.size == env.blobs[e.digest].size)
    && (if e.contentType in env.schemas
        then e.digest in env.files
             && forall d :: d in a.dependencies <==> exists f :: f in env.files[e.digest] && f.digest == d
        else a.dependencies == [])
  }

  lemma ListedAre(ds: seq<Digest>, es: set<Extraction>)
    requires SetOf(ds) == Digests(es)
    ensures forall d :: d in ds <==> exists f :: f in es && f.digest == d
    ensures es == {} ==> ds == []
  {
    forall d
      ensures d in ds <==> exists f :: f in es && f.digest == d
    {
      assert d in SetOf(ds) <==> d in Digests(es);
    }
    NoneListed(ds);
  }

  ghost predicate Backed(env: Env, roots: set<Extraction>, a: Action) {
    exists e :: env.Refers(roots, e) && ReadFor(env, a, e)
  }

  /** Each blob gets one info at most, and every dependency is there and analysed, before or now. */
  ghost predicate Covers(blobs: Tree, acts: seq<Action>) {
    && (forall i, j | 0 < i < j < |acts| ::
          acts[i].BlobInfo? && acts[j].BlobInfo? && acts[i].digest != acts[j].digest)
    && (forall i, d | 0 <= i < |acts| && (acts[i].ManifestInfo? || acts[i].BlobInfo?) && d in acts[i].dependencies ::
          && d in blobs
          && (blobs[d].contentType.Some? || exists j :: 0 < j < |acts| && acts[j].BlobInfo? && acts[j].digest == d))
  }

  lemma NoneListed(ds: seq<Digest>)
    ensures SetOf(ds) == {} <==> ds == []
  {
    assert |ds| > 0 ==> ds[0] in SetOf(ds);
  }

  lemma UnacceptableIsFaulty(env: Env, e: Extraction)
    ensures env.Acceptable(e) <==> !Faulty(env, e)
  {
  }

  /** Every info of an analysis was written for a reference that is what the tree and the files say. */
  lemma AnalysisIsRead(env: Env, roots: set<Extraction>, now: int, digest: Digest, contentType: string,
                       acts: seq<Action>)
    requires IsAnalysis(env, roots, now, digest, contentType, acts)
    ensures forall d :: d in acts[0].dependencies <==> exists f :: f in roots && f.digest == d
    ensures forall i | 0 < i < |acts| :: Backed(env, roots, acts[i])
    ensures Covers(env.blobs, acts)
  {
    ListedAre(acts[0].dependencies, roots);
    AnalysisCovers(env, roots, now, digest, contentType, acts);
    forall i | 0 < i < |acts|
      ensures Backed(env, roots, acts[i])
    {
      assert Justified(env, roots, acts[i]);
      var e :| JustifiedBy(env, roots, acts[i], e);
      InfoIsRead(env, roots, acts[i], e);
    }
  }

  lemma AnalysisCovers(env: Env, roots: set<Extraction>, now: int, digest: Digest, contentType: string,
                       acts: seq<Action>)
    requires IsAnalysis(env, roots, now, digest, contentType, acts)
    ensures Covers(env.blobs, acts)
  {
    forall i, j | 0 < i < j < |acts|
      ensures acts[i].BlobInfo? && acts[j].BlobInfo? && acts[i].digest != acts[j].digest
    {
      assert DifferentInfos(acts, i, j);
    }
    forall i, d | 0 <= i < |acts| && (acts[i].ManifestInfo? || acts[i].BlobInfo?) && d in acts[i].dependencies
      ensures d in env.blobs
      ensures env.blobs[d].contentType.Some? || exists j :: 0 < j < |acts| && acts[j].BlobInfo? && acts[j].digest == d
    {
      assert d in InfoDeps(acts[i]);
      assert Covered(env, acts, d);
    }
  }

  lemma InfoIsRead(env: Env, roots: set<Extraction>, a: Action, e: Extraction)
    requires JustifiedBy(env, roots, a, e) && Justified(env, roots, a)
    ensures ReadFor(env, a, e)
  {
    ListedAre(a.dependencies, env.Children(e));
  }

  /** `refs` holds the references of the manifest, and with one of an unanalysed blob those in its content. */
  ghost predicate ClosedUnderReferences(env: Env, roots: set<Extraction>, refs: set<Extraction>) {
    && (forall e | e in roots :: e in refs)
    && (forall e, f | e in refs && e.digest in env.blobs && env.blobs[e.digest].contentType.None?
                      && e.contentType in env.schemas && e.digest in env.files && f in env.files[e.digest] :: f in refs)
  }

  /** What is referred to is in every such set. */
  lemma ReferredIsLeast(env: Env, roots: set<Extraction>, refs: set<Extraction>, e: Extraction)
    requires ClosedUnderReferences(env, roots, refs) && env.Refers(roots, e)
    ensures e in refs
  {
    var p :| env.IsTrailTo(roots, e, p);
    TrailStaysIn(env, roots, refs, p);
  }

  lemma {:induction false} TrailStaysIn(env: Env, roots: set<Extraction>, refs: set<Extraction>, p: seq<Extraction>)
    requires ClosedUnderReferences(env, roots, refs) && env.IsTrail(p) && p[0] in roots
    ensures p[|p| - 1] in refs
  {
    if |p| > 1 {
      var q := p[..|p| - 1];
      forall i | 0 <= i < |q| - 1
        ensures env.Follows(q, i)
      {
        assert env.Follows(p, i);
      }
      TrailStaysIn(env, roots, refs, q);
      assert env.Follows(p, |p| - 2);
    }
  }

  /** The loop invariant of the extractor, with `todo` still on the worklist. */
  ghost predicate Progress(env: Env, roots: set<Extraction>, now: int, acts: seq<Action>, src: seq<Extraction>,
                           seen: set<Digest>, met: set<Extraction>, todo: set<Extraction>) {
    && Written(env, roots, acts, src) && Tracks(acts, now, seen) && Frontier(env, roots, acts, src, met)
    && Settles(env, seen, met, todo) && todo <= met && seen <= env.blobs.Keys
  }

  lemma Emit(env: Env, roots: set<Extraction>, now: int, acts: seq<Action>, src: seq<Extraction>, seen: set<Digest>,
             met: set<Extraction>, todo: set<Extraction>, e: Extraction, a: Action, todo': set<Extraction>)
    requires Progress(env, roots, now, acts, src, seen, met, todo) && e in todo
    requires a.BlobInfo? && a.timestamp == now && a.digest == e.digest && a.contentType == e.contentType
    requires SetOf(a.dependencies) == Digests(env.Children(e))
    requires e.digest !in seen && !env.Analysed(e.digest) && env.Acceptable(e)
    requires todo - {e} + env.Children(e) <= todo' <= todo + env.Children(e)
    ensures Progress(env, roots, now, acts + [a], src + [e], seen + {e.digest}, met + env.Children(e), todo')
  {
    assert JustifiedBy(env, roots, a, e);
    EmitWritten(env, roots, acts, src, e, a);
    EmitTracks(acts, now, seen, a);
    EmitFrontier(env, roots, acts, src, met, e, a);
    SettlesStill(env, seen, met, todo, e, seen + {e.digest}, met + env.Children(e), todo');
  }

  /** One pass over a drained worklist, in any order; the references it finds are collected in `pending`. */
  method Drain(env: Env, now: int, analysis0: seq<Action>, seen0: set<Digest>, drain0: set<Extraction>,
               ghost roots: set<Extraction>, ghost src0: seq<Extraction>, ghost met0: set<Extraction>)
    returns (ok: bool, analysis: seq<Action>, seen: set<Digest>, pending: set<Extraction>,
             ghost src: seq<Extraction>, ghost met: set<Extraction>)
    requires Progress(env, roots, now, analysis0, src0, seen0, met0, drain0)
    ensures !ok ==> exists e :: env.Refers(roots, e) && !env.Acceptable(e)
    ensures ok ==> Progress(env, roots, now, analysis, src, seen, met, pending)
    ensures ok ==> analysis[0] == analysis0[0] && seen0 <= seen && (seen == seen0 ==> pending == {})
  {
    ok, analysis, seen, pending := true, analysis0, seen0, {};
    src, met := src0, met0;
    var drain := drain0;
    assert pending + drain == drain;
    while drain != {}
      invariant Progress(env, roots, now, analysis, src, seen, met, pending + drain)
      invariant analysis[0] == analysis0[0] && seen0 <= seen && (seen == seen0 ==> pending == {})
      decreases drain
    {
      var extraction :| extraction in drain;
      ghost var todo := pending + drain;
      drain := drain - {extraction};
      var visit, found := Visit(env, now, extraction, seen);
      if visit.Err? {
        ok := false;
        return;
      }
      if visit.value.Some? {
        var info := visit.value.value;
        pending := pending + found;
        Emit(env, roots, now, analysis, src, seen, met, todo, extraction, info, pending + drain);
        analysis := analysis + [info];
        src, met := src + [extraction], met + env.Children(extraction);
        seen := seen + {extraction.digest};
      } else {
        SettlesStill(env, seen, met, todo, extraction, seen, met, pending + drain);
      }
    }
    assert pending + drain == pending;
  }

  /**
    `data` is the set of references in the uploaded manifest, or `None` if it could not be read or
    failed validation. References are taken from the worklist in any order.
   */
  method Extract(env: Env, now: int, digest: Digest, contentType: string, data: Option<set<Extraction>>)
    returns (r: Result<seq<Action>>)
    ensures r.Ok? ==> data.Some? && IsAnalysis(env, data.value, now, digest, contentType, r.value)
    ensures r.Err? ==> data.None? || exists e :: env.Refers(data.value, e) && !env.Acceptable(e)
    ensures r.Err? ==> data.None? || exists e :: env.Refers(data.value, e) && Faulty(env, e)
    ensures r.Ok? ==> forall i | 0 < i < |r.value| :: Backed(env, data.value, r.value[i])
    ensures r.Ok? ==> Covers(env.blobs, r.value)
  {
    if data.None? {
      return Err;
    }
    var roots := data.value;
    var dependencies := DigestList(roots);
    var analysis := [ManifestInfo(now, digest, dependencies, contentType)];
    var pending: set<Extraction> := roots;
    var seen: set<Digest> := {};
    ghost var src: seq<Extraction>, met := [], roots;
    Start(env, roots, analysis[0]);
    while pending != {}
      invariant Progress(env, roots, now, analysis, src, seen, met, pending)
      invariant analysis[0] == ManifestInfo(now, digest, dependencies, contentType)
      decreases env.blobs.Keys - seen, pending != {}
    {
      var ok, analysis', seen', pending';
      ghost var src', met';
      ok, analysis', seen', pending', src', met' := Drain(env, now, analysis, seen, pending, roots, src, met);
      if !ok {
        return Err;
      }
      if seen' != seen {
        FewerLeft(env.blobs.Keys, seen, seen');
      }
      analysis, seen, pending, src, met := analysis', seen', pending', src', met';
    }
    Finish(env, roots, analysis, src, now, seen, met, digest, contentType);
    AnalysisIsRead(env, roots, now, digest, contentType, analysis);
    return Ok(analysis);
  }

  /** When references agree, everything referred to was visited, through that very reference. */
  lemma {:induction false} TrailCovered(env: Env, roots: set<Extraction>, now: int, digest: Digest, contentType: string,
                                        acts: seq<Action>, p: seq<Extraction>)
    requires IsAnalysis(env, roots, now, digest, contentType, acts) && env.Agree(roots)
    requires env.IsTrail(p) && p[0] in roots
    ensures Covered(env, acts, p[|p| - 1].digest)
  {
    var e := p[|p| - 1];
    if |p| == 1 {
      assert e.digest in Digests(roots);
      assert e.digest in InfoDeps(acts[0]);
    } else {
      var q := p[..|p| - 1];
      var f := q[|q| - 1];
      assert env.Follows(p, |p| - 2);
      forall i | 0 <= i < |q| - 1
        ensures env.Follows(q, i)
      {
        assert env.Follows(p, i);
      }
      TrailCovered(env, roots, now, digest, contentType, acts, q);
      var i :| 0 < i < |acts| && acts[i].BlobInfo? && acts[i].digest == f.digest;
      assert Justified(env, roots, acts[i]);
      var g :| JustifiedBy(env, roots, acts[i], g);
      assert env.IsTrailTo(roots, f, q);
      assert g == f && e in env.Children(f);
      assert e.digest in SetOf(acts[i].dependencies);
      assert e.digest in InfoDeps(acts[i]);
    }
  }

  /**
    When references agree, the outcome does not depend on the order they are visited in: an analysis
    exists only if everything referred to is acceptable, and the blobs it covers are exactly those
    referred to and not analysed before.
   */
  lemma OrderDoesNotMatter(env: Env, roots: set<Extraction>, now: int, digest: Digest, contentType: string,
                           acts: seq<Action>)
    requires IsAnalysis(env, roots, now, digest, contentType, acts) && env.Agree(roots)
    ensures forall e | env.Refers(roots, e) :: env.Acceptable(e)
    ensures forall d :: HasInfo(acts, d) <==>
              exists e :: env.Refers(roots, e) && e.digest == d && !env.Analysed(d)
  {
    forall e | env.Refers(roots, e)
      ensures env.Acceptable(e) && (env.Analysed(e.digest) || HasInfo(acts, e.digest))
    {
      var p :| env.IsTrailTo(roots, e, p);
      TrailCovered(env, roots, now, digest, contentType, acts, p);
      if !env.Analysed(e.digest) {
        var i :| 0 < i < |acts| && acts[i].BlobInfo? && acts[i].digest == e.digest;
        assert Justified(env, roots, acts[i]);
        var g :| JustifiedBy(env, roots, acts[i], g);
        assert g == e;
      }
    }
    forall d | HasInfo(acts, d)
      ensures exists e :: env.Refers(roots, e) && e.digest == d && !env.Analysed(d)
    {
      var i :| 0 < i < |acts| && acts[i].BlobInfo? && acts[i].digest == d;
      assert Justified(env, roots, acts[i]);
      var g :| JustifiedBy(env, roots, acts[i], g);
      assert env.Refers(roots, g) && g.digest == d;
    }
  }
}
