/** The transaction a manifest push submits (`src/registry/manifests/put.rs`) and what it does to the state. */
module Push {
  import opened Types
  import opened StateMachine
  import opened History
  import opened Replication
  import opened Graph
  import opened GarbageSafety
  import opened Extractor
  import opened Store
  import opened Files

  /** The parameters of one push request at one node. */
  datatype Request = Request(
    now: int, node: NodeId, user: string, repository: Name, tag: Name,
    digest: Digest, contentType: string, size: nat)

  function PushActions(q: Request, extracted: seq<Action>): seq<Action> {
    PushHead(q) + extracted + [TagAction(q)]
  }

  /** The part of a push transaction that the extractor wrote. */
  function Extracted(acts: seq<Action>): seq<Action>
    requires |acts| >= 4
  {
    acts[3..|acts| - 1]
  }

  /** `acts` are the transaction of a push whose content has the references `data`. */
  ghost predicate IsPush(env: Env, q: Request, data: Option<set<Extraction>>, acts: seq<Action>) {
    && data.Some? && |acts| > 4
    && IsAnalysis(env, data.value, q.now, q.digest, q.contentType, Extracted(acts))
    && acts == PushActions(q, Extracted(acts))
  }

  ghost predicate Refused(env: Env, data: Option<set<Extraction>>) {
    data.None? || exists e :: env.Refers(data.value, e) && Faulty(env, e)
  }

  /** Extract from the local state, then assemble the transaction. */
  method Assemble(env: Env, q: Request, data: Option<set<Extraction>>) returns (r: Result<seq<Action>>)
    ensures r.Ok? ==> IsPush(env, q, data, r.value)
    ensures r.Ok? ==> forall i | 4 <= i < |r.value| - 1 :: Backed(env, data.value, r.value[i])
    ensures r.Err? ==> Refused(env, data)
  {
    var actions := [ManifestMounted(q.now, q.digest, q.repository, q.user),
                    ManifestStored(q.now, q.digest, q.node, q.user),
                    ManifestStat(q.now, q.digest, q.size)];
    var extraction := Extract(env, q.now, q.digest, q.contentType, data);
    if extraction.Err? {
      return Err;
    }
    actions := actions + extraction.value;
    actions := actions + [HashTagged(q.now, q.digest, q.repository, q.tag, q.user)];
    assert Extracted(actions) == extraction.value;
    assert forall i | 4 <= i < |actions| - 1 :: actions[i] == extraction.value[i - 3];
    return Ok(actions);
  }

  /**
    The handler: assemble the transaction, move the uploaded manifest to its place, and submit.
    `committed` is what the cluster answers.
   */
  method PutManifest(store: RegistryStore, disk: FileStore, q: Request, schemas: set<string>,
                     files: map<Digest, set<Extraction>>, data: Option<set<Extraction>>, upload: Bytes, committed: bool)
    returns (r: Outcome<Result<seq<Action>>>)
    modifies disk
    ensures var env := Env(store.blobs, q.repository, schemas, files);
            var before, after := old(disk.Contents()), disk.Contents();
            var placing := PlacingOf(before, disk.root, ManifestKind, q.digest);
            && (r.Panic? ==> placing.NoPath? && after == before)
            && (r.Done? && r.value.Ok? ==>
                  && IsPush(env, q, data, r.value.value) && placing.Moved? && committed
                  && after == AfterPlacing(before, disk.root, ManifestKind, q.digest, upload))
            && (r.Done? && r.value.Err? ==>
                  || (Refused(env, data) && after == before)
                  || ((placing.NotMoved? || (placing.Moved? && !committed)) &&
                      after == AfterPlacing(before, disk.root, ManifestKind, q.digest, upload)))
  {
    var actions := Assemble(Env(store.blobs, q.repository, schemas, files), q, data);
    if actions.Err? {
      return Done(Err);
    }
    var placing := PlaceContent(disk, ManifestKind, q.digest, upload);
    match placing {
      case NoPath =>
        return Panic;
      case NotMoved =>
        return Done(Err);
      case Moved =>
        return Done(if committed then Ok(actions.value) else Err);
    }
  }

  /** Every dependency of every manifest and every blob is present. */
  ghost predicate DependenciesPresent(s: Trees) {
    && (forall m | m in s.manifests :: Deps(s.manifests[m]) <= s.blobs.Keys)
    && (forall d | d in s.blobs :: Deps(s.blobs[d]) <= s.blobs.Keys)
  }

  ghost predicate CompleteFrom(blobs: Tree, roots: set<Digest>) {
    forall d | Reaches(blobs, roots, d) :: d in blobs
  }

  lemma PushChangesBlob(env: Env, roots: set<Extraction>, q: Request, ex: seq<Action>, d: Digest)
    requires IsAnalysis(env, roots, q.now, q.digest, q.contentType, ex)
    ensures !HasInfo(ex, d) ==> Changes(PushActions(q, ex), BlobKind, d) == []
    ensures forall i | 0 < i < |ex| && ex[i].digest == d ::
              Changes(PushActions(q, ex), BlobKind, d) == [Info(q.now, ex[i].dependencies, ex[i].contentType)]
  {
    var acts := PushActions(q, ex);
    forall j | 0 <= j < |acts| && !(3 < j < 3 + |ex| && ex[j - 3].digest == d)
      ensures TargetsOther(acts[j], BlobKind, d)
    {
      assert 3 <= j < 3 + |ex| ==> acts[j] == ex[j - 3];
    }
    if !HasInfo(ex, d) {
      ChangesNone(acts, BlobKind, d);
    }
    forall i | 0 < i < |ex| && ex[i].digest == d
      ensures Changes(acts, BlobKind, d) == [Info(q.now, ex[i].dependencies, ex[i].contentType)]
    {
      forall j | 0 < j < |ex| && j != i
        ensures ex[j].digest != d
      {
        assert DifferentInfos(ex, if i < j then i else j, if i < j then j else i);
      }
      assert acts[3 + i] == ex[i];
      ChangesOne(acts, 3 + i, BlobKind, d, Info(q.now, ex[i].dependencies, ex[i].contentType));
    }
  }

  function PushHead(q: Request): seq<Action> {
    [ManifestMounted(q.now, q.digest, q.repository, q.user),
     ManifestStored(q.now, q.digest, q.node, q.user),
     ManifestStat(q.now, q.digest, q.size)]
  }

  lemma HeadChanges(q: Request)
    ensures Changes(PushHead(q), ManifestKind, q.digest) ==
            [Mounted(q.now, q.repository), Stored(q.now, q.node), Stat(q.now, q.size)]
  {
    var h := PushHead(q);
    assert h == [h[0]] + [h[1]] + [h[2]];
    ChangesAppend([h[0]], [h[1]], ManifestKind, q.digest);
    ChangesAppend([h[0]] + [h[1]], [h[2]], ManifestKind, q.digest);
    assert [h[0]][..0] == [] && [h[1]][..0] == [] && [h[2]][..0] == [];
  }

  function TagAction(q: Request): Action {
    HashTagged(q.now, q.digest, q.repository, q.tag, q.user)
  }

  lemma AnalysisChangesManifest(env: Env, roots: set<Extraction>, q: Request, ex: seq<Action>, m: Digest)
    requires IsAnalysis(env, roots, q.now, q.digest, q.contentType, ex)
    ensures Changes(ex, ManifestKind, m) ==
            if m == q.digest then [Info(q.now, ex[0].dependencies, q.contentType)] else []
  {
    forall j | 0 < j < |ex|
      ensures TargetsOther(ex[j], ManifestKind, m)
    {
    }
    if m == q.digest {
      ChangesOne(ex, 0, ManifestKind, m, Info(q.now, ex[0].dependencies, q.contentType));
    } else {
      ChangesNone(ex, ManifestKind, m);
    }
  }

  lemma PushChangesManifest(env: Env, roots: set<Extraction>, q: Request, ex: seq<Action>, m: Digest)
    requires IsAnalysis(env, roots, q.now, q.digest, q.contentType, ex)
    ensures Changes(PushActions(q, ex), ManifestKind, m) ==
            if m == q.digest
            then [Mounted(q.now, q.repository), Stored(q.now, q.node), Stat(q.now, q.size),
                  Info(q.now, ex[0].dependencies, q.contentType)]
            else []
  {
    AnalysisChangesManifest(env, roots, q, ex, m);
    PushChangesSplit(q, ex, m);
  }

  lemma PushChangesSplit(q: Request, ex: seq<Action>, m: Digest)
    ensures Changes(PushActions(q, ex), ManifestKind, m) ==
            (if m == q.digest then [Mounted(q.now, q.repository), Stored(q.now, q.node), Stat(q.now, q.size)] else [])
            + Changes(ex, ManifestKind, m)
  {
    ChangesAppend(PushHead(q) + ex, [TagAction(q)], ManifestKind, m);
    ChangesAppend(PushHead(q), ex, ManifestKind, m);
    ChangesNone([TagAction(q)], ManifestKind, m);
    if m == q.digest {
      HeadChanges(q);
    } else {
      ChangesNone(PushHead(q), ManifestKind, m);
    }
  }

  lemma PushTags(env: Env, roots: set<Extraction>, q: Request, ex: seq<Action>, key: TagKey)
    requires IsAnalysis(env, roots, q.now, q.digest, q.contentType, ex)
    ensures LastTag(PushActions(q, ex), key) ==
            (if key == TagKey(q.repository, q.tag) then Some(q.digest) else None)
  {
    var acts := PushActions(q, ex);
    var init := acts[..|acts| - 1];
    forall j | 0 <= j < |init|
      ensures !TargetOf(init[j]).Tagging?
    {
      assert 3 <= j ==> init[j] == ex[j - 3];
    }
    NoTagging(init, key);
  }

  /** The pushed record: mounted, stored here, sized and analysed, whatever was there before. */
  function PushedRecord(o: Option<Record>, q: Request, dependencies: seq<Digest>): Record {
    var base := if o.Some? then o.value else FreshRecord(q.now);
    base.(updated := q.now,
          repositories := base.repositories + {q.repository},
          locations := base.locations + {q.node},
          size := Some(q.size),
          dependencies := Some(dependencies),
          contentType := Some(q.contentType))
  }

  function AnalysedRecord(r: Record, info: Action): Record
    requires info.BlobInfo?
  {
    r.(updated := info.timestamp, dependencies := Some(info.dependencies), contentType := Some(info.contentType))
  }

  lemma PushFold(o: Option<Record>, q: Request, ds: seq<Digest>)
    ensures Fold(o, [Mounted(q.now, q.repository), Stored(q.now, q.node), Stat(q.now, q.size),
                     Info(q.now, ds, q.contentType)])
            == Done(Some(PushedRecord(o, q, ds)))
  {
    var cs :=
      [Mounted(q.now, q.repository), Stored(q.now, q.node), Stat(q.now, q.size), Info(q.now, ds, q.contentType)];
    var base := if o.Some? then o.value else FreshRecord(q.now);
    var r := base.(updated := q.now, repositories := base.repositories + {q.repository});
    assert cs[..3][..2] == cs[..2] && cs[..2][..1] == cs[..1] && cs[..1][..0] == [];
    assert Fold(o, cs[..1]) == Done(Some(r));
    r := r.(locations := base.locations + {q.node});
    assert Fold(o, cs[..2]) == Done(Some(r));
    r := r.(size := Some(q.size));
    assert Fold(o, cs[..3]) == Done(Some(r));
    assert cs[..4] == cs;
  }

  lemma PushBlobFolds(s: Trees, env: Env, roots: set<Extraction>, q: Request, ex: seq<Action>, d: Digest)
    requires IsAnalysis(env, roots, q.now, q.digest, q.contentType, ex)
    ensures Fold(s.Get(BlobKind, d), Changes(PushActions(q, ex), BlobKind, d)).Done?
  {
    PushChangesBlob(env, roots, q, ex, d);
    if HasInfo(ex, d) {
      var i :| 0 < i < |ex| && ex[i].digest == d;
      FoldOne(s.Get(BlobKind, d), Info(q.now, ex[i].dependencies, ex[i].contentType));
    }
  }

  lemma PushNeverPanics(s: Trees, env: Env, roots: set<Extraction>, q: Request, ex: seq<Action>)
    requires IsAnalysis(env, roots, q.now, q.digest, q.contentType, ex) && env.blobs == s.blobs
    ensures Run(s, PushActions(q, ex)).Done?
  {
    var acts := PushActions(q, ex);
    forall k: Kind, d
      ensures Fold(s.Get(k, d), Changes(acts, k, d)).Done?
    {
      if k.BlobKind? {
        PushBlobFolds(s, env, roots, q, ex, d);
      } else {
        PushChangesManifest(env, roots, q, ex, d);
        PushFold(s.Get(k, d), q, ex[0].dependencies);
      }
    }
    RunPanicsIff(s, acts);
  }

  lemma PushTagTree(s: Trees, env: Env, roots: set<Extraction>, q: Request, ex: seq<Action>)
    requires IsAnalysis(env, roots, q.now, q.digest, q.contentType, ex) && Run(s, PushActions(q, ex)).Done?
    ensures Run(s, PushActions(q, ex)).value.tags == s.tags[TagKey(q.repository, q.tag) := q.digest]
  {
    var acts := PushActions(q, ex);
    var t, want := Run(s, acts).value, s.tags[TagKey(q.repository, q.tag) := q.digest];
    forall key
      ensures key in t.tags <==> key in want
      ensures key in want ==> t.tags[key] == want[key]
    {
      PushTags(env, roots, q, ex, key);
      RunTags(s, acts, key);
      assert t.Tag(key) == if key in want then Some(want[key]) else None;
    }
  }

  lemma PushManifests(s: Trees, env: Env, roots: set<Extraction>, q: Request, ex: seq<Action>)
    requires IsAnalysis(env, roots, q.now, q.digest, q.contentType, ex)
    requires Run(s, PushActions(q, ex)).Done?
    ensures Run(s, PushActions(q, ex)).value.manifests ==
            s.manifests[q.digest := PushedRecord(s.Get(ManifestKind, q.digest), q, ex[0].dependencies)]
  {
    var acts := PushActions(q, ex);
    var t := Run(s, acts).value;
    var want := s.manifests[q.digest := PushedRecord(s.Get(ManifestKind, q.digest), q, ex[0].dependencies)];
    forall m
      ensures m in t.manifests <==> m in want
      ensures m in want ==> t.manifests[m] == want[m]
    {
      PushChangesManifest(env, roots, q, ex, m);
      PushFold(s.Get(ManifestKind, m), q, ex[0].dependencies);
      RunProjects(s, acts, ManifestKind, m);
      assert t.Get(ManifestKind, m) == if m in want then Some(want[m]) else None;
    }
  }

  lemma PushBlobAt(s: Trees, env: Env, roots: set<Extraction>, q: Request, ex: seq<Action>, d: Digest)
    requires IsAnalysis(env, roots, q.now, q.digest, q.contentType, ex) && env.blobs == s.blobs
    requires Run(s, PushActions(q, ex)).Done?
    ensures var o := Run(s, PushActions(q, ex)).value.Get(BlobKind, d);
            && (!HasInfo(ex, d) ==> o == s.Get(BlobKind, d))
            && (forall i | 0 < i < |ex| && ex[i].digest == d ::
                  d in s.blobs && o == Some(AnalysedRecord(s.blobs[d], ex[i])))
  {
    PushChangesBlob(env, roots, q, ex, d);
    RunProjects(s, PushActions(q, ex), BlobKind, d);
    forall i | 0 < i < |ex| && ex[i].digest == d {
      PushBlobInfo(s, env, roots, q, ex, i);
    }
  }

  lemma PushBlobInfo(s: Trees, env: Env, roots: set<Extraction>, q: Request, ex: seq<Action>, i: nat)
    requires IsAnalysis(env, roots, q.now, q.digest, q.contentType, ex) && env.blobs == s.blobs
    requires Run(s, PushActions(q, ex)).Done? && 0 < i < |ex|
    ensures ex[i].BlobInfo? && ex[i].digest in s.blobs
    ensures Run(s, PushActions(q, ex)).value.Get(BlobKind, ex[i].digest) ==
            Some(AnalysedRecord(s.blobs[ex[i].digest], ex[i]))
  {
    var d := ex[i].digest;
    assert Justified(env, roots, ex[i]);
    PushChangesBlob(env, roots, q, ex, d);
    RunProjects(s, PushActions(q, ex), BlobKind, d);
    FoldOne(s.Get(BlobKind, d), Info(q.now, ex[i].dependencies, ex[i].contentType));
  }

  lemma PushBlobs(s: Trees, env: Env, roots: set<Extraction>, q: Request, ex: seq<Action>)
    requires IsAnalysis(env, roots, q.now, q.digest, q.contentType, ex) && env.blobs == s.blobs
    requires Run(s, PushActions(q, ex)).Done?
    ensures var t := Run(s, PushActions(q, ex)).value;
            && t.blobs.Keys == s.blobs.Keys
            && (forall d | d in s.blobs && !HasInfo(ex, d) :: t.blobs[d] == s.blobs[d])
            && (forall i | 0 < i < |ex| :: t.blobs[ex[i].digest] == AnalysedRecord(s.blobs[ex[i].digest], ex[i]))
  {
    var t := Run(s, PushActions(q, ex)).value;
    forall d
      ensures d in t.blobs <==> d in s.blobs
      ensures d in s.blobs && !HasInfo(ex, d) ==> t.blobs[d] == s.blobs[d]
    {
      PushBlobAt(s, env, roots, q, ex, d);
    }
    forall i | 0 < i < |ex|
      ensures t.blobs[ex[i].digest] == AnalysedRecord(s.blobs[ex[i].digest], ex[i])
    {
      PushBlobAt(s, env, roots, q, ex, ex[i].digest);
    }
  }

  /** The exact state after a push that was extracted from the state it is applied to; it never panics. */
  lemma PushEffect(s: Trees, env: Env, roots: set<Extraction>, q: Request, ex: seq<Action>)
    requires IsAnalysis(env, roots, q.now, q.digest, q.contentType, ex) && env.blobs == s.blobs
    ensures Run(s, PushActions(q, ex)).Done?
    ensures var t := Run(s, PushActions(q, ex)).value;
            && t.manifests
               == s.manifests[q.digest := PushedRecord(s.Get(ManifestKind, q.digest), q, ex[0].dependencies)]
            && t.tags == s.tags[TagKey(q.repository, q.tag) := q.digest]
            && t.blobs.Keys == s.blobs.Keys
            && (forall d | d in s.blobs && !HasInfo(ex, d) :: t.blobs[d] == s.blobs[d])
            && (forall i | 0 < i < |ex| :: t.blobs[ex[i].digest] == AnalysedRecord(s.blobs[ex[i].digest], ex[i]))
  {
    PushNeverPanics(s, env, roots, q, ex);
    PushManifests(s, env, roots, q, ex);
    PushBlobs(s, env, roots, q, ex);
    PushTagTree(s, env, roots, q, ex);
  }

  /** The same, field by field: the manifest's record, the tag, and the blobs that were read. */
  lemma PushMeans(s: Trees, env: Env, roots: set<Extraction>, q: Request, ex: seq<Action>, t: Trees)
    requires IsAnalysis(env, roots, q.now, q.digest, q.contentType, ex) && env.blobs == s.blobs
    requires Run(s, PushActions(q, ex)) == Done(t)
    ensures q.digest in t.manifests
    ensures var r := t.manifests[q.digest];
            && r.updated == q.now && r.size == Some(q.size) && r.contentType == Some(q.contentType)
            && r.dependencies.Some?
            && (forall d :: d in r.dependencies.value <==> exists f :: f in roots && f.digest == d)
            && q.repository in r.repositories && q.node in r.locations
            && (q.digest !in s.manifests ==>
                  r.created == q.now && r.repositories == {q.repository} && r.locations == {q.node})
            && (q.digest in s.manifests ==>
                  && r.created == s.manifests[q.digest].created
                  && r.repositories == s.manifests[q.digest].repositories + {q.repository}
                  && r.locations == s.manifests[q.digest].locations + {q.node})
    ensures t.tags == s.tags[TagKey(q.repository, q.tag) := q.digest]
    ensures forall i | 0 < i < |ex| ::
              && ex[i].BlobInfo? && ex[i].digest in s.blobs && ex[i].digest in t.blobs
              && t.blobs[ex[i].digest] == s.blobs[ex[i].digest].(updated := q.now,
                                                                 dependencies := Some(ex[i].dependencies),
                                                                 contentType := Some(ex[i].contentType))
  {
    PushEffect(s, env, roots, q, ex);
    AnalysisIsRead(env, roots, q.now, q.digest, q.contentType, ex);
    forall i | 0 < i < |ex|
      ensures ex[i].BlobInfo? && ex[i].digest in s.blobs
    {
      assert Justified(env, roots, ex[i]);
    }
  }

  /** The dependencies a push leaves on blob `d`: those of its info if it got one, the old ones otherwise. */
  lemma PushedDeps(s: Trees, env: Env, roots: set<Extraction>, q: Request, ex: seq<Action>, t: Trees, d: Digest)
    requires IsAnalysis(env, roots, q.now, q.digest, q.contentType, ex) && env.blobs == s.blobs
    requires Run(s, PushActions(q, ex)) == Done(t) && d in t.blobs
    ensures d in s.blobs && !HasInfo(ex, d) ==> Deps(t.blobs[d]) == Deps(s.blobs[d])
    ensures HasInfo(ex, d) ==> forall e | e in Deps(t.blobs[d]) :: Mentioned(ex, e) && e in s.blobs
  {
    PushEffect(s, env, roots, q, ex);
    if HasInfo(ex, d) {
      var i :| 0 < i < |ex| && ex[i].BlobInfo? && ex[i].digest == d;
      assert Deps(t.blobs[d]) == SetOf(ex[i].dependencies);
      forall e | e in Deps(t.blobs[d])
        ensures Mentioned(ex, e) && e in s.blobs
      {
        assert e in InfoDeps(ex[i]);
        assert Covered(env, ex, e);
      }
    }
  }

  /**
    A push applied to the state it was extracted from: the tag resolves to the manifest, no dependency
    anywhere is missing afterwards, and neither the manifest nor a blob it reaches is an orphan.
   */
  lemma PushIsSafe(s: Trees, env: Env, roots: set<Extraction>, q: Request, ex: seq<Action>, t: Trees)
    requires IsAnalysis(env, roots, q.now, q.digest, q.contentType, ex) && env.blobs == s.blobs
    requires Run(s, PushActions(q, ex)) == Done(t)
    requires DependenciesPresent(s)
    ensures t.Tag(TagKey(q.repository, q.tag)) == Some(q.digest) && q.digest in t.manifests
    ensures DependenciesPresent(t)
    ensures q.digest !in Orphans(t, ManifestKind)
    ensures forall d | Reaches(t.blobs, Deps(t.manifests[q.digest]), d) :: d in t.blobs && d !in Orphans(t, BlobKind)
  {
    PushEffect(s, env, roots, q, ex);
    forall m | m in t.manifests
      ensures Deps(t.manifests[m]) <= t.blobs.Keys
    {
      forall e | e in Deps(t.manifests[m]) && m == q.digest
        ensures e in t.blobs
      {
        assert e in InfoDeps(ex[0]);
        assert Covered(env, ex, e);
      }
    }
    forall d | d in t.blobs
      ensures Deps(t.blobs[d]) <= t.blobs.Keys
    {
      PushedDeps(s, env, roots, q, ex, t, d);
    }
    assert t.tags[TagKey(q.repository, q.tag)] in t.tags.Values;
    ClosedHoldsReached(t.blobs, Deps(t.manifests[q.digest]), t.blobs.Keys);
    forall d | Reaches(t.blobs, Deps(t.manifests[q.digest]), d)
      ensures d !in Orphans(t, BlobKind)
    {
      ReachesMonotone(t.blobs, t.blobs, Deps(t.manifests[q.digest]), Roots(t.manifests), d);
    }
  }

  /** From push to pull: however much garbage is collected afterwards, the tag still finds the whole image. */
  lemma PushedImageSurvivesGc(s: Trees, env: Env, roots: set<Extraction>, q: Request, ex: seq<Action>,
                              h: seq<Trees>, i: nat)
    requires IsAnalysis(env, roots, q.now, q.digest, q.contentType, ex) && env.blobs == s.blobs
    requires DependenciesPresent(s) && GcRun(h) && i < |h|
    requires Run(s, PushActions(q, ex)) == Done(h[0])
    ensures h[i].Tag(TagKey(q.repository, q.tag)) == Some(q.digest)
    ensures h[i].Get(ManifestKind, q.digest) ==
            Some(PushedRecord(s.Get(ManifestKind, q.digest), q, ex[0].dependencies))
    ensures q.digest in h[0].manifests
    ensures forall d | Reaches(h[0].blobs, Deps(h[0].manifests[q.digest]), d) ::
              h[i].Get(BlobKind, d).Some? && h[i].Get(BlobKind, d) == h[0].Get(BlobKind, d)
  {
    PushEffect(s, env, roots, q, ex);
    PushIsSafe(s, env, roots, q, ex, h[0]);
    TaggedManifestsKept(h, i, q.digest);
    assert q.digest in h[i].manifests;
    SurvivingImagesKept(h, i, q.digest);
  }

  /** A dependency at which extraction stopped because an earlier push had analysed it. */
  ghost predicate StoppedAt(env: Env, ex: seq<Action>, d: Digest) {
    env.Analysed(d) && Mentioned(ex, d)
  }

  /** Everything an info was written for is reachable from the pushed manifest. */
  lemma InfosReached(s: Trees, env: Env, roots: set<Extraction>, q: Request, ex: seq<Action>, t: Trees, i: nat,
                     d: Digest)
    requires IsAnalysis(env, roots, q.now, q.digest, q.contentType, ex) && env.blobs == s.blobs
    requires Run(s, PushActions(q, ex)) == Done(t) && q.digest in t.manifests
    requires i < |ex| && d in InfoDeps(ex[i])
    ensures Reaches(t.blobs, Deps(t.manifests[q.digest]), d)
    decreases i
  {
    PushEffect(s, env, roots, q, ex);
    if i == 0 {
      RootReached(t.blobs, Deps(t.manifests[q.digest]), d);
    } else {
      assert Introduced(ex, i);
      var j :| 0 <= j < i && ex[i].digest in InfoDeps(ex[j]);
      InfosReached(s, env, roots, q, ex, t, j, ex[i].digest);
      StepReached(t.blobs, Deps(t.manifests[q.digest]), ex[i].digest, d);
    }
  }

  ghost predicate BeyondStop(s: Trees, env: Env, ex: seq<Action>, x: Digest, d: Digest) {
    StoppedAt(env, ex, x) && x in s.blobs && Reaches(s.blobs, Deps(s.blobs[x]), d)
  }

  /** Named by the analysis, or beyond a stop. */
  ghost predicate Explained(s: Trees, env: Env, ex: seq<Action>, d: Digest) {
    Mentioned(ex, d) || exists x :: BeyondStop(s, env, ex, x, d)
  }

  lemma ExplainedStep(s: Trees, env: Env, roots: set<Extraction>, q: Request, ex: seq<Action>, t: Trees,
                      c: Digest, d: Digest)
    requires IsAnalysis(env, roots, q.now, q.digest, q.contentType, ex) && env.blobs == s.blobs
    requires Run(s, PushActions(q, ex)) == Done(t) && t.blobs.Keys == s.blobs.Keys
    requires Explained(s, env, ex, c) && c in t.blobs && d in Deps(t.blobs[c])
    ensures Explained(s, env, ex, d)
  {
    PushedDeps(s, env, roots, q, ex, t, c);
    if !HasInfo(ex, c) {
      if x :| BeyondStop(s, env, ex, x, c) {
        StepReached(s.blobs, Deps(s.blobs[x]), c, d);
        assert BeyondStop(s, env, ex, x, d);
      } else {
        var i :| 0 <= i < |ex| && c in InfoDeps(ex[i]);
        assert Covered(env, ex, c);
        RootReached(s.blobs, Deps(s.blobs[c]), d);
        assert BeyondStop(s, env, ex, c, d);
      }
    }
  }

  /** Along any path from the pushed manifest every digest is explained. */
  lemma {:induction false} PushedPath(s: Trees, env: Env, roots: set<Extraction>, q: Request, ex: seq<Action>, t: Trees,
                                      p: seq<Digest>)
    requires IsAnalysis(env, roots, q.now, q.digest, q.contentType, ex) && env.blobs == s.blobs
    requires Run(s, PushActions(q, ex)) == Done(t) && t.blobs.Keys == s.blobs.Keys
    requires IsPath(t.blobs, p) && p[0] in SetOf(ex[0].dependencies)
    ensures Explained(s, env, ex, p[|p| - 1])
  {
    if |p| == 1 {
      assert p[0] in InfoDeps(ex[0]);
    } else {
      PathPrefix(t.blobs, p, |p| - 1);
      PushedPath(s, env, roots, q, ex, t, p[..|p| - 1]);
      assert Linked(t.blobs, p, |p| - 2);
      ExplainedStep(s, env, roots, q, ex, t, p[|p| - 2], p[|p| - 1]);
    }
  }

  /**
    A pushed image is complete if and only if each blob that an earlier push had analysed, and where
    extraction therefore stopped, still had everything below it. Nothing in the push checks that, and
    garbage collection may take a child of an analysed blob that is orphaned at the time.
   */
  lemma PushCompleteIff(s: Trees, env: Env, roots: set<Extraction>, q: Request, ex: seq<Action>, t: Trees)
    requires IsAnalysis(env, roots, q.now, q.digest, q.contentType, ex) && env.blobs == s.blobs
    requires Run(s, PushActions(q, ex)) == Done(t)
    requires AllAnalysedIfDependent(s)
    ensures q.digest in t.manifests
    ensures CompleteFrom(t.blobs, Deps(t.manifests[q.digest])) <==>
            forall x | StoppedAt(env, ex, x) :: CompleteFrom(s.blobs, Deps(s.blobs[x]))
  {
    PushEffect(s, env, roots, q, ex);
    if forall x | StoppedAt(env, ex, x) :: CompleteFrom(s.blobs, Deps(s.blobs[x])) {
      forall d | Reaches(t.blobs, Deps(t.manifests[q.digest]), d)
        ensures d in t.blobs
      {
        var p :| IsPathTo(t.blobs, Deps(t.manifests[q.digest]), d, p);
        PushedPath(s, env, roots, q, ex, t, p);
        if Mentioned(ex, d) {
          var i :| 0 <= i < |ex| && d in InfoDeps(ex[i]);
          assert Covered(env, ex, d);
        }
      }
    }
    if CompleteFrom(t.blobs, Deps(t.manifests[q.digest])) {
      forall x, d | StoppedAt(env, ex, x) && Reaches(s.blobs, Deps(s.blobs[x]), d)
        ensures d in s.blobs
      {
        BeyondStopReached(s, env, roots, q, ex, t, x, d);
      }
    }
  }

  lemma BeyondStopReached(s: Trees, env: Env, roots: set<Extraction>, q: Request, ex: seq<Action>, t: Trees,
                          x: Digest, d: Digest)
    requires IsAnalysis(env, roots, q.now, q.digest, q.contentType, ex) && env.blobs == s.blobs
    requires Run(s, PushActions(q, ex)) == Done(t) && q.digest in t.manifests
    requires AllAnalysedIfDependent(s) && BeyondStop(s, env, ex, x, d)
    ensures Reaches(t.blobs, Deps(t.manifests[q.digest]), d)
  {
    PushEffect(s, env, roots, q, ex);
    var roots' := Deps(t.manifests[q.digest]);
    var i :| 0 <= i < |ex| && x in InfoDeps(ex[i]);
    InfosReached(s, env, roots, q, ex, t, i, x);
    forall y | y in s.blobs
      ensures Deps(s.blobs[y]) <= Deps(t.blobs[y])
    {
      assert y in s.Of(BlobKind);
      if HasInfo(ex, y) {
        var j :| 0 < j < |ex| && ex[j].BlobInfo? && ex[j].digest == y;
        assert Justified(env, roots, ex[j]);
      }
    }
    var p :| IsPathTo(s.blobs, Deps(s.blobs[x]), d, p);
    StepReached(t.blobs, roots', x, p[0]);
    PathElsewhere(s.blobs, t.blobs, p);
    FollowPath(t.blobs, roots', p);
  }

  /** When references agree, extraction stops at exactly the analysed blobs that the content refers to. */
  lemma StopsAre(env: Env, roots: set<Extraction>, q: Request, ex: seq<Action>, x: Digest)
    requires IsAnalysis(env, roots, q.now, q.digest, q.contentType, ex) && env.Agree(roots)
    ensures StoppedAt(env, ex, x) <==> env.Analysed(x) && exists e :: env.Refers(roots, e) && e.digest == x
  {
    if Mentioned(ex, x) {
      var j :| 0 <= j < |ex| && x in InfoDeps(ex[j]);
      MentionIsReferred(env, roots, q, ex, j, x);
    }
    if e :| env.Refers(roots, e) && e.digest == x {
      ReferredIsMentioned(env, roots, q, ex, e);
    }
  }

  lemma MentionIsReferred(env: Env, roots: set<Extraction>, q: Request, ex: seq<Action>, j: nat, x: Digest)
    requires IsAnalysis(env, roots, q.now, q.digest, q.contentType, ex) && j < |ex| && x in InfoDeps(ex[j])
    ensures exists e :: env.Refers(roots, e) && e.digest == x
  {
    assert x in SetOf(ex[j].dependencies);
    if j == 0 {
      var e :| e in roots && e.digest == x;
      RootRefers(env, roots, e);
    } else {
      assert Justified(env, roots, ex[j]);
      var g :| JustifiedBy(env, roots, ex[j], g);
      var e :| e in env.Children(g) && e.digest == x;
      ChildRefers(env, roots, g, e);
    }
  }

  lemma ReferredIsMentioned(env: Env, roots: set<Extraction>, q: Request, ex: seq<Action>, e: Extraction)
    requires IsAnalysis(env, roots, q.now, q.digest, q.contentType, ex) && env.Agree(roots) && env.Refers(roots, e)
    ensures Mentioned(ex, e.digest)
  {
    var p: seq<Extraction> :| env.IsTrailTo(roots, e, p);
    if |p| == 1 {
      assert e.digest in Digests(roots);
      assert e.digest in InfoDeps(ex[0]);
    } else {
      var f: Extraction := p[|p| - 2];
      TrailPrefix(env, roots, p);
      assert env.Follows(p, |p| - 2);
      OrderDoesNotMatter(env, roots, q.now, q.digest, q.contentType, ex);
      assert HasInfo(ex, f.digest);
      var i :| 0 < i < |ex| && ex[i].BlobInfo? && ex[i].digest == f.digest;
      assert Justified(env, roots, ex[i]);
      var g :| JustifiedBy(env, roots, ex[i], g);
      assert g == f;
      assert e.digest in SetOf(ex[i].dependencies);
      assert e.digest in InfoDeps(ex[i]);
    }
  }

  /** The references on the way are referred to as well. */
  lemma TrailPrefix(env: Env, roots: set<Extraction>, p: seq<Extraction>)
    requires env.IsTrail(p) && p[0] in roots && |p| > 1
    ensures env.Refers(roots, p[|p| - 2])
  {
    var q := p[..|p| - 1];
    forall i | 0 <= i < |q| - 1
      ensures env.Follows(q, i)
    {
      assert env.Follows(p, i);
    }
    assert env.IsTrailTo(roots, p[|p| - 2], q);
  }

  /**
    The same condition over what is there before the push, when references agree: a pushed image is complete
    if and only if everything below each analysed blob that the content refers to is present.
   */
  lemma PushCompleteBeforehandIff(s: Trees, env: Env, roots: set<Extraction>, q: Request, ex: seq<Action>, t: Trees)
    requires IsAnalysis(env, roots, q.now, q.digest, q.contentType, ex) && env.blobs == s.blobs && env.Agree(roots)
    requires Run(s, PushActions(q, ex)) == Done(t)
    requires AllAnalysedIfDependent(s)
    ensures q.digest in t.manifests
    ensures CompleteFrom(t.blobs, Deps(t.manifests[q.digest])) <==>
            forall e | env.Refers(roots, e) && env.Analysed(e.digest) :: CompleteFrom(s.blobs, Deps(s.blobs[e.digest]))
  {
    PushCompleteIff(s, env, roots, q, ex, t);
    forall x {
      StopsAre(env, roots, q, ex, x);
    }
  }

  /** Everything at the end of a dependency path is present and mounted in repository `r`, so that a pull finds it. */
  ghost predicate PullableFrom(blobs: Tree, roots: set<Digest>, r: Name) {
    forall d | Reaches(blobs, roots, d) :: d in blobs && r in blobs[d].repositories
  }

  lemma PushKeepsMounts(s: Trees, env: Env, roots: set<Extraction>, q: Request, ex: seq<Action>, t: Trees, d: Digest)
    requires IsAnalysis(env, roots, q.now, q.digest, q.contentType, ex) && env.blobs == s.blobs
    requires Run(s, PushActions(q, ex)) == Done(t)
    ensures d in t.blobs <==> d in s.blobs
    ensures d in t.blobs ==> t.blobs[d].repositories == s.blobs[d].repositories
  {
    PushEffect(s, env, roots, q, ex);
    if d in t.blobs && HasInfo(ex, d) {
      var i :| 0 < i < |ex| && ex[i].BlobInfo? && ex[i].digest == d;
      assert t.blobs[ex[i].digest] == AnalysedRecord(s.blobs[ex[i].digest], ex[i]);
    }
  }

  /** What the analysis explains is mounted where the push goes, if what it stopped at and everything below is. */
  lemma ExplainedIsMounted(s: Trees, env: Env, roots: set<Extraction>, q: Request, ex: seq<Action>, d: Digest)
    requires IsAnalysis(env, roots, q.now, q.digest, q.contentType, ex) && env.blobs == s.blobs
    requires forall x | StoppedAt(env, ex, x) ::
               env.repository in s.blobs[x].repositories && PullableFrom(s.blobs, Deps(s.blobs[x]), env.repository)
    requires Explained(s, env, ex, d)
    ensures d in s.blobs && env.repository in s.blobs[d].repositories
  {
    if x :| BeyondStop(s, env, ex, x, d) {
    } else {
      var i :| 0 <= i < |ex| && d in InfoDeps(ex[i]);
      assert Covered(env, ex, d);
      if env.Analysed(d) {
        assert StoppedAt(env, ex, d);
      } else {
        var j :| 0 < j < |ex| && ex[j].BlobInfo? && ex[j].digest == d;
        assert Justified(env, roots, ex[j]);
      }
    }
  }

  /**
    A pushed image can be pulled from its repository if and only if each blob where extraction stopped, and
    everything below it, can. The extractor does not ask in which repositories such a blob is mounted.
   */
  lemma PushPullableIff(s: Trees, env: Env, roots: set<Extraction>, q: Request, ex: seq<Action>, t: Trees)
    requires IsAnalysis(env, roots, q.now, q.digest, q.contentType, ex) && env.blobs == s.blobs
    requires env.repository == q.repository && Run(s, PushActions(q, ex)) == Done(t)
    requires AllAnalysedIfDependent(s)
    ensures q.digest in t.manifests
    ensures PullableFrom(t.blobs, Deps(t.manifests[q.digest]), q.repository) <==>
            forall x | StoppedAt(env, ex, x) ::
              q.repository in s.blobs[x].repositories && PullableFrom(s.blobs, Deps(s.blobs[x]), q.repository)
  {
    PushEffect(s, env, roots, q, ex);
    if forall x | StoppedAt(env, ex, x) ::
         q.repository in s.blobs[x].repositories && PullableFrom(s.blobs, Deps(s.blobs[x]), q.repository) {
      forall d | Reaches(t.blobs, Deps(t.manifests[q.digest]), d)
        ensures d in t.blobs && q.repository in t.blobs[d].repositories
      {
        var p :| IsPathTo(t.blobs, Deps(t.manifests[q.digest]), d, p);
        PushedPath(s, env, roots, q, ex, t, p);
        ExplainedIsMounted(s, env, roots, q, ex, d);
        PushKeepsMounts(s, env, roots, q, ex, t, d);
      }
    }
    if PullableFrom(t.blobs, Deps(t.manifests[q.digest]), q.repository) {
      forall x | StoppedAt(env, ex, x)
        ensures q.repository in s.blobs[x].repositories && PullableFrom(s.blobs, Deps(s.blobs[x]), q.repository)
      {
        StopIsPullable(s, env, roots, q, ex, t, x);
      }
    }
  }

  lemma StopIsPullable(s: Trees, env: Env, roots: set<Extraction>, q: Request, ex: seq<Action>, t: Trees, x: Digest)
    requires IsAnalysis(env, roots, q.now, q.digest, q.contentType, ex) && env.blobs == s.blobs
    requires Run(s, PushActions(q, ex)) == Done(t) && q.digest in t.manifests
    requires AllAnalysedIfDependent(s) && StoppedAt(env, ex, x)
    requires PullableFrom(t.blobs, Deps(t.manifests[q.digest]), q.repository)
    ensures q.repository in s.blobs[x].repositories && PullableFrom(s.blobs, Deps(s.blobs[x]), q.repository)
  {
    var i :| 0 <= i < |ex| && x in InfoDeps(ex[i]);
    InfosReached(s, env, roots, q, ex, t, i, x);
    PushKeepsMounts(s, env, roots, q, ex, t, x);
    forall d | Reaches(s.blobs, Deps(s.blobs[x]), d)
      ensures d in s.blobs && q.repository in s.blobs[d].repositories
    {
      BeyondStopReached(s, env, roots, q, ex, t, x, d);
      PushKeepsMounts(s, env, roots, q, ex, t, d);
    }
  }

  /** The same condition over what is there before the push, when references agree. */
  lemma PushPullableBeforehandIff(s: Trees, env: Env, roots: set<Extraction>, q: Request, ex: seq<Action>, t: Trees)
    requires IsAnalysis(env, roots, q.now, q.digest, q.contentType, ex) && env.blobs == s.blobs && env.Agree(roots)
    requires env.repository == q.repository && Run(s, PushActions(q, ex)) == Done(t)
    requires AllAnalysedIfDependent(s)
    ensures q.digest in t.manifests
    ensures PullableFrom(t.blobs, Deps(t.manifests[q.digest]), q.repository) <==>
            forall e | env.Refers(roots, e) && env.Analysed(e.digest) ::
              && q.repository in s.blobs[e.digest].repositories
              && PullableFrom(s.blobs, Deps(s.blobs[e.digest]), q.repository)
  {
    PushPullableIff(s, env, roots, q, ex, t);
    forall x {
      StopsAre(env, roots, q, ex, x);
    }
  }
}
