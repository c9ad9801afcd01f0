/** The metadata state machine of `src/store/mod.rs`: actions folded over three trees. */
module StateMachine {
  import opened Types

  type Tree = map<Digest, Record>

  datatype Kind = BlobKind | ManifestKind

  datatype Trees = Trees(blobs: Tree, manifests: Tree, tags: map<TagKey, Digest>) {
    function Of(k: Kind): Tree {
      match k case BlobKind => blobs case ManifestKind => manifests
    }

    function Get(k: Kind, d: Digest): Option<Record> {
      if d in Of(k) then Some(Of(k)[d]) else None
    }

    function Put(k: Kind, d: Digest, o: Option<Record>): Trees {
      var tree := if o.Some? then Of(k)[d := o.value] else Of(k) - {d};
      match k case BlobKind => this.(blobs := tree) case ManifestKind => this.(manifests := tree)
    }

    function Tag(key: TagKey): Option<Digest> {
      if key in tags then Some(tags[key]) else None
    }
  }

  const EMPTY_TREES := Trees(map[], map[], map[])

  /** What an action does to the one record it names; blobs and manifests behave alike. */
  datatype Change =
    | Stored(time: int, node: NodeId)
    | Unstored(time: int, node: NodeId)
    | Mounted(time: int, repository: Name)
    | Unmounted(time: int, repository: Name)
    | Info(time: int, dependencies: seq<Digest>, contentType: string)
    | Stat(time: int, size: nat)

  datatype Target =
    | Nothing
    | Object(kind: Kind, digest: Digest, change: Change)
    | Tagging(key: TagKey, digest: Digest)

  function TargetOf(a: Action): Target {
    match a
    case Empty => Nothing
    case BlobStored(t, d, n, _) => Object(BlobKind, d, Stored(t, n))
    case BlobUnstored(t, d, n, _) => Object(BlobKind, d, Unstored(t, n))
    case BlobMounted(t, d, r, _) => Object(BlobKind, d, Mounted(t, r))
    case BlobUnmounted(t, d, r, _) => Object(BlobKind, d, Unmounted(t, r))
    case BlobInfo(t, d, ds, c) => Object(BlobKind, d, Info(t, ds, c))
    case BlobStat(t, d, z) => Object(BlobKind, d, Stat(t, z))
    case ManifestStored(t, d, n, _) => Object(ManifestKind, d, Stored(t, n))
    case ManifestUnstored(t, d, n, _) => Object(ManifestKind, d, Unstored(t, n))
    case ManifestMounted(t, d, r, _) => Object(ManifestKind, d, Mounted(t, r))
    case ManifestUnmounted(t, d, r, _) => Object(ManifestKind, d, Unmounted(t, r))
    case ManifestInfo(t, d, ds, c) => Object(ManifestKind, d, Info(t, ds, c))
    case ManifestStat(t, d, z) => Object(ManifestKind, d, Stat(t, z))
    case HashTagged(_, d, r, tag, _) => Tagging(TagKey(r, tag), d)
  }

  function FreshRecord(time: int): Record {
    Record(time, time, None, None, Some([]), {}, {})
  }

  /** The effect of one change on the record it names, `None` standing for an absent digest. */
  function Alter(o: Option<Record>, c: Change): Outcome<Option<Record>> {
    match c
    case Stored(t, n) =>
      if o.None? then Panic
      else Done(Some(o.value.(updated := t, locations := o.value.locations + {n})))
    case Unstored(t, n) =>
      if o.None? || o.value.locations - {n} == {} then Done(None)
      else Done(Some(o.value.(updated := t, locations := o.value.locations - {n})))
    case Mounted(t, r) =>
      var base := if o.None? then FreshRecord(t) else o.value;
      Done(Some(base.(updated := t, repositories := base.repositories + {r})))
    case Unmounted(t, r) =>
      if o.None? then Done(None)
      else Done(Some(o.value.(updated := t, repositories := o.value.repositories - {r})))
    case Info(t, ds, ct) =>
      if o.None? then Done(None)
      else Done(Some(o.value.(updated := t, dependencies := Some(ds), contentType := Some(ct))))
    case Stat(t, z) =>
      if o.None? then Done(None)
      else Done(Some(o.value.(updated := t, size := Some(z))))
  }

  function Step(s: Trees, a: Action): Outcome<Trees> {
    match TargetOf(a)
    case Nothing => Done(s)
    case Tagging(key, d) => Done(s.(tags := s.tags[key := d]))
    case Object(k, d, c) =>
      match Alter(s.Get(k, d), c)
      case Panic => Panic
      case Done(o) => Done(s.Put(k, d, o))
  }

  /** Each of the fourteen actions on the three trees, and the only two that panic. */
  lemma StepMeans(s: Trees, a: Action)
    ensures Step(s, a).Panic? <==>
            (a.BlobStored? && a.digest !in s.blobs) || (a.ManifestStored? && a.digest !in s.manifests)
    ensures Step(s, a).Done? ==>
              var t := Step(s, a).value;
              match a
              case Empty => t == s
              case HashTagged(_, d, repository, tag, _) =>
                t.tags == s.tags[TagKey(repository, tag) := d] && t.blobs == s.blobs && t.manifests == s.manifests
              case BlobStored(time, d, n, _) =>
                t.manifests == s.manifests && t.tags == s.tags && IsStored(s.blobs, t.blobs, time, d, n)
              case ManifestStored(time, d, n, _) =>
                t.blobs == s.blobs && t.tags == s.tags && IsStored(s.manifests, t.manifests, time, d, n)
              case BlobUnstored(time, d, n, _) =>
                t.manifests == s.manifests && t.tags == s.tags && IsUnstored(s.blobs, t.blobs, time, d, n)
              case ManifestUnstored(time, d, n, _) =>
                t.blobs == s.blobs && t.tags == s.tags && IsUnstored(s.manifests, t.manifests, time, d, n)
              case BlobMounted(time, d, r, _) =>
                t.manifests == s.manifests && t.tags == s.tags && IsMounted(s.blobs, t.blobs, time, d, r)
              case ManifestMounted(time, d, r, _) =>
                t.blobs == s.blobs && t.tags == s.tags && IsMounted(s.manifests, t.manifests, time, d, r)
              case BlobUnmounted(time, d, r, _) =>
                t.manifests == s.manifests && t.tags == s.tags && IsUnmounted(s.blobs, t.blobs, time, d, r)
              case ManifestUnmounted(time, d, r, _) =>
                t.blobs == s.blobs && t.tags == s.tags && IsUnmounted(s.manifests, t.manifests, time, d, r)
              case BlobInfo(time, d, ds, ct) =>
                t.manifests == s.manifests && t.tags == s.tags && IsAnalysed(s.blobs, t.blobs, time, d, ds, ct)
              case ManifestInfo(time, d, ds, ct) =>
                t.blobs == s.blobs && t.tags == s.tags && IsAnalysed(s.manifests, t.manifests, time, d, ds, ct)
              case BlobStat(time, d, z) =>
                t.manifests == s.manifests && t.tags == s.tags && IsSized(s.blobs, t.blobs, time, d, z)
              case ManifestStat(time, d, z) =>
                t.blobs == s.blobs && t.tags == s.tags && IsSized(s.manifests, t.manifests, time, d, z)
  {
    PutAbsent(s, TargetOf(a));
    if a.BlobUnstored? && a.digest in s.blobs {
      OtherHolder(s.blobs[a.digest].locations, a.location);
    } else if a.ManifestUnstored? && a.digest in s.manifests {
      OtherHolder(s.manifests[a.digest].locations, a.location);
    }
  }

  lemma OtherHolder(holders: set<NodeId>, n: NodeId)
    ensures holders - {n} != {} <==> exists m :: m in holders && m != n
  {
    if m :| m in holders && m != n {
      assert m in holders - {n};
    }
  }

  lemma PutAbsent(s: Trees, t: Target)
    ensures t.Object? && s.Get(t.kind, t.digest).None? ==> s.Put(t.kind, t.digest, None) == s
  {
    if t.Object? && s.Get(t.kind, t.digest).None? {
      assert s.Of(t.kind) - {t.digest} == s.Of(t.kind);
    }
  }

  /** Every digest but `d` is as it was. */
  ghost predicate OnlyAt(before: Tree, after: Tree, d: Digest) {
    forall e | e != d :: (e in after <==> e in before) && (e in before ==> after[e] == before[e])
  }

  /** What a change leaves alone of a record. */
  ghost predicate KeepsRest(r: Record, r': Record, time: int, mounts: bool, copies: bool, metadata: bool, size: bool) {
    && r'.created == r.created && r'.updated == time
    && (mounts ==> r'.repositories == r.repositories) && (copies ==> r'.locations == r.locations)
    && (metadata ==> r'.dependencies == r.dependencies && r'.contentType == r.contentType)
    && (size ==> r'.size == r.size)
  }

  ghost predicate IsStored(before: Tree, after: Tree, time: int, d: Digest, n: NodeId) {
    && OnlyAt(before, after, d) && d in before && d in after
    && KeepsRest(before[d], after[d], time, true, false, true, true)
    && forall m :: m in after[d].locations <==> m in before[d].locations || m == n
  }

  ghost predicate IsUnstored(before: Tree, after: Tree, time: int, d: Digest, n: NodeId) {
    && OnlyAt(before, after, d)
    && (d in after <==> d in before && exists m :: m in before[d].locations && m != n)
    && (d in after ==>
          && KeepsRest(before[d], after[d], time, true, false, true, true)
          && forall m :: m in after[d].locations <==> m in before[d].locations && m != n)
  }

  ghost predicate IsMounted(before: Tree, after: Tree, time: int, d: Digest, r: Name) {
    && OnlyAt(before, after, d) && d in after
    && (d in before ==>
          && KeepsRest(before[d], after[d], time, false, true, true, true)
          && forall x :: x in after[d].repositories <==> x in before[d].repositories || x == r)
    && (d !in before ==> after[d] == Record(time, time, None, None, Some([]), {}, {r}))
  }

  ghost predicate IsUnmounted(before: Tree, after: Tree, time: int, d: Digest, r: Name) {
    && OnlyAt(before, after, d) && (d in after <==> d in before)
    && (d in before ==>
          && KeepsRest(before[d], after[d], time, false, true, true, true)
          && forall x :: x in after[d].repositories <==> x in before[d].repositories && x != r)
  }

  ghost predicate IsAnalysed(before: Tree, after: Tree, time: int, d: Digest, ds: seq<Digest>, contentType: string) {
    && OnlyAt(before, after, d) && (d in after <==> d in before)
    && (d in before ==>
          && KeepsRest(before[d], after[d], time, true, true, false, true)
          && after[d].dependencies == Some(ds) && after[d].contentType == Some(contentType))
  }

  ghost predicate IsSized(before: Tree, after: Tree, time: int, d: Digest, size: nat) {
    && OnlyAt(before, after, d) && (d in after <==> d in before)
    && (d in before ==> KeepsRest(before[d], after[d], time, true, true, true, false) && after[d].size == Some(size))
  }

  lemma RunOne(s: Trees, acts: seq<Action>, a: Action)
    ensures Run(s, []) == Done(s)
    ensures Run(s, acts + [a]) == if Run(s, acts).Panic? then Panic else Step(Run(s, acts).value, a)
  {
    assert (acts + [a])[..|acts|] == acts;
  }

  /** Applying a list of actions; a panic anywhere aborts the transaction. */
  function Run(s: Trees, acts: seq<Action>): Outcome<Trees> {
    if acts == [] then Done(s)
    else
      match Run(s, acts[..|acts| - 1])
      case Panic => Panic
      case Done(t) => Step(t, acts[|acts| - 1])
  }

  /** The same fold over the changes of a single digest. */
  function Fold(o: Option<Record>, cs: seq<Change>): Outcome<Option<Record>> {
    if cs == [] then Done(o)
    else
      match Fold(o, cs[..|cs| - 1])
      case Panic => Panic
      case Done(p) => Alter(p, cs[|cs| - 1])
  }

  /** The changes an action list makes to digest `d` of kind `k`, in order. */
  function Changes(acts: seq<Action>, k: Kind, d: Digest): seq<Change> {
    if acts == [] then []
    else
      var rest := Changes(acts[..|acts| - 1], k, d);
      var t := TargetOf(acts[|acts| - 1]);
      if t.Object? && t.kind == k && t.digest == d then rest + [t.change] else rest
  }

  /** The digest the last `HashTagged` for `key` names, if there is one. */
  function LastTag(acts: seq<Action>, key: TagKey): Option<Digest> {
    if acts == [] then None
    else
      var t := TargetOf(acts[|acts| - 1]);
      if t.Tagging? && t.key == key then Some(t.digest) else LastTag(acts[..|acts| - 1], key)
  }

  lemma {:induction false} RunAppend(s: Trees, a: seq<Action>, b: seq<Action>)
    ensures Run(s, a + b) == (if Run(s, a).Panic? then Panic else Run(Run(s, a).value, b))
  {
    if b == [] {
      assert a + b == a;
    } else {
      RunAppend(s, a, b[..|b| - 1]);
      assert (a + b)[..|a + b| - 1] == a + b[..|b| - 1];
    }
  }

  lemma {:induction false} FoldAppend(o: Option<Record>, a: seq<Change>, b: seq<Change>)
    ensures Fold(o, a + b) == (if Fold(o, a).Panic? then Panic else Fold(Fold(o, a).value, b))
  {
    if b == [] {
      assert a + b == a;
    } else {
      FoldAppend(o, a, b[..|b| - 1]);
      assert (a + b)[..|a + b| - 1] == a + b[..|b| - 1];
    }
  }

  lemma FoldOne(o: Option<Record>, c: Change)
    ensures Fold(o, [c]) == Alter(o, c)
  {
    assert [c][..0] == [];
  }

  lemma {:induction false} ChangesAppend(a: seq<Action>, b: seq<Action>, k: Kind, d: Digest)
    ensures Changes(a + b, k, d) == Changes(a, k, d) + Changes(b, k, d)
  {
    if b == [] {
      assert a + b == a;
    } else {
      ChangesAppend(a, b[..|b| - 1], k, d);
      assert (a + b)[..|a + b| - 1] == a + b[..|b| - 1];
    }
  }

  lemma PutThenGet(s: Trees, k: Kind, d: Digest, o: Option<Record>, k': Kind, d': Digest)
    ensures s.Put(k, d, o).Get(k', d') == if k == k' && d == d' then o else s.Get(k', d')
  {
  }

  /** A record after a transaction depends only on the actions naming its own digest. */
  lemma {:induction false} RunProjects(s: Trees, acts: seq<Action>, k: Kind, d: Digest)
    requires Run(s, acts).Done?
    ensures Fold(s.Get(k, d), Changes(acts, k, d)) == Done(Run(s, acts).value.Get(k, d))
  {
    if acts != [] {
      var init := acts[..|acts| - 1];
      RunProjects(s, init, k, d);
      var mid, t := Run(s, init).value, TargetOf(acts[|acts| - 1]);
      if t.Object? {
        PutThenGet(mid, t.kind, t.digest, Alter(mid.Get(t.kind, t.digest), t.change).value, k, d);
        if t.kind == k && t.digest == d {
          assert Changes(acts, k, d)[..|Changes(acts, k, d)| - 1] == Changes(init, k, d);
        }
      }
    }
  }

  lemma {:induction false} RunTags(s: Trees, acts: seq<Action>, key: TagKey)
    requires Run(s, acts).Done?
    ensures Run(s, acts).value.Tag(key) ==
            (if LastTag(acts, key).Some? then LastTag(acts, key) else s.Tag(key))
  {
    if acts != [] {
      RunTags(s, acts[..|acts| - 1], key);
    }
  }

  predicate TargetsOther(a: Action, k: Kind, d: Digest) {
    var t := TargetOf(a);
    !(t.Object? && t.kind == k && t.digest == d)
  }

  lemma {:induction false} ChangesNone(acts: seq<Action>, k: Kind, d: Digest)
    requires forall i | 0 <= i < |acts| :: TargetsOther(acts[i], k, d)
    ensures Changes(acts, k, d) == []
  {
    if acts != [] {
      ChangesNone(acts[..|acts| - 1], k, d);
    }
  }

  lemma ChangesOne(acts: seq<Action>, i: nat, k: Kind, d: Digest, c: Change)
    requires i < |acts| && TargetOf(acts[i]) == Object(k, d, c)
    requires forall j | 0 <= j < |acts| && j != i :: TargetsOther(acts[j], k, d)
    ensures Changes(acts, k, d) == [c]
  {
    assert acts == acts[..i] + ([acts[i]] + acts[i + 1..]);
    ChangesAppend(acts[..i], [acts[i]] + acts[i + 1..], k, d);
    ChangesAppend([acts[i]], acts[i + 1..], k, d);
    ChangesNone(acts[..i], k, d);
    ChangesNone(acts[i + 1..], k, d);
    assert Changes([acts[i]], k, d) == [c];
  }

  /** A list without a tagging tags nothing. */
  lemma {:induction false} NoTagging(acts: seq<Action>, key: TagKey)
    requires forall i | 0 <= i < |acts| :: !TargetOf(acts[i]).Tagging?
    ensures LastTag(acts, key) == None
  {
    if acts != [] {
      NoTagging(acts[..|acts| - 1], key);
    }
  }

  /** A transaction panics exactly when the subsequence of some single digest does. */
  lemma {:induction false} RunPanicsIff(s: Trees, acts: seq<Action>)
    ensures Run(s, acts).Panic? <==> exists k, d :: Fold(s.Get(k, d), Changes(acts, k, d)).Panic?
  {
    if acts != [] {
      var init := acts[..|acts| - 1];
      RunPanicsIff(s, init);
      if Run(s, init).Done? {
        var t := TargetOf(acts[|acts| - 1]);
        if t.Object? {
          RunProjects(s, init, t.kind, t.digest);
        }
        forall k, d | !(t.Object? && t.kind == k && t.digest == d)
          ensures Changes(acts, k, d) == Changes(init, k, d)
        {
        }
        if Run(s, acts).Panic? {
          assert Fold(s.Get(t.kind, t.digest), Changes(acts, t.kind, t.digest)).Panic?;
        } else {
          forall k, d
            ensures Fold(s.Get(k, d), Changes(acts, k, d)).Done?
          {
            RunProjects(s, acts, k, d);
          }
        }
      } else {
        var k, d :| Fold(s.Get(k, d), Changes(init, k, d)).Panic?;
        assert Fold(s.Get(k, d), Changes(acts, k, d)).Panic?;
      }
    }
  }

  /** Trees are determined by their point lookups. */
  lemma TreesExtensional(s: Trees, t: Trees)
    requires forall k, d :: s.Get(k, d) == t.Get(k, d)
    requires forall key :: s.Tag(key) == t.Tag(key)
    ensures s == t
  {
    forall d
      ensures d in s.blobs <==> d in t.blobs
      ensures d in s.blobs ==> s.blobs[d] == t.blobs[d]
    {
      assert s.Get(BlobKind, d) == t.Get(BlobKind, d);
    }
    forall d
      ensures d in s.manifests <==> d in t.manifests
      ensures d in s.manifests ==> s.manifests[d] == t.manifests[d]
    {
      assert s.Get(ManifestKind, d) == t.Get(ManifestKind, d);
    }
    forall key
      ensures key in s.tags <==> key in t.tags
      ensures key in s.tags ==> s.tags[key] == t.tags[key]
    {
      assert s.Tag(key) == t.Tag(key);
    }
    assert s.blobs == t.blobs && s.manifests == t.manifests && s.tags == t.tags;
  }

  /** Two transactions that agree digest by digest and tag by tag have the same result, panics included. */
  lemma SameProjectionsSameRun(s: Trees, a: seq<Action>, b: seq<Action>)
    requires forall k, d :: Changes(a, k, d) == Changes(b, k, d)
    requires forall key :: LastTag(a, key) == LastTag(b, key)
    ensures Run(s, a) == Run(s, b)
  {
    RunPanicsIff(s, a);
    RunPanicsIff(s, b);
    if Run(s, a).Done? {
      assert Run(s, b).Done?;
      var t, u := Run(s, a).value, Run(s, b).value;
      forall k, d
        ensures t.Get(k, d) == u.Get(k, d)
      {
        RunProjects(s, a, k, d);
        RunProjects(s, b, k, d);
      }
      forall key
        ensures t.Tag(key) == u.Tag(key)
      {
        RunTags(s, a, key);
        RunTags(s, b, key);
      }
      TreesExtensional(t, u);
    }
  }

  /** Actions that name different records or different tags commute. */
  lemma DifferentTargetsCommute(s: Trees, a: Action, b: Action)
    requires TargetOf(a).Object? && TargetOf(b).Object? ==>
               TargetOf(a).kind != TargetOf(b).kind || TargetOf(a).digest != TargetOf(b).digest
    requires TargetOf(a).Tagging? && TargetOf(b).Tagging? ==> TargetOf(a).key != TargetOf(b).key
    ensures Run(s, [a, b]) == Run(s, [b, a])
  {
    assert [a, b][..1] == [a] && [b, a][..1] == [b] && [a][..0] == [] && [b][..0] == [];
    SameProjectionsSameRun(s, [a, b], [b, a]);
  }
}
