/** `import` and `export` of `src/network/management.rs`: a state turned into actions and back. */
module ImportExport {
  import opened Types
  import opened StateMachine
  import opened History
  import opened Snapshot
  import opened Store

  /** The body of an export, and of the import that reads it. */
  datatype Body = Body(blobs: Tree, manifests: Tree, tags: map<Name, map<Name, Digest>>) {
    function Of(k: Kind): Tree {
      match k case BlobKind => blobs case ManifestKind => manifests
    }
  }

  method Export(store: RegistryStore) returns (body: Body)
    ensures body == ExportOf(store.Db())
    ensures body.blobs == store.blobs && body.manifests == store.manifests
    ensures forall r: Name, t: Name :: r in body.tags && t in body.tags[r] <==> TagKey(r, t) in store.tags
    ensures forall r: Name, t: Name | r in body.tags && t in body.tags[r] :: body.tags[r][t] == store.tags[TagKey(r, t)]
  {
    SnapshotMeans(store.State());
    var snapshot := store.CaptureSnapshot();
    body := Body(snapshot.blobs, snapshot.manifests, snapshot.tags);
  }

  function ExportOf(s: Trees): Body {
    Body(s.blobs, s.manifests, Nest(s.tags))
  }

  function Listed<T(==)>(s: seq<T>): set<T> {
    set x | x in s
  }

  function Mounts(now: int, rs: seq<Name>): seq<Change> {
    if rs == [] then [] else Mounts(now, rs[..|rs| - 1]) + [Mounted(now, rs[|rs| - 1])]
  }

  function Stores(now: int, ns: seq<NodeId>): seq<Change> {
    if ns == [] then [] else Stores(now, ns[..|ns| - 1]) + [Stored(now, ns[|ns| - 1])]
  }

  function InfoChange(now: int, r: Record): seq<Change> {
    if r.dependencies.Some? && r.contentType.Some? then [Info(now, r.dependencies.value, r.contentType.value)] else []
  }

  function StatChange(now: int, r: Record): seq<Change> {
    if r.size.Some? then [Stat(now, r.size.value)] else []
  }

  function Metadata(now: int, r: Record): seq<Change> {
    InfoChange(now, r) + StatChange(now, r)
  }

  /** The changes that recreate a record: its mounts and copies in some order, then its metadata. */
  ghost predicate Recreates(now: int, r: Record, cs: seq<Change>) {
    exists rs: seq<Name>, ns: seq<NodeId> ::
      && Listed(rs) == r.repositories && Listed(ns) == r.locations
      && cs == Mounts(now, rs) + Stores(now, ns) + Metadata(now, r)
  }

  /** `acts` recreates exactly the objects and tags of `body`. */
  ghost predicate IsImport(body: Body, now: int, acts: seq<Action>) {
    && (forall k, d :: if d in body.Of(k) then Recreates(now, body.Of(k)[d], Changes(acts, k, d))
                       else Changes(acts, k, d) == [])
    && (forall key :: LastTag(acts, key) ==
                      if key in Flatten(body.tags) then Some(Flatten(body.tags)[key]) else None)
  }

  function MountAction(k: Kind, now: int, d: Digest, r: Name): Action {
    match k
    case BlobKind => BlobMounted(now, d, r, "$import")
    case ManifestKind => ManifestMounted(now, d, r, "$import")
  }

  function StoreAction(k: Kind, now: int, d: Digest, n: NodeId): Action {
    match k
    case BlobKind => BlobStored(now, d, n, "$import")
    case ManifestKind => ManifestStored(now, d, n, "$import")
  }

  function InfoAction(k: Kind, now: int, d: Digest, ds: seq<Digest>, ct: string): Action {
    match k case BlobKind => BlobInfo(now, d, ds, ct) case ManifestKind => ManifestInfo(now, d, ds, ct)
  }

  function StatAction(k: Kind, now: int, d: Digest, z: nat): Action {
    match k case BlobKind => BlobStat(now, d, z) case ManifestKind => ManifestStat(now, d, z)
  }

  ghost predicate AllTarget(acts: seq<Action>, k: Kind, d: Digest) {
    forall a | a in acts :: TargetOf(a).Object? && TargetOf(a).kind == k && TargetOf(a).digest == d
  }

  /** What an import writes: stamped with its time, and with its name where an action records a user. */
  predicate ByImport(a: Action, now: int) {
    match a
    case BlobStored(time, _, _, user) => time == now && user == "$import"
    case BlobMounted(time, _, _, user) => time == now && user == "$import"
    case BlobInfo(time, _, _, _) => time == now
    case BlobStat(time, _, _) => time == now
    case ManifestStored(time, _, _, user) => time == now && user == "$import"
    case ManifestMounted(time, _, _, user) => time == now && user == "$import"
    case ManifestInfo(time, _, _, _) => time == now
    case ManifestStat(time, _, _) => time == now
    case HashTagged(time, _, _, _, user) => time == now && user == "$import"
    case _ => false
  }

  ghost predicate AllByImport(acts: seq<Action>, now: int) {
    forall a | a in acts :: ByImport(a, now)
  }

  lemma ChangesSnoc(acts: seq<Action>, a: Action, k: Kind, d: Digest, c: Change)
    requires TargetOf(a) == Object(k, d, c) && AllTarget(acts, k, d)
    ensures Changes(acts + [a], k, d) == Changes(acts, k, d) + [c] && AllTarget(acts + [a], k, d)
  {
    assert (acts + [a])[..|acts|] == acts;
  }

  lemma ListedSnoc<T>(s: seq<T>)
    requires s != []
    ensures Listed(s) == Listed(s[..|s| - 1]) + {s[|s| - 1]}
  {
    assert s == s[..|s| - 1] + [s[|s| - 1]];
  }

  lemma MountsSnoc(now: int, rs: seq<Name>, r: Name)
    ensures Mounts(now, rs + [r]) == Mounts(now, rs) + [Mounted(now, r)]
    ensures Listed(rs + [r]) == Listed(rs) + {r}
  {
    assert (rs + [r])[..|rs|] == rs;
    ListedSnoc(rs + [r]);
  }

  lemma StoresSnoc(now: int, ns: seq<NodeId>, n: NodeId)
    ensures Stores(now, ns + [n]) == Stores(now, ns) + [Stored(now, n)]
    ensures Listed(ns + [n]) == Listed(ns) + {n}
  {
    assert (ns + [n])[..|ns|] == ns;
    ListedSnoc(ns + [n]);
  }

  method ImportMounts(k: Kind, now: int, d: Digest, repositories: set<Name>)
    returns (acts: seq<Action>, ghost rs: seq<Name>)
    ensures AllTarget(acts, k, d) && Changes(acts, k, d) == Mounts(now, rs) && AllByImport(acts, now)
    ensures Listed(rs) == repositories
  {
    acts, rs := [], [];
    var rest := repositories;
    while rest != {}
      invariant rest <= repositories && AllTarget(acts, k, d) && AllByImport(acts, now)
      invariant Listed(rs) == repositories - rest
      invariant Changes(acts, k, d) == Mounts(now, rs)
    {
      var repository :| repository in rest;
      var a := MountAction(k, now, d, repository);
      ChangesSnoc(acts, a, k, d, Mounted(now, repository));
      MountsSnoc(now, rs, repository);
      acts := acts + [a];
      rs := rs + [repository];
      rest := rest - {repository};
    }
  }

  method ImportStores(k: Kind, now: int, d: Digest, locations: set<NodeId>)
    returns (acts: seq<Action>, ghost ns: seq<NodeId>)
    ensures AllTarget(acts, k, d) && Changes(acts, k, d) == Stores(now, ns) && AllByImport(acts, now)
    ensures Listed(ns) == locations
  {
    acts, ns := [], [];
    var rest := locations;
    while rest != {}
      invariant rest <= locations && AllTarget(acts, k, d) && AllByImport(acts, now)
      invariant Listed(ns) == locations - rest
      invariant Changes(acts, k, d) == Stores(now, ns)
    {
      var location :| location in rest;
      var a := StoreAction(k, now, d, location);
      ChangesSnoc(acts, a, k, d, Stored(now, location));
      StoresSnoc(now, ns, location);
      acts := acts + [a];
      ns := ns + [location];
      rest := rest - {location};
    }
  }

  method ImportInfo(k: Kind, now: int, d: Digest, r: Record) returns (acts: seq<Action>)
    ensures AllTarget(acts, k, d) && Changes(acts, k, d) == InfoChange(now, r) && AllByImport(acts, now)
  {
    acts := [];
    if r.dependencies.Some? && r.contentType.Some? {
      var a := InfoAction(k, now, d, r.dependencies.value, r.contentType.value);
      ChangesSnoc([], a, k, d, Info(now, r.dependencies.value, r.contentType.value));
      assert [] + [a] == [a];
      acts := [a];
    }
  }

  method ImportStat(k: Kind, now: int, d: Digest, r: Record) returns (acts: seq<Action>)
    ensures AllTarget(acts, k, d) && Changes(acts, k, d) == StatChange(now, r) && AllByImport(acts, now)
  {
    acts := [];
    if r.size.Some? {
      var a := StatAction(k, now, d, r.size.value);
      ChangesSnoc([], a, k, d, Stat(now, r.size.value));
      assert [] + [a] == [a];
      acts := [a];
    }
  }

  /** The actions for one object. */
  method ImportObject(k: Kind, now: int, d: Digest, r: Record) returns (acts: seq<Action>)
    ensures AllTarget(acts, k, d) && Recreates(now, r, Changes(acts, k, d)) && AllByImport(acts, now)
  {
    var mounts, stores;
    ghost var rs, ns;
    mounts, rs := ImportMounts(k, now, d, r.repositories);
    stores, ns := ImportStores(k, now, d, r.locations);
    var info := ImportInfo(k, now, d, r);
    var stat := ImportStat(k, now, d, r);
    acts := mounts + stores + (info + stat);
    ChangesAppend(mounts, stores, k, d);
    ChangesAppend(info, stat, k, d);
    ChangesAppend(mounts + stores, info + stat, k, d);
  }

  lemma OtherTargets(acts: seq<Action>, k: Kind, d: Digest, k': Kind, d': Digest)
    requires AllTarget(acts, k, d) && (k != k' || d != d')
    ensures Changes(acts, k', d') == []
  {
    forall i | 0 <= i < |acts|
      ensures TargetsOther(acts[i], k', d')
    {
      assert acts[i] in acts;
    }
    ChangesNone(acts, k', d');
  }

  ghost predicate NoTags(acts: seq<Action>) {
    forall a | a in acts :: TargetOf(a).Object?
  }

  /** `acts` recreates the objects of `tree` except those in `rest`, and touches no other. */
  ghost predicate ImportsTree(k: Kind, now: int, tree: Tree, rest: set<Digest>, acts: seq<Action>) {
    forall k', d :: if k' == k && d in tree && d !in rest then Recreates(now, tree[d], Changes(acts, k', d))
                    else Changes(acts, k', d) == []
  }

  lemma ImportsOneMore(k: Kind, now: int, tree: Tree, rest: set<Digest>, acts: seq<Action>, d: Digest,
                       block: seq<Action>)
    requires ImportsTree(k, now, tree, rest, acts) && d in tree && d in rest
    requires AllTarget(block, k, d) && Recreates(now, tree[d], Changes(block, k, d))
    ensures ImportsTree(k, now, tree, rest - {d}, acts + block)
  {
    forall k', d'
      ensures Changes(acts + block, k', d') ==
              if k' == k && d' == d then Changes(block, k, d) else Changes(acts, k', d')
    {
      ChangesAppend(acts, block, k', d');
      if k' != k || d' != d {
        OtherTargets(block, k, d, k', d');
      }
    }
  }

  /** The actions for one tree. */
  method ImportTree(k: Kind, now: int, tree: Tree) returns (acts: seq<Action>)
    ensures NoTags(acts) && AllByImport(acts, now)
    ensures ImportsTree(k, now, tree, {}, acts)
  {
    acts := [];
    var rest := tree.Keys;
    while rest != {}
      invariant rest <= tree.Keys && NoTags(acts) && AllByImport(acts, now)
      invariant ImportsTree(k, now, tree, rest, acts)
    {
      var digest :| digest in rest;
      var block := ImportObject(k, now, digest, tree[digest]);
      ImportsOneMore(k, now, tree, rest, acts, digest, block);
      acts := acts + block;
      rest := rest - {digest};
    }
  }

  method ImportTags(now: int, tags: map<Name, map<Name, Digest>>) returns (acts: seq<Action>)
    ensures AllByImport(acts, now) && forall a | a in acts :: TargetOf(a).Tagging?
    ensures forall key :: LastTag(acts, key) == if key in Flatten(tags) then Some(Flatten(tags)[key]) else None
  {
    acts := [];
    var rest := FlatKeys(tags);
    while rest != {}
      invariant rest <= FlatKeys(tags)
      invariant AllByImport(acts, now) && forall a | a in acts :: TargetOf(a).Tagging?
      invariant forall key :: LastTag(acts, key) ==
                  if key in Flatten(tags) && key !in rest then Some(Flatten(tags)[key]) else None
    {
      var key :| key in rest;
      var a := HashTagged(now, tags[key.repository][key.tag], key.repository, key.tag, "$import");
      assert (acts + [a])[..|acts|] == acts;
      acts := acts + [a];
      rest := rest - {key};
    }
  }

  /** The import transaction: blobs, then manifests, then tags. */
  method Import(body: Body, now: int) returns (acts: seq<Action>)
    ensures IsImport(body, now, acts) && AllByImport(acts, now)
  {
    var blobs := ImportTree(BlobKind, now, body.blobs);
    var manifests := ImportTree(ManifestKind, now, body.manifests);
    var tags := ImportTags(now, body.tags);
    acts := blobs + manifests + tags;
    forall k, d
      ensures Changes(acts, k, d) == if k.BlobKind? then Changes(blobs, k, d) else Changes(manifests, k, d)
    {
      ChangesAppend(blobs, manifests, k, d);
      ChangesAppend(blobs + manifests, tags, k, d);
      forall i | 0 <= i < |tags|
        ensures TargetsOther(tags[i], k, d)
      {
        assert tags[i] in tags;
      }
      ChangesNone(tags, k, d);
    }
    forall key
      ensures LastTag(acts, key) == LastTag(tags, key)
    {
      forall a | a in blobs + manifests
        ensures TargetOf(a).Object?
      {
        assert a in blobs || a in manifests;
      }
      UntaggedPrefix(blobs + manifests, tags, key);
    }
  }

  lemma {:induction false} UntaggedPrefix(acts: seq<Action>, tags: seq<Action>, key: TagKey)
    requires forall a | a in acts :: TargetOf(a).Object?
    ensures LastTag(acts + tags, key) == LastTag(tags, key)
  {
    if tags == [] {
      assert acts + tags == acts;
      forall i | 0 <= i < |acts|
        ensures !TargetOf(acts[i]).Tagging?
      {
        assert acts[i] in acts;
      }
      NoTagging(acts, key);
    } else {
      assert (acts + tags)[..|acts + tags| - 1] == acts + tags[..|tags| - 1];
      UntaggedPrefix(acts, tags[..|tags| - 1], key);
    }
  }

  // ----- replaying an import -----

  lemma ListedEmptyIff<T>(s: seq<T>)
    ensures Listed(s) == {} <==> s == []
  {
    assert |s| > 0 ==> s[0] in Listed(s);
  }

  lemma {:induction false} FoldMounts(now: int, rs: seq<Name>)
    ensures Fold(None, Mounts(now, rs)) ==
            Done(if rs == [] then None else Some(FreshRecord(now).(repositories := Listed(rs))))
  {
    if rs != [] {
      var init, r := rs[..|rs| - 1], rs[|rs| - 1];
      FoldMounts(now, init);
      assert Mounts(now, rs)[..|Mounts(now, rs)| - 1] == Mounts(now, init);
      ListedSnoc(rs);
      if init == [] {
        assert {} + {r} == Listed(rs);
      }
    }
  }

  lemma {:induction false} FoldStores(now: int, o: Option<Record>, ns: seq<NodeId>)
    requires o.Some? ==> o.value.updated == now
    ensures Fold(o, Stores(now, ns)) ==
            if o.None? && ns != [] then Panic
            else if o.None? then Done(None)
            else Done(Some(o.value.(locations := o.value.locations + Listed(ns))))
  {
    if ns == [] {
      ListedEmptyIff(ns);
      assert o.Some? ==> o.value.locations + Listed(ns) == o.value.locations;
    } else {
      var init, n := ns[..|ns| - 1], ns[|ns| - 1];
      FoldStores(now, o, init);
      assert Stores(now, ns)[..|Stores(now, ns)| - 1] == Stores(now, init);
      ListedSnoc(ns);
      if o.Some? {
        assert o.value.locations + Listed(init) + {n} == o.value.locations + Listed(ns);
      }
    }
  }

  /** The record an import leaves: the exported one, created and updated at the time of the import. */
  function Reimported(now: int, r: Record): Record {
    r.(created := now, updated := now)
  }

  lemma FoldInfo(now: int, o: Option<Record>, r: Record)
    requires AnalysedIfDependent(r)
    requires o.Some? ==> o.value.updated == now && o.value.contentType.None? && o.value.dependencies == Some([])
    ensures Fold(o, InfoChange(now, r)) ==
            Done(if o.None? then None
                 else Some(o.value.(contentType := r.contentType, dependencies := r.dependencies)))
  {
    if r.contentType.Some? {
      FoldOne(o, Info(now, r.dependencies.value, r.contentType.value));
    }
  }

  lemma FoldStat(now: int, o: Option<Record>, r: Record)
    requires o.Some? ==> o.value.updated == now && o.value.size.None?
    ensures Fold(o, StatChange(now, r)) == Done(if o.None? then None else Some(o.value.(size := r.size)))
  {
    if r.size.Some? {
      FoldOne(o, Stat(now, r.size.value));
    }
  }

  lemma FoldMetadata(now: int, o: Option<Record>, r: Record)
    requires AnalysedIfDependent(r)
    requires o.Some? ==> o.value.updated == now && o.value.contentType.None? && o.value.size.None? &&
                         o.value.dependencies == Some([])
    ensures Fold(o, Metadata(now, r)) ==
            Done(if o.None? then None
                 else Some(o.value.(contentType := r.contentType, dependencies := r.dependencies, size := r.size)))
  {
    FoldInfo(now, o, r);
    FoldStat(now, Fold(o, InfoChange(now, r)).value, r);
    FoldAppend(o, InfoChange(now, r), StatChange(now, r));
  }

  /** One record from its mounts and copies listed in some order. */
  lemma RecreatesFrom(now: int, r: Record, rs: seq<Name>, ns: seq<NodeId>)
    requires AnalysedIfDependent(r) && Listed(rs) == r.repositories && Listed(ns) == r.locations
    ensures Fold(None, Mounts(now, rs) + Stores(now, ns) + Metadata(now, r)) ==
            if r.repositories != {} then Done(Some(Reimported(now, r)))
            else if r.locations != {} then Panic
            else Done(None)
  {
    ListedEmptyIff(rs);
    ListedEmptyIff(ns);
    FoldMounts(now, rs);
    var mounted := Fold(None, Mounts(now, rs)).value;
    FoldStores(now, mounted, ns);
    FoldAppend(None, Mounts(now, rs), Stores(now, ns));
    FoldAppend(None, Mounts(now, rs) + Stores(now, ns), Metadata(now, r));
    if Fold(mounted, Stores(now, ns)).Done? {
      FoldMetadata(now, Fold(mounted, Stores(now, ns)).value, r);
      assert {} + Listed(ns) == r.locations;
    }
  }

  /**
    One object: a copy without a mount stops the import, an object without either is dropped, and any
    mounted object comes back as it was.
   */
  lemma RecreatesRecord(now: int, r: Record, cs: seq<Change>)
    requires Recreates(now, r, cs) && AnalysedIfDependent(r)
    ensures Fold(None, cs) ==
            if r.repositories != {} then Done(Some(Reimported(now, r)))
            else if r.locations != {} then Panic
            else Done(None)
  {
    var rs: seq<Name>, ns: seq<NodeId> :|
      Listed(rs) == r.repositories && Listed(ns) == r.locations
      && cs == Mounts(now, rs) + Stores(now, ns) + Metadata(now, r);
    RecreatesFrom(now, r, rs, ns);
  }

  ghost predicate AllMounted(s: Trees) {
    forall k, d | d in s.Of(k) :: s.Of(k)[d].repositories != {}
  }

  ghost predicate CopiesMounted(s: Trees) {
    forall k, d | d in s.Of(k) && s.Of(k)[d].locations != {} :: s.Of(k)[d].repositories != {}
  }

  /** The same registry up to the two timestamps of each record. */
  ghost predicate SameButTimes(s: Trees, t: Trees, now: int) {
    && s.tags == t.tags
    && forall k, d :: t.Get(k, d) == if d in s.Of(k) then Some(Reimported(now, s.Of(k)[d])) else None
  }

  lemma ImportedFold(s: Trees, now: int, acts: seq<Action>, k: Kind, d: Digest)
    requires AllAnalysedIfDependent(s) && IsImport(ExportOf(s), now, acts)
    ensures Fold(EMPTY_TREES.Get(k, d), Changes(acts, k, d)) ==
            if d !in s.Of(k) then Done(None)
            else if s.Of(k)[d].repositories != {} then Done(Some(Reimported(now, s.Of(k)[d])))
            else if s.Of(k)[d].locations != {} then Panic
            else Done(None)
  {
    assert ExportOf(s).Of(k) == s.Of(k) && EMPTY_TREES.Get(k, d) == None;
    if d in s.Of(k) {
      RecreatesRecord(now, s.Of(k)[d], Changes(acts, k, d));
    }
  }

  /** Importing an export into an empty cluster panics exactly when some object has a copy but no mount. */
  lemma ImportPanicsIff(s: Trees, now: int, acts: seq<Action>)
    requires AllAnalysedIfDependent(s) && IsImport(ExportOf(s), now, acts)
    ensures Run(EMPTY_TREES, acts).Done? <==> CopiesMounted(s)
  {
    RunPanicsIff(EMPTY_TREES, acts);
    forall k, d {
      ImportedFold(s, now, acts, k, d);
    }
    if !CopiesMounted(s) {
      var k, d :| d in s.Of(k) && s.Of(k)[d].locations != {} && s.Of(k)[d].repositories == {};
      assert Fold(EMPTY_TREES.Get(k, d), Changes(acts, k, d)).Panic?;
    }
  }

  lemma ImportedRecord(s: Trees, now: int, acts: seq<Action>, k: Kind, d: Digest)
    requires AllAnalysedIfDependent(s) && IsImport(ExportOf(s), now, acts) && Run(EMPTY_TREES, acts).Done?
    ensures Run(EMPTY_TREES, acts).value.Get(k, d) ==
            if d in s.Of(k) && s.Of(k)[d].repositories != {} then Some(Reimported(now, s.Of(k)[d])) else None
  {
    RunProjects(EMPTY_TREES, acts, k, d);
    ImportedFold(s, now, acts, k, d);
  }

  lemma ImportedTags(s: Trees, now: int, acts: seq<Action>)
    requires IsImport(ExportOf(s), now, acts) && Run(EMPTY_TREES, acts).Done?
    ensures Run(EMPTY_TREES, acts).value.tags == s.tags
  {
    var t := Run(EMPTY_TREES, acts).value;
    NestRoundTrip(s.tags);
    forall key
      ensures key in t.tags <==> key in s.tags
      ensures key in s.tags ==> t.tags[key] == s.tags[key]
    {
      RunTags(EMPTY_TREES, acts, key);
      assert t.Tag(key) == s.Tag(key);
    }
  }

  /**
    Import after export is the identity up to timestamps, in whatever order sets were listed, exactly
    when every object is mounted somewhere.
   */
  lemma ImportRestoresIff(s: Trees, now: int, acts: seq<Action>)
    requires AllAnalysedIfDependent(s) && IsImport(ExportOf(s), now, acts)
    ensures (Run(EMPTY_TREES, acts).Done? && SameButTimes(s, Run(EMPTY_TREES, acts).value, now)) <==> AllMounted(s)
  {
    ImportPanicsIff(s, now, acts);
    if Run(EMPTY_TREES, acts).Done? {
      var t := Run(EMPTY_TREES, acts).value;
      forall k, d {
        ImportedRecord(s, now, acts, k, d);
      }
      ImportedTags(s, now, acts);
      if !AllMounted(s) {
        var k, d :| d in s.Of(k) && s.Of(k)[d].repositories == {};
        assert t.Get(k, d) == None;
      }
    }
  }

  /** The hypothesis on records holds of every state a log can reach. */
  lemma ReachableExportRestores(log: seq<Action>, now: int, acts: seq<Action>)
    requires Run(EMPTY_TREES, log).Done?
    requires IsImport(ExportOf(Run(EMPTY_TREES, log).value), now, acts)
    ensures (Run(EMPTY_TREES, acts).Done? &&
             SameButTimes(Run(EMPTY_TREES, log).value, Run(EMPTY_TREES, acts).value, now)) <==>
            AllMounted(Run(EMPTY_TREES, log).value)
  {
    RunKeepsAnalysed(EMPTY_TREES, log);
    ImportRestoresIff(Run(EMPTY_TREES, log).value, now, acts);
  }
}
