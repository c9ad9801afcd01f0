/** A node's content directory: sharded paths (`src/utils.rs`) and their pruning (`src/garbage.rs`). */
module Files {
  import opened Types
  import opened StateMachine

  /** The components of an absolute path; `[]` is the root of the file system. */
  type Path = seq<string>

  datatype Disk = Disk(files: map<Path, Bytes>, dirs: set<Path>)

  predicate Exists(disk: Disk, p: Path) {
    p in disk.files || p in disk.dirs
  }

  ghost predicate WellFormed(disk: Disk) {
    && disk.files.Keys !! disk.dirs
    && [] in disk.dirs
    && forall p: Path | Exists(disk, p) && p != [] :: p[..|p| - 1] in disk.dirs
  }

  /** Some component on the way to `p` is a file. */
  predicate Blocked(files: map<Path, Bytes>, p: Path) {
    exists f | f in files :: f < p
  }

  predicate IsChild(p: Path, q: Path) {
    |q| == |p| + 1 && p < q
  }

  function Children(disk: Disk, p: Path): set<Path> {
    set q | q in disk.files.Keys + disk.dirs && IsChild(p, q)
  }

  /** Everything below `p` lies on the way to `path`. */
  ghost predicate LeadsOnlyTo(disk: Disk, p: Path, path: Path) {
    forall q: Path | Exists(disk, q) && p < q :: q <= path
  }

  /** The directories within `n` levels above `path` that hold nothing but the way to it. */
  ghost function Emptied(disk: Disk, path: Path, n: nat): set<Path> {
    set p | p in disk.dirs && p < path && |path| - n <= |p| && LeadsOnlyTo(disk, p, path)
  }

  ghost function Cleaned(disk: Disk, path: Path, n: nat): Disk {
    Disk(disk.files - {path}, disk.dirs - Emptied(disk, path, n))
  }

  function Prefixes(p: Path): set<Path> {
    set i | 0 <= i <= |p| :: p[..i]
  }

  function WithDirs(disk: Disk, p: Path): Disk {
    Disk(disk.files, disk.dirs + Prefixes(p))
  }

  function KindName(k: Kind): string {
    match k case BlobKind => "blobs" case ManifestKind => "manifests"
  }

  function ShardDir(root: Path, k: Kind, d: Digest): Path
    requires |d.hash| >= 6
  {
    root + [KindName(k), d.hash[0..2], d.hash[2..4], d.hash[4..6]]
  }

  function ContentPath(root: Path, k: Kind, d: Digest): Path
    requires |d.hash| >= 6
  {
    ShardDir(root, k, d) + [d.hash[6..]]
  }

  ghost predicate CleanupFails(disk: Disk, path: Path, denied: set<Path>) {
    || path in disk.dirs || (path in disk.files && path in denied) || Blocked(disk.files, path)
    || !(Emptied(disk, path, 3) !! denied)
  }

  /** The directories pruned before one of them is refused. */
  ghost function PrunedUntil(disk: Disk, path: Path, denied: set<Path>): set<Path> {
    set p | p in Emptied(disk, path, 3) && forall q | q in Emptied(disk, path, 3) && p <= q :: q !in denied
  }

  /** What a clean-up leaves, failed or not. */
  ghost function AfterCleanup(disk: Disk, path: Path, denied: set<Path>): Disk {
    if path in disk.dirs || (path in disk.files && path in denied) then disk
    else if Blocked(disk.files, path) then Disk(disk.files - {path}, disk.dirs)
    else Disk(disk.files - {path}, disk.dirs - PrunedUntil(disk, path, denied))
  }

  datatype Round = Pruned | Kept | Failed

  class FileStore {
    const root: Path
    var files: map<Path, Bytes>
    var dirs: set<Path>

    function Contents(): Disk
      reads this
    {
      Disk(files, dirs)
    }

    constructor (root: Path, disk: Disk)
      ensures this.root == root && Contents() == disk
    {
      this.root := root;
      files, dirs := disk.files, disk.dirs;
    }

    /** Make every directory on the way to `p`; a file in the way is an error. */
    method CreateDirAll(p: Path) returns (ok: bool)
      modifies `dirs
      ensures ok <==> !Blocked(old(files), p) && p !in files
      ensures Contents() == if ok then WithDirs(old(Contents()), p) else old(Contents())
      ensures ok ==> forall q: Path :: q in dirs <==> q in old(dirs) || q <= p
    {
      ok := p !in files && !(exists f | f in files :: f < p);
      if ok {
        forall q: Path {
          PrefixesOf(q, p);
        }
        dirs := dirs + Prefixes(p);
      }
    }

    /** Where a digest is kept. The directories are made as a side effect, and their absence is a panic. */
    method GetPath(k: Kind, d: Digest) returns (r: Outcome<Path>)
      modifies `dirs
      ensures r.Done? <==> |d.hash| >= 6 && !Blocked(old(files), ContentPath(root, k, d))
      ensures r.Done? ==> r.value == ContentPath(root, k, d)
      ensures r.Done? ==> r.value == root + [if k.BlobKind? then "blobs" else "manifests",
                                             d.hash[0..2], d.hash[2..4], d.hash[4..6], d.hash[6..]]
      ensures Contents() == if r.Done? then WithDirs(old(Contents()), ShardDir(root, k, d)) else old(Contents())
    {
      if |d.hash| < 6 {
        return Panic;
      }
      var path := ShardDir(root, k, d);
      BlockedBelow(files, path, d.hash[6..]);
      var ok := CreateDirAll(path);
      if !ok {
        return Panic;
      }
      r := Done(path + [d.hash[6..]]);
    }

    /** Move a finished temporary file to its place. */
    method Rename(content: Bytes, path: Path) returns (ok: bool)
      requires path != []
      modifies `files
      ensures ok <==> path[..|path| - 1] in dirs && path !in dirs
      ensures files == if ok then old(files)[path := content] else old(files)
    {
      ok := path[..|path| - 1] in dirs && path !in dirs;
      if ok {
        files := files[path := content];
      }
    }

    /**
      Remove a file and then the directories it leaves empty, at most three levels up. `denied` are the
      paths the operating system refuses to remove.
     */
    method CleanupObject(path: Path, denied: set<Path>) returns (ok: bool)
      requires WellFormed(Contents()) && |path| > 3
      modifies this
      ensures WellFormed(Contents())
      ensures ok <==> !CleanupFails(old(Contents()), path, denied)
      ensures ok ==> Contents() == Cleaned(old(Contents()), path, 3)
      ensures Contents() == AfterCleanup(old(Contents()), path, denied)
    {
      ghost var disk := Contents();
      if path in files || path in dirs {
        if path in dirs || path in denied {
          return false;
        }
        files := files - {path};
      }
      assert Contents() == Cleaned(disk, path, 0);
      ok := Prune(path, denied, disk);
    }

    method Prune(path: Path, denied: set<Path>, ghost disk: Disk) returns (ok: bool)
      requires WellFormed(disk) && |path| > 3 && path !in disk.dirs
      requires Contents() == Cleaned(disk, path, 0)
      modifies `dirs
      ensures WellFormed(Contents())
      ensures ok <==> !Blocked(disk.files, path) && Emptied(disk, path, 3) !! denied
      ensures ok ==> Contents() == Cleaned(disk, path, 3)
      ensures dirs == if Blocked(disk.files, path) then disk.dirs else disk.dirs - PrunedUntil(disk, path, denied)
    {
      for i := 1 to 4
        invariant i > 1 ==> !Blocked(disk.files, path)
        invariant Contents() == Cleaned(disk, path, i - 1)
        invariant Emptied(disk, path, i - 1) !! denied
      {
        CleanedWellFormed(disk, path, i - 1);
        var round := PruneOne(path, denied, i, disk);
        if round != Pruned {
          return round == Kept;
        }
      }
      CleanedWellFormed(disk, path, 3);
      AllPruned(disk, path, denied);
      return true;
    }

    /** One of the three directories: gone, kept with all above it, or an error. */
    method PruneOne(path: Path, denied: set<Path>, i: nat, ghost disk: Disk) returns (round: Round)
      requires WellFormed(disk) && 1 <= i <= 3 < |path| && path !in disk.dirs
      requires i > 1 ==> !Blocked(disk.files, path)
      requires Contents() == Cleaned(disk, path, i - 1) && Emptied(disk, path, i - 1) !! denied
      modifies `dirs
      ensures round.Pruned? ==>
                !Blocked(disk.files, path) && Contents() == Cleaned(disk, path, i) && Emptied(disk, path, i) !! denied
      ensures !round.Pruned? ==> dirs == old(dirs)
      ensures round.Kept? ==>
                && !Blocked(disk.files, path)
                && Emptied(disk, path, i - 1) == Emptied(disk, path, 3) == PrunedUntil(disk, path, denied)
      ensures round.Failed? ==>
                || (Blocked(disk.files, path) && i == 1)
                || (&& !Blocked(disk.files, path) && !(Emptied(disk, path, 3) !! denied)
                    && PrunedUntil(disk, path, denied) == Emptied(disk, path, i - 1))
    {
      var parent := path[..|path| - i];
      RoundOf(disk, path, i);
      if parent in dirs {
        if Children(Contents(), parent) != {} {
          AllPruned(disk, path, denied);
          return Kept;
        }
      } else if parent in files || Blocked(files, parent) {
        return Failed;
      } else {
        return Pruned;
      }
      if parent in denied {
        StopsAtDenied(disk, path, denied, i);
        return Failed;
      }
      dirs := dirs - {parent};
      return Pruned;
    }
  }

  lemma PrefixOfLonger(f: Path, p: Path, name: string)
    ensures f < p + [name] <==> f <= p
  {
    if |f| <= |p| {
      assert (p + [name])[..|f|] == p[..|f|];
    }
  }

  lemma BlockedBelow(files: map<Path, Bytes>, p: Path, name: string)
    ensures Blocked(files, p + [name]) <==> Blocked(files, p) || p in files
  {
    if Blocked(files, p + [name]) {
      var f :| f in files && f < p + [name];
      PrefixOfLonger(f, p, name);
      PrefixIsProper(f, p);
    }
    if Blocked(files, p) {
      var f :| f in files && f < p;
      PrefixOfLonger(f, p, name);
    }
    PrefixOfLonger(p, p, name);
  }

  lemma PrefixIsProper(q: Path, p: Path)
    requires q <= p
    ensures q == p || q < p
  {
    if |q| == |p| {
      assert p[..|q|] == p;
    }
  }

  /** Whatever exists, everything on the way to it is a directory. */
  lemma {:induction false} PrefixesAreDirs(disk: Disk, q: Path, n: nat)
    requires WellFormed(disk) && Exists(disk, q) && n < |q|
    ensures q[..n] in disk.dirs
    decreases |q| - n
  {
    if n == |q| - 1 {
    } else {
      PrefixesAreDirs(disk, q, n + 1);
      assert q[..n + 1][..n] == q[..n];
    }
  }

  /** What leads only to `path` does so from any deeper directory on the way. */
  lemma DeeperLeadsToo(disk: Disk, p: Path, q: Path, path: Path)
    requires LeadsOnlyTo(disk, p, path) && p <= q
    ensures LeadsOnlyTo(disk, q, path)
  {
    forall r: Path | Exists(disk, r) && q < r
      ensures r <= path
    {
      assert p == q[..|p|] == r[..|p|];
    }
  }

  lemma PrefixNotBlocked(disk: Disk, path: Path, i: nat)
    requires WellFormed(disk) && 1 <= i <= |path| && path[..|path| - i] in disk.dirs
    requires i > 1 ==> !Blocked(disk.files, path)
    ensures !Blocked(disk.files, path)
  {
    if i == 1 {
      forall f | f in disk.files && f < path
        ensures false
      {
        var parent := path[..|path| - 1];
        if f != parent {
          assert f == parent[..|f|];
          PrefixesAreDirs(disk, parent, |f|);
        }
      }
    }
  }

  /** The system reports a file in the way exactly when there is one. */
  lemma AbsentParent(files: map<Path, Bytes>, path: Path, i: nat)
    requires 1 <= i <= |path|
    requires i > 1 ==> !Blocked(files, path)
    ensures var parent, left := path[..|path| - i], files - {path};
            Blocked(files, path) <==> parent in left || Blocked(left, parent)
  {
    var parent, left := path[..|path| - i], files - {path};
    assert parent < path;
    if Blocked(left, parent) {
      var f :| f in left && f < parent;
      assert f in files && f < path;
    }
    if Blocked(files, path) {
      var f :| f in files && f < path;
      assert f in left;
      PrefixOfLonger(f, parent, path[|path| - 1]);
      assert path == parent + [path[|path| - 1]];
      PrefixIsProper(f, parent);
    }
  }

  lemma ChildGone(disk: Disk, path: Path, i: nat, q: Path)
    requires 1 <= i <= |path| && path !in disk.dirs && !Blocked(disk.files, path)
    requires LeadsOnlyTo(disk, path[..|path| - i], path)
    requires Exists(disk, q) && IsChild(path[..|path| - i], q)
    ensures !Exists(Cleaned(disk, path, i - 1), q)
  {
    DeeperLeadsToo(disk, path[..|path| - i], q, path);
    assert q <= path;
    PrefixIsProper(q, path);
  }

  lemma LeftBehind(disk: Disk, path: Path, i: nat, q: Path)
    requires WellFormed(disk) && 1 <= i <= |path| && path !in disk.dirs
    requires Children(Cleaned(disk, path, i - 1), path[..|path| - i]) == {}
    requires Exists(disk, q) && path[..|path| - i] < q
    ensures q <= path
  {
    var p, cur := path[..|path| - i], Cleaned(disk, path, i - 1);
    var c := q[..|p| + 1];
    assert IsChild(p, c);
    if c != q {
      PrefixesAreDirs(disk, q, |p| + 1);
      assert c < q;
    }
    assert c !in Children(cur, p);
    assert c == path || c in Emptied(disk, path, i - 1);
  }

  /** Nothing in a directory on the way is left after the rounds below it exactly when it led only to `path`. */
  lemma RoundEmpty(disk: Disk, path: Path, i: nat)
    requires WellFormed(disk) && 1 <= i <= |path| && path !in disk.dirs && !Blocked(disk.files, path)
    ensures Children(Cleaned(disk, path, i - 1), path[..|path| - i]) == {} <==>
            LeadsOnlyTo(disk, path[..|path| - i], path)
  {
    var p, cur := path[..|path| - i], Cleaned(disk, path, i - 1);
    if LeadsOnlyTo(disk, p, path) {
      forall q: Path | Exists(disk, q) && IsChild(p, q) {
        ChildGone(disk, path, i, q);
      }
      assert forall q | q in Children(cur, p) :: Exists(cur, q);
    }
    if Children(cur, p) == {} {
      forall q: Path | Exists(disk, q) && p < q {
        LeftBehind(disk, path, i, q);
      }
    }
  }

  /** A directory that keeps something keeps every directory above it. */
  lemma RoundStops(disk: Disk, path: Path, i: nat)
    requires 1 <= i <= 3 < |path|
    ensures LeadsOnlyTo(disk, path[..|path| - i], path) || Emptied(disk, path, i - 1) == Emptied(disk, path, 3)
  {
    if p :| p in Emptied(disk, path, 3) && p !in Emptied(disk, path, i - 1) {
      assert p <= path[..|path| - i];
      DeeperLeadsToo(disk, p, path[..|path| - i], path);
    }
  }

  lemma RoundAdds(disk: Disk, path: Path, i: nat)
    requires 1 <= i <= 3 < |path|
    ensures var parent := path[..|path| - i];
            Emptied(disk, path, i) == Emptied(disk, path, i - 1)
              + if parent in disk.dirs && LeadsOnlyTo(disk, parent, path) then {parent} else {}
    ensures Emptied(disk, path, i - 1) <= Emptied(disk, path, i) <= Emptied(disk, path, 3)
  {
    var parent := path[..|path| - i];
    forall p | p in Emptied(disk, path, i) && p !in Emptied(disk, path, i - 1)
      ensures p == parent
    {
      assert |p| == |path| - i;
    }
    assert parent < path;
  }

  /** One round of pruning: what the directory listing tells about the directories still to go. */
  lemma RoundOf(disk: Disk, path: Path, i: nat)
    requires WellFormed(disk) && 1 <= i <= 3 < |path| && path !in disk.dirs
    requires i > 1 ==> !Blocked(disk.files, path)
    ensures var parent, cur := path[..|path| - i], Cleaned(disk, path, i - 1);
            && Emptied(disk, path, i - 1) <= Emptied(disk, path, i) <= Emptied(disk, path, 3)
            && (parent in cur.dirs <==> parent in disk.dirs)
            && (parent in cur.dirs ==> !Blocked(disk.files, path))
            && (parent in cur.dirs && Children(cur, parent) != {} ==>
                  Emptied(disk, path, i - 1) == Emptied(disk, path, 3))
            && (parent in cur.dirs && Children(cur, parent) == {} ==>
                  Emptied(disk, path, i) == Emptied(disk, path, i - 1) + {parent})
            && (parent !in cur.dirs ==>
                  && Emptied(disk, path, i) == Emptied(disk, path, i - 1)
                  && (Blocked(disk.files, path) <==> parent in cur.files || Blocked(cur.files, parent)))
  {
    var parent := path[..|path| - i];
    RoundAdds(disk, path, i);
    if parent in disk.dirs {
      PrefixNotBlocked(disk, path, i);
      RoundEmpty(disk, path, i);
      RoundStops(disk, path, i);
    } else {
      AbsentParent(disk.files, path, i);
    }
  }

  lemma AllPruned(disk: Disk, path: Path, denied: set<Path>)
    requires Emptied(disk, path, 3) !! denied
    ensures PrunedUntil(disk, path, denied) == Emptied(disk, path, 3)
  {
  }

  lemma StopsAtDenied(disk: Disk, path: Path, denied: set<Path>, i: nat)
    requires 1 <= i <= 3 < |path| && path[..|path| - i] in denied
    requires path[..|path| - i] in Emptied(disk, path, 3) && Emptied(disk, path, i - 1) !! denied
    ensures PrunedUntil(disk, path, denied) == Emptied(disk, path, i - 1)
  {
    var parent := path[..|path| - i];
    forall p | p in Emptied(disk, path, 3)
      ensures p in PrunedUntil(disk, path, denied) <==> p in Emptied(disk, path, i - 1)
    {
      if |p| <= |parent| {
        assert p <= parent;
      } else {
        assert forall q | q in Emptied(disk, path, 3) && p <= q :: q in Emptied(disk, path, i - 1);
      }
    }
  }

  lemma CleanedWellFormed(disk: Disk, path: Path, n: nat)
    requires WellFormed(disk) && n < |path| && path !in disk.dirs
    requires n > 0 ==> !Blocked(disk.files, path)
    ensures WellFormed(Cleaned(disk, path, n))
  {
    var after := Cleaned(disk, path, n);
    forall q: Path | Exists(after, q) && q != []
      ensures q[..|q| - 1] in after.dirs
    {
      var p := q[..|q| - 1];
      assert Exists(disk, q) && p < q;
      if p in Emptied(disk, path, n) {
        DeeperLeadsToo(disk, p, q, path);
        assert q <= path;
        PrefixIsProper(q, path);
      }
    }
  }

  lemma WithDirsWellFormed(disk: Disk, p: Path)
    requires WellFormed(disk) && !Blocked(disk.files, p) && p !in disk.files
    ensures WellFormed(WithDirs(disk, p))
  {
    var made := WithDirs(disk, p);
    forall q | q in Prefixes(p)
      ensures q !in disk.files && (q != [] ==> q[..|q| - 1] in Prefixes(p))
    {
      assert q <= p;
      PrefixIsProper(q, p);
      if q != [] {
        assert q[..|q| - 1] == p[..|q| - 1];
      }
    }
  }

  /** What comes of moving content to the place of its digest: no path, no move, or there it is. */
  datatype Placing = NoPath | NotMoved | Moved

  ghost function PlacingOf(disk: Disk, root: Path, k: Kind, d: Digest): Placing {
    if |d.hash| < 6 || Blocked(disk.files, ContentPath(root, k, d)) then NoPath
    else if ContentPath(root, k, d) in WithDirs(disk, ShardDir(root, k, d)).dirs then NotMoved
    else Moved
  }

  ghost function AfterPlacing(disk: Disk, root: Path, k: Kind, d: Digest, content: Bytes): Disk {
    match PlacingOf(disk, root, k, d)
    case NoPath => disk
    case NotMoved => WithDirs(disk, ShardDir(root, k, d))
    case Moved =>
      var made := WithDirs(disk, ShardDir(root, k, d));
      made.(files := made.files[ContentPath(root, k, d) := content])
  }

  /** Find an object's path and move a finished temporary file there. */
  method PlaceContent(disk: FileStore, k: Kind, d: Digest, content: Bytes) returns (p: Placing)
    modifies disk
    ensures p == PlacingOf(old(disk.Contents()), disk.root, k, d)
    ensures disk.Contents() == AfterPlacing(old(disk.Contents()), disk.root, k, d, content)
    ensures p.Moved? ==> |d.hash| >= 6
    ensures p.NoPath? <==> |d.hash| < 6 || exists f | f in old(disk.files) :: f < ContentPath(disk.root, k, d)
    ensures p.NotMoved? <==> !p.NoPath? && ContentPath(disk.root, k, d) in old(disk.dirs)
    ensures disk.files == if p.Moved? then old(disk.files)[ContentPath(disk.root, k, d) := content] else old(disk.files)
    ensures old(disk.dirs) <= disk.dirs
    ensures forall q: Path | q in disk.dirs && q !in old(disk.dirs) :: |d.hash| >= 6 && q <= ShardDir(disk.root, k, d)
  {
    if |d.hash| >= 6 {
      forall q: Path {
        PrefixesOf(q, ShardDir(disk.root, k, d));
      }
    }
    var path := disk.GetPath(k, d);
    if path.Panic? {
      return NoPath;
    }
    ContentPathIs(disk.root, k, d);
    PrefixesOf(ShardDir(disk.root, k, d), ShardDir(disk.root, k, d));
    var ok := disk.Rename(content, path.value);
    return if ok then Moved else NotMoved;
  }

  // ----- what storing and cleaning up keep -----

  lemma PathsDiffer(root: Path, k: Kind, d: Digest, k': Kind, d': Digest)
    requires |d.hash| >= 6 && |d'.hash| >= 6
    ensures ContentPath(root, k, d) == ContentPath(root, k', d') <==> k == k' && d.hash == d'.hash
  {
    var p, q := ContentPath(root, k, d), ContentPath(root, k', d');
    if p == q {
      var n := |root|;
      assert p[n] == q[n] && p[n + 1] == q[n + 1] && p[n + 2] == q[n + 2];
      assert p[n + 3] == q[n + 3] && p[n + 4] == q[n + 4];
      assert d.hash == p[n + 1] + p[n + 2] + p[n + 3] + p[n + 4];
      assert d'.hash == q[n + 1] + q[n + 2] + q[n + 3] + q[n + 4];
    }
  }

  /** A directory inside one of the two content directories. */
  predicate IsShard(root: Path, p: Path) {
    |root| + 2 <= |p| && root <= p && (p[|root|] == KindName(BlobKind) || p[|root|] == KindName(ManifestKind))
  }

  /** Where an object may be kept: three levels of directories below one of the two. */
  predicate IsContentPath(root: Path, path: Path) {
    |path| == |root| + 5 && IsShard(root, path)
  }

  function Parent(path: Path): Path
    requires path != []
  {
    path[..|path| - 1]
  }

  lemma ContentPathIs(root: Path, k: Kind, d: Digest)
    requires |d.hash| >= 6
    ensures IsContentPath(root, ContentPath(root, k, d))
    ensures Parent(ContentPath(root, k, d)) == ShardDir(root, k, d)
    ensures ContentPath(root, k, d)[..|root| + 1] == root + [KindName(k)]
  {
  }

  /** No shard directory stands without a file in it. */
  ghost predicate Tidy(disk: Disk, root: Path) {
    forall p | p in disk.dirs && IsShard(root, p) :: HasFile(disk, p)
  }

  ghost predicate HasFile(disk: Disk, p: Path) {
    exists f | f in disk.files :: p < f
  }

  ghost predicate HoldsOnly(disk: Disk, p: Path, path: Path) {
    forall f | f in disk.files && p < f :: f == path
  }

  lemma BelowShard(root: Path, p: Path, q: Path)
    requires IsShard(root, p) && p <= q
    ensures IsShard(root, q)
  {
    assert p == q[..|p|];
    assert root == p[..|root|] == q[..|root|];
  }

  function Above(path: Path, i: nat): Path
    requires i <= |path|
  {
    path[..|path| - i]
  }

  /** The nearest `m` directories above `path`. */
  function Nearest(path: Path, m: nat): set<Path>
    requires m <= |path|
  {
    set i: nat | 1 <= i <= m :: Above(path, i)
  }

  /**
    What is pruned is the nearest `m` directories above `path`, for some `m` of at most three; the chain
    ends early only at a directory that holds something else.
   */
  lemma PrunedChain(disk: Disk, path: Path) returns (m: nat)
    requires WellFormed(disk) && |path| > 3 && Parent(path) in disk.dirs
    ensures m <= 3 && Emptied(disk, path, 3) == Nearest(path, m)
    ensures m < 3 ==> exists q: Path :: Exists(disk, q) && Above(path, m + 1) < q && !(q <= path)
  {
    m := 0;
    assert Emptied(disk, path, 0) == Nearest(path, 0);
    while m < 3 && LeadsOnlyTo(disk, Above(path, m + 1), path)
      invariant m <= 3 && Emptied(disk, path, m) == Nearest(path, m)
    {
      AboveIsDir(disk, path, m + 1);
      RoundAdds(disk, path, m + 1);
      NearestGrows(path, m);
      m := m + 1;
    }
    if m < 3 {
      RoundStops(disk, path, m + 1);
    }
  }

  lemma NearestGrows(path: Path, m: nat)
    requires m < |path|
    ensures Nearest(path, m + 1) == Nearest(path, m) + {Above(path, m + 1)}
  {
  }

  lemma AboveIsDir(disk: Disk, path: Path, i: nat)
    requires WellFormed(disk) && 1 <= i <= |path| && Parent(path) in disk.dirs
    ensures Above(path, i) in disk.dirs
  {
    if i > 1 {
      PrefixesAreDirs(disk, Parent(path), |path| - i);
      assert Parent(path)[..|path| - i] == Above(path, i);
    }
  }

  /** Pruning stays inside the two content directories. */
  lemma EmptiedIsShard(disk: Disk, root: Path, path: Path, p: Path)
    requires IsContentPath(root, path) && p in Emptied(disk, path, 3)
    ensures IsShard(root, p) && p != root && |p| > |root| + 1
  {
    AboveContent(root, path, p);
  }

  lemma AboveContent(root: Path, path: Path, p: Path)
    requires IsContentPath(root, path) && p < path
    ensures IsShard(root, p) <==> |root| + 2 <= |p|
  {
    assert p == path[..|p|];
    if |root| + 2 <= |p| {
      assert root == path[..|root|] == p[..|root|];
    }
  }

  lemma PrefixesOf(p: Path, q: Path)
    ensures p in Prefixes(q) <==> p <= q
  {
    if p <= q {
      assert p == q[..|p|];
    }
  }

  /** A shard directory with no file but the one at `path` is pruned with it. */
  lemma UnusedIsEmptied(disk: Disk, root: Path, path: Path, p: Path)
    requires WellFormed(disk) && Tidy(disk, root) && IsContentPath(root, path)
    requires p in disk.dirs || p <= Parent(path)
    requires IsShard(root, p) && HoldsOnly(disk, p, path)
    ensures p in Emptied(WithDirs(disk, Parent(path)), path, 3)
  {
    var made := WithDirs(disk, Parent(path));
    PrefixesOf(p, Parent(path));
    if p in disk.dirs {
      assert HasFile(disk, p);
    }
    assert p < path;
    forall q: Path | Exists(made, q) && p < q
      ensures q <= path
    {
      UnusedBelow(disk, root, path, p, q);
    }
  }

  lemma UnusedBelow(disk: Disk, root: Path, path: Path, p: Path, q: Path)
    requires WellFormed(disk) && Tidy(disk, root) && IsContentPath(root, path)
    requires IsShard(root, p) && HoldsOnly(disk, p, path)
    requires Exists(WithDirs(disk, Parent(path)), q) && p < q
    ensures q <= path
  {
    PrefixesOf(q, Parent(path));
    if q in disk.dirs {
      BelowShard(root, p, q);
      assert HasFile(disk, q);
      var f :| f in disk.files && q < f;
      assert p == q[..|p|] == f[..|p|];
      assert p < f;
    } else if q !in disk.files {
      assert q == Parent(path)[..|q|] == path[..|q|];
    }
  }

  /** The garbage collector's clean-up of one object removes its file and leaves no empty shard behind. */
  lemma CleanupKeepsTidy(disk: Disk, root: Path, path: Path)
    requires WellFormed(disk) && Tidy(disk, root) && IsContentPath(root, path)
    ensures var after := Cleaned(WithDirs(disk, Parent(path)), path, 3);
            && Tidy(after, root)
            && after.files == disk.files - {path}
            && after.dirs <= disk.dirs + Prefixes(path[..|root| + 1])
  {
    var after := Cleaned(WithDirs(disk, Parent(path)), path, 3);
    forall p | p in after.dirs && IsShard(root, p)
      ensures HasFile(after, p)
    {
      PrefixesOf(p, Parent(path));
      if HoldsOnly(disk, p, path) {
        UnusedIsEmptied(disk, root, path, p);
      } else {
        var f: Path :| f in disk.files && p < f && f != path;
        assert f in after.files;
      }
    }
    forall p | p in after.dirs
      ensures p in disk.dirs + Prefixes(path[..|root| + 1])
    {
      if p !in disk.dirs {
        MadeAreUsed(disk, root, path, p);
      }
    }
  }

  /** Of the directories made for an object, those that were not there before go with it, down to the kind's own. */
  lemma MadeAreUsed(disk: Disk, root: Path, path: Path, p: Path)
    requires WellFormed(disk) && Tidy(disk, root) && IsContentPath(root, path)
    requires p in Prefixes(Parent(path)) && p !in disk.dirs
    ensures p in Prefixes(path[..|root| + 1]) || p in Emptied(WithDirs(disk, Parent(path)), path, 3)
  {
    PrefixesOf(p, Parent(path));
    assert p < path;
    AboveContent(root, path, p);
    if |p| <= |root| + 1 {
      PrefixesOf(p, path[..|root| + 1]);
    } else {
      NothingBelowAbsent(disk, p);
      UnusedIsEmptied(disk, root, path, p);
    }
  }

  lemma NothingBelowAbsent(disk: Disk, p: Path)
    requires WellFormed(disk) && p !in disk.dirs
    ensures forall f: Path | f in disk.files :: !(p < f)
  {
    forall f: Path | f in disk.files && p < f
      ensures false
    {
      assert f[..|p|] == p;
      PrefixesAreDirs(disk, f, |p|);
    }
  }

  lemma StoredEmpties(made: Disk, path: Path, content: Bytes)
    ensures Emptied(made.(files := made.files[path := content]), path, 3) == Emptied(made, path, 3)
  {
    var stored := made.(files := made.files[path := content]);
    assert path <= path;
    assert forall q: Path :: Exists(stored, q) <==> Exists(made, q) || q == path;
    forall p: Path
      ensures LeadsOnlyTo(made, p, path) <==> LeadsOnlyTo(stored, p, path)
    {
    }
  }

  lemma KeptDirectory(disk: Disk, root: Path, path: Path, p: Path)
    requires Tidy(disk, root) && IsContentPath(root, path) && path !in disk.files && !Blocked(disk.files, path)
    requires p in disk.dirs
    ensures p !in Emptied(WithDirs(disk, Parent(path)), path, 3)
  {
    var made := WithDirs(disk, Parent(path));
    if p in Emptied(made, path, 3) {
      EmptiedIsShard(made, root, path, p);
      assert HasFile(disk, p);
      var f :| f in disk.files && p < f;
      assert Exists(made, f);
      assert f <= path;
      PrefixIsProper(f, path);
    }
  }

  /** Storing an object and cleaning it up again puts the content directory back as it was. */
  lemma StoreThenCleanup(disk: Disk, root: Path, path: Path, content: Bytes)
    requires WellFormed(disk) && Tidy(disk, root) && IsContentPath(root, path)
    requires !Blocked(disk.files, path) && !Exists(disk, path) && path[..|root| + 1] in disk.dirs
    ensures var made := WithDirs(disk, Parent(path));
            var stored := made.(files := made.files[path := content]);
            Cleaned(WithDirs(stored, Parent(path)), path, 3) == disk
  {
    var made := WithDirs(disk, Parent(path));
    var stored := made.(files := made.files[path := content]);
    assert WithDirs(stored, Parent(path)) == stored;
    assert stored.files - {path} == disk.files;
    StoredEmpties(made, path, content);
    forall p | p in disk.dirs {
      KeptDirectory(disk, root, path, p);
    }
    forall p | p in made.dirs && p !in disk.dirs
      ensures p in Emptied(made, path, 3)
    {
      MadeAreUsed(disk, root, path, p);
      var top := path[..|root| + 1];
      PrefixesOf(p, top);
      if p < top {
        assert top[..|p|] == p;
        PrefixesAreDirs(disk, top, |p|);
      }
      if p <= top {
        PrefixIsProper(p, top);
      }
    }
    assert made.dirs - Emptied(made, path, 3) == disk.dirs;
  }

  // ----- the collector's clean-up of one object -----

  /** The system refuses the file of an object or one of the three directories above it. */
  predicate Refuses(denied: set<Path>, path: Path) {
    exists p | p in denied :: p == path || (p < path && |path| <= |p| + 3)
  }

  ghost function SweptOne(disk: Disk, root: Path, k: Kind, d: Digest, denied: set<Path>): Disk {
    if |d.hash| < 6 then disk
    else AfterCleanup(WithDirs(disk, ShardDir(root, k, d)), ContentPath(root, k, d), denied)
  }

  ghost predicate SweepFails(disk: Disk, root: Path, k: Kind, d: Digest, denied: set<Path>) {
    |d.hash| >= 6 && CleanupFails(WithDirs(disk, ShardDir(root, k, d)), ContentPath(root, k, d), denied)
  }

  /** Find an object's path and clean it up. */
  method CleanupContent(disk: FileStore, k: Kind, d: Digest, denied: set<Path>) returns (ok: bool)
    requires WellFormed(disk.Contents()) && |d.hash| >= 6 && !Blocked(disk.files, ContentPath(disk.root, k, d))
    modifies disk
    ensures WellFormed(disk.Contents())
    ensures ok <==> !CleanupFails(WithDirs(old(disk.Contents()), ShardDir(disk.root, k, d)),
                                  ContentPath(disk.root, k, d), denied)
    ensures ok ==> disk.Contents() == Cleaned(WithDirs(old(disk.Contents()), ShardDir(disk.root, k, d)),
                                              ContentPath(disk.root, k, d), 3)
    ensures disk.Contents() == SweptOne(old(disk.Contents()), disk.root, k, d, denied)
  {
    ContentPathIs(disk.root, k, d);
    BlockedBelow(disk.files, ShardDir(disk.root, k, d), d.hash[6..]);
    WithDirsWellFormed(disk.Contents(), ShardDir(disk.root, k, d));
    var path := disk.GetPath(k, d);
    ok := disk.CleanupObject(path.value, denied);
  }

  /** What one clean-up does and does not do to the files and directories, whether it fails or not. */
  lemma SweptOneMeans(disk: Disk, root: Path, k: Kind, d: Digest, denied: set<Path>)
    requires WellFormed(disk) && |d.hash| >= 6 && !Blocked(disk.files, ContentPath(root, k, d))
    ensures var path, after, fails := ContentPath(root, k, d), SweptOne(disk, root, k, d, denied),
                                      SweepFails(disk, root, k, d, denied);
            && (after.files == disk.files || after.files == disk.files - {path})
            && (!fails ==> path !in after.files)
            && (path in denied ==> after.files == disk.files)
            && (fails ==> path in disk.dirs || Refuses(denied, path))
            && (forall p | p in after.dirs :: p in disk.dirs || (p < path && |p| <= |root| + 4))
            && (forall p | p in disk.dirs && p !in after.dirs :: IsShard(root, p) && p !in denied)
  {
    SweptOneDirs(disk, root, k, d, denied);
    if SweepFails(disk, root, k, d, denied) {
      SweptOneFails(disk, root, k, d, denied);
    }
  }

  /**
    Exactly what one clean-up leaves, failed or not. The file goes unless it is refused; then a directory of the
    three above it stands only if it holds something else, or it or one below it is refused.
   */
  lemma SweptOneExactly(disk: Disk, root: Path, k: Kind, d: Digest, denied: set<Path>, p: Path)
    requires WellFormed(disk) && |d.hash| >= 6 && !Blocked(disk.files, ContentPath(root, k, d))
    ensures var path, after := ContentPath(root, k, d), SweptOne(disk, root, k, d, denied);
            && after.files == (if path in disk.dirs || path in denied then disk.files else disk.files - {path})
            && (p in after.dirs <==>
                  if p < path && |path| <= |p| + 3 then
                    || path in disk.dirs || (path in disk.files && path in denied)
                    || (exists q :: Exists(disk, q) && p < q && !(q <= path))
                    || (exists q :: q in denied && p <= q && q < path)
                  else p in disk.dirs || p < path)
  {
    var path, made := ContentPath(root, k, d), WithDirs(disk, ShardDir(root, k, d));
    ContentPathIs(root, k, d);
    forall q: Path
      ensures q in made.dirs <==> q in disk.dirs || q < path
    {
      PrefixesOf(q, ShardDir(root, k, d));
      PrefixOfLonger(q, ShardDir(root, k, d), d.hash[6..]);
    }
    if p < path && |path| <= |p| + 3 {
      forall q: Path | p < q
        ensures Exists(disk, q) ==> Exists(made, q)
        ensures Exists(made, q) ==> Exists(disk, q) || q <= path
      {
      }
      assert LeadsOnlyTo(made, p, path) <==> LeadsOnlyTo(disk, p, path);
      if LeadsOnlyTo(disk, p, path) {
        forall q | p <= q && q < path
          ensures q in Emptied(made, path, 3)
        {
          DeeperLeadsToo(made, p, q, path);
        }
      }
    }
  }

  lemma SweptOneDirs(disk: Disk, root: Path, k: Kind, d: Digest, denied: set<Path>)
    requires |d.hash| >= 6
    ensures var path, after := ContentPath(root, k, d), SweptOne(disk, root, k, d, denied);
            && (forall p | p in after.dirs :: p in disk.dirs || (p < path && |p| <= |root| + 4))
            && (forall p | p in disk.dirs && p !in after.dirs :: IsShard(root, p) && p !in denied)
  {
    var path, made := ContentPath(root, k, d), WithDirs(disk, ShardDir(root, k, d));
    ContentPathIs(root, k, d);
    forall p | p in Prefixes(ShardDir(root, k, d)) {
      ShardPrefix(root, k, d, p);
    }
    forall p | p in PrunedUntil(made, path, denied)
      ensures IsShard(root, p) && p !in denied
    {
      EmptiedIsShard(made, root, path, p);
      assert p <= p;
    }
  }

  lemma SweptOneFails(disk: Disk, root: Path, k: Kind, d: Digest, denied: set<Path>)
    requires |d.hash| >= 6 && !Blocked(disk.files, ContentPath(root, k, d)) && SweepFails(disk, root, k, d, denied)
    ensures ContentPath(root, k, d) in disk.dirs || Refuses(denied, ContentPath(root, k, d))
  {
    var path, made := ContentPath(root, k, d), WithDirs(disk, ShardDir(root, k, d));
    if path in Prefixes(ShardDir(root, k, d)) {
      ShardPrefix(root, k, d, path);
    } else if !(Emptied(made, path, 3) !! denied) {
      var p :| p in Emptied(made, path, 3) && p in denied;
      assert p < path && |path| <= |p| + 3;
    }
  }

  lemma ShardPrefix(root: Path, k: Kind, d: Digest, p: Path)
    requires |d.hash| >= 6 && p in Prefixes(ShardDir(root, k, d))
    ensures p < ContentPath(root, k, d) && |p| <= |root| + 4
  {
    PrefixesOf(p, ShardDir(root, k, d));
    PrefixOfLonger(p, ShardDir(root, k, d), d.hash[6..]);
  }

  /** Where the system refuses nothing, a clean-up leaves no empty shard behind. */
  lemma SweptOneTidy(disk: Disk, root: Path, k: Kind, d: Digest)
    requires WellFormed(disk) && Tidy(disk, root) && |d.hash| >= 6 && !Blocked(disk.files, ContentPath(root, k, d))
    ensures Tidy(SweptOne(disk, root, k, d, {}), root)
  {
    var path, made := ContentPath(root, k, d), WithDirs(disk, ShardDir(root, k, d));
    ContentPathIs(root, k, d);
    forall p | p in Prefixes(ShardDir(root, k, d)) {
      ShardPrefix(root, k, d, p);
    }
    if path in disk.dirs {
      forall p | p in Prefixes(ShardDir(root, k, d))
        ensures p in disk.dirs
      {
        assert p == path[..|p|];
        PrefixesAreDirs(disk, path, |p|);
      }
      assert made.dirs == disk.dirs;
    } else {
      AllPruned(made, path, {});
      CleanupKeepsTidy(disk, root, path);
    }
  }

  lemma SweptOneWellFormed(disk: Disk, root: Path, k: Kind, d: Digest, denied: set<Path>)
    requires WellFormed(disk) && |d.hash| >= 6 && !Blocked(disk.files, ContentPath(root, k, d))
    ensures WellFormed(SweptOne(disk, root, k, d, denied))
  {
    var path, made := ContentPath(root, k, d), WithDirs(disk, ShardDir(root, k, d));
    BlockedBelow(disk.files, ShardDir(root, k, d), d.hash[6..]);
    WithDirsWellFormed(disk, ShardDir(root, k, d));
    if path !in made.dirs {
      AfterCleanupWellFormed(made, path, denied);
    }
  }

  lemma AfterCleanupWellFormed(disk: Disk, path: Path, denied: set<Path>)
    requires WellFormed(disk) && |path| > 3 && path !in disk.dirs && !Blocked(disk.files, path)
    ensures WellFormed(AfterCleanup(disk, path, denied))
  {
    var after, gone := AfterCleanup(disk, path, denied), PrunedUntil(disk, path, denied);
    forall q: Path | Exists(after, q) && q != []
      ensures q[..|q| - 1] in after.dirs
    {
      var p := q[..|q| - 1];
      assert Exists(disk, q) && p < q;
      if p in gone && after != disk {
        DeeperLeadsToo(disk, p, q, path);
        assert q <= path;
        PrefixIsProper(q, path);
        DeeperPruned(disk, path, denied, p, q);
      }
    }
  }

  lemma DeeperPruned(disk: Disk, path: Path, denied: set<Path>, p: Path, q: Path)
    requires p in PrunedUntil(disk, path, denied) && p <= q && q in Emptied(disk, path, 3)
    ensures q in PrunedUntil(disk, path, denied)
  {
    forall r | r in Emptied(disk, path, 3) && q <= r
      ensures r !in denied
    {
      assert p == q[..|p|] == r[..|p|];
      assert p <= r;
    }
  }
}
