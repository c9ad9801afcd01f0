/**
  A quiet cluster: members that only mirror from each other (`src/mirror.rs`). Transfers are committed to
  one log; each member applies it at its own pace and decides from its own, possibly stale, view. A member
  that lags may be sent a snapshot instead, which ends its mirror loops until it is restarted.
 */
module MirrorCluster {
  import opened Types
  import opened StateMachine
  import opened Replication
  import opened Snapshot
  import opened Mirror

  datatype Cluster = Cluster(start: Trees, log: seq<Action>, applied: map<NodeId, nat>,
                             pending: map<NodeId, PendingSets>, mirroring: set<NodeId>)

  datatype PendingSets = PendingSets(blobs: set<Digest>, manifests: set<Digest>) {
    function Of(k: Kind): set<Digest> {
      match k case BlobKind => blobs case ManifestKind => manifests
    }
  }

  datatype Move =
    | Transfer(node: NodeId, request: MirrorRequest, now: int)
    | Apply(node: NodeId)
    | ReceiveSnapshot(node: NodeId, upTo: nat)
    | StartAgain(node: NodeId)

  function Replayed(s: Trees, acts: seq<Action>): Trees {
    if Run(s, acts).Done? then Run(s, acts).value else s
  }

  /** What the whole log says, and what a member has seen of it. */
  function Committed(c: Cluster): Trees {
    Replayed(c.start, c.log)
  }

  function View(c: Cluster, n: NodeId): Trees
    requires n in c.applied
  {
    Replayed(c.start, if c.applied[n] <= |c.log| then c.log[..c.applied[n]] else c.log)
  }

  function RequestOf(k: Kind, d: Digest): MirrorRequest {
    match k case BlobKind => Blob(d) case ManifestKind => Manifest(d)
  }

  /** The pending sets that a start or an installation computes from what the member then holds. */
  function Recomputed(c: Cluster, n: NodeId): PendingSets
    requires n in c.applied
  {
    PendingSets(Recompute(View(c, n).blobs, n), Recompute(View(c, n).manifests, n))
  }

  /**
    A member whose mirror loops run may transfer what is pending for it, unless its own view has the record
    absent, held or without a source among the members. Any member may apply the next entry of the log,
    install a snapshot of a longer part of it than it has applied, or be restarted.
   */
  predicate Enabled(c: Cluster, m: Move) {
    && m.node in c.applied && m.node in c.pending
    && match m
       case Apply(n) => c.applied[n] < |c.log|
       case ReceiveSnapshot(n, upTo) => c.applied[n] < upTo <= |c.log|
       case StartAgain(n) => true
       case Transfer(n, r, _) =>
         && n in c.mirroring
         && r.digest in c.pending[n].Of(r.Kind())
         && Wanted(View(c, n).Of(r.Kind()), n, r.digest)
         && View(c, n).Of(r.Kind())[r.digest].locations * c.applied.Keys != {}
  }

  predicate ProposedBy(a: Action, n: NodeId) {
    TargetOf(a).Object? && TargetOf(a).change.Stored? && TargetOf(a).change.node == n
  }

  predicate Copies(a: Action, k: Kind, d: Digest, n: NodeId) {
    ProposedBy(a, n) && TargetOf(a).kind == k && TargetOf(a).digest == d
  }

  /** The member has committed a copy of the object that it has not applied yet. */
  predicate Outstanding(c: Cluster, n: NodeId, k: Kind, d: Digest)
    requires n in c.applied
  {
    exists i | c.applied[n] <= i < |c.log| :: Copies(c.log[i], k, d, n)
  }

  /** The transfer of an object that the member has committed a copy of already, and not seen to be so. */
  predicate Repeats(c: Cluster, m: Move)
    requires m.node in c.applied
  {
    m.Transfer? && Outstanding(c, m.node, m.request.Kind(), m.request.digest)
  }

  function Next(c: Cluster, m: Move): Cluster
    requires Enabled(c, m)
  {
    match m
    case Transfer(n, r, now) => c.(log := c.log + [r.Success(n, now).action])
    case Apply(n) =>
      var a := c.log[c.applied[n]];
      var seen := c.(applied := c.applied[n := c.applied[n] + 1]);
      var p := c.pending[n];
      seen.(pending := c.pending[n :=
        PendingSets(RefreshAll(p.blobs, View(seen, n).blobs, n, BlobKind, [a]),
                    RefreshAll(p.manifests, View(seen, n).manifests, n, ManifestKind, [a]))])
    case ReceiveSnapshot(n, upTo) =>
      var seen := c.(applied := c.applied[n := upTo]);
      seen.(pending := c.pending[n := Recomputed(seen, n)], mirroring := c.mirroring - {n})
    case StartAgain(n) =>
      c.(pending := c.pending[n := Recomputed(c, n)], mirroring := c.mirroring + {n})
  }

  /** When a member may transfer an object, in the terms of its own view, and what each move changes. */
  lemma MoveMeans(c: Cluster, m: Move)
    requires m.node in c.applied && m.node in c.pending
    ensures m.Transfer? ==>
              var tree, waiting := if m.request.Blob? then View(c, m.node).blobs else View(c, m.node).manifests,
                                   if m.request.Blob? then c.pending[m.node].blobs else c.pending[m.node].manifests;
              Enabled(c, m) <==>
              && m.node in c.mirroring && m.request.digest in waiting && m.request.digest in tree
              && m.node !in tree[m.request.digest].locations
              && exists n :: n in tree[m.request.digest].locations && n in c.applied
    ensures m.Apply? ==> (Enabled(c, m) <==> c.applied[m.node] < |c.log|)
    ensures m.ReceiveSnapshot? ==> (Enabled(c, m) <==> c.applied[m.node] < m.upTo <= |c.log|)
    ensures m.StartAgain? ==> Enabled(c, m)
    ensures Enabled(c, m) && m.Transfer? ==>
              Next(c, m) == c.(log := c.log + [
                if m.request.Blob? then BlobStored(m.now, m.request.digest, m.node, "$internal")
                else ManifestStored(m.now, m.request.digest, m.node, "$internal")])
    ensures Enabled(c, m) && !m.Transfer? ==>
              var e := Next(c, m);
              && e.log == c.log && e.start == c.start
              && e.applied == c.applied[m.node := if m.Apply? then c.applied[m.node] + 1
                                                  else if m.ReceiveSnapshot? then m.upTo else c.applied[m.node]]
              && (forall n | n in c.pending && n != m.node :: n in e.pending && e.pending[n] == c.pending[n])
              && e.mirroring == (if m.ReceiveSnapshot? then c.mirroring - {m.node}
                                 else if m.StartAgain? then c.mirroring + {m.node} else c.mirroring)
  {
    if m.Transfer? {
      var r, tree := m.request, View(c, m.node).Of(m.request.Kind());
      if r.digest in tree && (exists n :: n in tree[r.digest].locations && n in c.applied) {
        var n :| n in tree[r.digest].locations && n in c.applied;
        assert n in tree[r.digest].locations * c.applied.Keys;
      }
    }
  }

  // ----- what a quiet log does -----

  /** Every entry adds a copy, at a member, of an object present from the start. */
  ghost predicate OnlyCopies(s: Trees, acts: seq<Action>, members: set<NodeId>) {
    forall a | a in acts :: IsCopy(s, a, members)
  }

  predicate IsCopy(s: Trees, a: Action, members: set<NodeId>) {
    && TargetOf(a).Object? && TargetOf(a).change.Stored?
    && TargetOf(a).change.node in members && TargetOf(a).digest in s.Of(TargetOf(a).kind)
  }

  ghost predicate Copied(acts: seq<Action>, k: Kind, d: Digest, n: NodeId) {
    exists i | 0 <= i < |acts| :: Copies(acts[i], k, d, n)
  }

  /** A quiet log never panics, keeps every object, and adds exactly the copies it names. */
  lemma {:induction false} QuietRun(s: Trees, acts: seq<Action>, members: set<NodeId>, k: Kind, d: Digest)
    requires OnlyCopies(s, acts, members)
    ensures Run(s, acts).Done?
    ensures var t := Run(s, acts).value;
            && (d in t.Of(k) <==> d in s.Of(k))
            && (d in s.Of(k) ==> forall n ::
                  n in t.Of(k)[d].locations <==> n in s.Of(k)[d].locations || Copied(acts, k, d, n))
  {
    if acts != [] {
      var init, a := acts[..|acts| - 1], acts[|acts| - 1];
      assert IsCopy(s, a, members);
      QuietRun(s, init, members, k, d);
      QuietRun(s, init, members, TargetOf(a).kind, TargetOf(a).digest);
      forall n
        ensures Copied(acts, k, d, n) <==> Copied(init, k, d, n) || Copies(a, k, d, n)
      {
        CopiedSnoc(acts, k, d, n);
      }
      var mid := Run(s, init).value;
      assert mid.Get(TargetOf(a).kind, TargetOf(a).digest).Some?;
    }
  }

  lemma CopiedSnoc(acts: seq<Action>, k: Kind, d: Digest, n: NodeId)
    requires acts != []
    ensures Copied(acts, k, d, n) <==> Copied(acts[..|acts| - 1], k, d, n) || Copies(acts[|acts| - 1], k, d, n)
  {
    var init := acts[..|acts| - 1];
    if Copied(init, k, d, n) {
      var i :| 0 <= i < |init| && Copies(init[i], k, d, n);
      assert Copies(acts[i], k, d, n);
    }
    if Copied(acts, k, d, n) {
      var i :| 0 <= i < |acts| && Copies(acts[i], k, d, n);
      assert i < |init| ==> Copies(init[i], k, d, n);
    }
  }

  /** A move that is enabled and does not repeat a transfer. */
  predicate Permitted(c: Cluster, m: Move) {
    Enabled(c, m) && !Repeats(c, m)
  }

  // ----- the invariant -----

  ghost predicate Inv(c: Cluster) {
    && c.pending.Keys == c.applied.Keys && c.mirroring <= c.applied.Keys
    && OnlyCopies(c.start, c.log, c.applied.Keys)
    && (forall n | n in c.applied :: c.applied[n] <= |c.log|)
    && (forall n, k | n in c.applied :: PendingAgrees(c.pending[n].Of(k), View(c, n).Of(k), n))
  }

  lemma ViewIsQuiet(c: Cluster, n: NodeId, k: Kind, d: Digest)
    requires Inv(c) && n in c.applied
    ensures Run(c.start, c.log[..c.applied[n]]) == Done(View(c, n)) && Run(c.start, c.log) == Done(Committed(c))
    ensures d in View(c, n).Of(k) <==> d in Committed(c).Of(k)
    ensures d in Committed(c).Of(k) ==> View(c, n).Of(k)[d].locations <= Committed(c).Of(k)[d].locations
    ensures d in Committed(c).Of(k) ==>
              (n in Committed(c).Of(k)[d].locations <==>
               n in View(c, n).Of(k)[d].locations || Outstanding(c, n, k, d))
  {
    var seen := c.log[..c.applied[n]];
    assert forall a | a in seen :: a in c.log;
    QuietRun(c.start, seen, c.applied.Keys, k, d);
    QuietRun(c.start, c.log, c.applied.Keys, k, d);
    forall m | Copied(seen, k, d, m)
      ensures Copied(c.log, k, d, m)
    {
      var i :| 0 <= i < |seen| && Copies(seen[i], k, d, m);
      assert Copies(c.log[i], k, d, m);
    }
    if Copied(c.log, k, d, n) && !Outstanding(c, n, k, d) {
      var i :| 0 <= i < |c.log| && Copies(c.log[i], k, d, n);
      assert Copies(seen[i], k, d, n);
    }
  }

  lemma TransferKeepsInv(c: Cluster, m: Move)
    requires Inv(c) && Enabled(c, m) && m.Transfer?
    ensures Inv(Next(c, m))
  {
    var e := Next(c, m);
    ViewIsQuiet(c, m.node, m.request.Kind(), m.request.digest);
    QuietRun(c.start, c.log, c.applied.Keys, m.request.Kind(), m.request.digest);
    assert IsCopy(c.start, m.request.Success(m.node, m.now).action, c.applied.Keys);
    forall n | n in c.applied
      ensures View(e, n) == View(c, n)
    {
      assert e.log[..c.applied[n]] == c.log[..c.applied[n]];
    }
  }

  lemma LocalKeepsInv(c: Cluster, m: Move)
    requires Inv(c) && Enabled(c, m) && !m.Transfer?
    ensures Inv(Next(c, m))
  {
    var e := Next(c, m);
    forall n, k | n in e.applied
      ensures PendingAgrees(e.pending[n].Of(k), View(e, n).Of(k), n)
    {
      if n != m.node {
        assert View(e, n) == View(c, n);
      } else if m.Apply? {
        AppliedPending(c, m, k);
      } else {
        RecomputeAgrees(View(e, n).Of(k), n);
      }
    }
  }

  /** In a quiet cluster an installation loses nothing and leaves nothing stale: the trees are the snapshot's. */
  lemma InstallIsExact(c: Cluster, m: Move, k: Kind)
    requires Inv(c) && Enabled(c, m) && m.ReceiveSnapshot?
    ensures View(c, m.node).Of(k) + View(Next(c, m), m.node).Of(k) == View(Next(c, m), m.node).Of(k)
  {
    LocalKeepsInv(c, m);
    forall d
      ensures d in View(c, m.node).Of(k) <==> d in View(Next(c, m), m.node).Of(k)
    {
      ViewIsQuiet(c, m.node, k, d);
      ViewIsQuiet(Next(c, m), m.node, k, d);
    }
  }

  lemma AppliedPending(c: Cluster, m: Move, k: Kind)
    requires Inv(c) && Enabled(c, m) && m.Apply?
    ensures var e := Next(c, m); PendingAgrees(e.pending[m.node].Of(k), View(e, m.node).Of(k), m.node)
  {
    AppliedView(c, m.node);
    BatchKeepsPending(c.pending[m.node].Of(k), View(c, m.node), [c.log[c.applied[m.node]]], k, m.node);
  }

  lemma AppliedView(c: Cluster, n: NodeId)
    requires Inv(c) && n in c.applied && c.applied[n] < |c.log|
    ensures Run(View(c, n), [c.log[c.applied[n]]]) == Done(Replayed(c.start, c.log[..c.applied[n] + 1]))
  {
    var i := c.applied[n];
    var seen, more := c.log[..i], c.log[..i + 1];
    assert more == seen + [c.log[i]];
    assert forall a | a in seen || a in more :: a in c.log;
    var d := TargetOf(c.log[i]);
    assert IsCopy(c.start, c.log[i], c.applied.Keys);
    QuietRun(c.start, seen, c.applied.Keys, d.kind, d.digest);
    QuietRun(c.start, more, c.applied.Keys, d.kind, d.digest);
    RunAppend(c.start, seen, [c.log[i]]);
  }

  // ----- progress -----

  /** Some member has the object, and member `n` does not. */
  ghost predicate Lacks(c: Cluster, n: NodeId, k: Kind, d: Digest) {
    && n in c.applied && d in Committed(c).Of(k)
    && n !in Committed(c).Of(k)[d].locations && Committed(c).Of(k)[d].locations * c.applied.Keys != {}
  }

  ghost function Missing(c: Cluster): set<(NodeId, Kind, Digest)> {
    set n, k, d | n in c.applied && d in Committed(c).Of(k) && Lacks(c, n, k, d) :: (n, k, d)
  }

  /** Log entries a member has yet to apply. */
  ghost function Lag(c: Cluster): set<(NodeId, int)> {
    set n, i | n in c.applied && c.applied[n] <= i < |c.log| :: (n, i)
  }

  /**
    A member that lacks what another has can catch up or transfer it, if and only if it lags behind or its
    mirror loops still run.
   */
  lemma LackingMemberCanMoveIff(c: Cluster, n: NodeId, k: Kind, d: Digest, now: int)
    requires Inv(c) && Lacks(c, n, k, d)
    ensures Permitted(c, Apply(n)) || Permitted(c, Transfer(n, RequestOf(k, d), now)) <==>
            c.applied[n] < |c.log| || n in c.mirroring
  {
    if c.applied[n] == |c.log| {
      assert c.log[..|c.log|] == c.log;
      assert View(c, n) == Committed(c);
      assert PendingAgrees(c.pending[n].Of(k), View(c, n).Of(k), n);
      assert d in Recompute(View(c, n).Of(k), n);
    }
  }

  lemma CommittedAfter(c: Cluster, m: Move, k: Kind, d: Digest)
    requires Inv(c) && Enabled(c, m) && m.Transfer?
    ensures var t, u := Committed(c).Of(k), Committed(Next(c, m)).Of(k);
            && (d in u <==> d in t)
            && (d in t ==>
                  (u[d].locations == t[d].locations +
                   if k == m.request.Kind() && d == m.request.digest then {m.node} else {}))
  {
    var e := Next(c, m);
    TransferKeepsInv(c, m);
    QuietRun(c.start, c.log, c.applied.Keys, k, d);
    QuietRun(e.start, e.log, e.applied.Keys, k, d);
    assert e.log[..|e.log| - 1] == c.log;
    if d in Committed(c).Of(k) {
      forall n
        ensures n in Committed(e).Of(k)[d].locations <==>
                n in Committed(c).Of(k)[d].locations || (k == m.request.Kind() && d == m.request.digest && n == m.node)
      {
        CopiedSnoc(e.log, k, d, n);
      }
    }
  }

  /** A transfer never makes anything missing, however stale the view that led to it. */
  lemma TransferMissing(c: Cluster, m: Move)
    requires Inv(c) && Enabled(c, m) && m.Transfer?
    ensures Missing(Next(c, m)) == Missing(c) - {(m.node, m.request.Kind(), m.request.digest)}
  {
    var e, rk, rd := Next(c, m), m.request.Kind(), m.request.digest;
    ViewIsQuiet(c, m.node, rk, rd);
    assert Committed(c).Of(rk)[rd].locations * c.applied.Keys != {} by {
      var source :| source in View(c, m.node).Of(rk)[rd].locations * c.applied.Keys;
      assert source in Committed(c).Of(rk)[rd].locations * c.applied.Keys;
    }
    forall n: NodeId, k: Kind, d: Digest
      ensures Lacks(e, n, k, d) <==> Lacks(c, n, k, d) && (n, k, d) != (m.node, rk, rd)
    {
      CommittedAfter(c, m, k, d);
      if d in Committed(c).Of(k) {
        assert Committed(e).Of(k)[d].locations * e.applied.Keys != {} <==>
               Committed(c).Of(k)[d].locations * c.applied.Keys != {} by {
          if source :| source in Committed(c).Of(k)[d].locations * c.applied.Keys {
            assert source in Committed(e).Of(k)[d].locations * e.applied.Keys;
          }
        }
      }
    }
  }

  /** A transfer supplies something missing if and only if it does not repeat one still outstanding. */
  lemma TransferSuppliesIff(c: Cluster, m: Move)
    requires Inv(c) && Enabled(c, m) && m.Transfer?
    ensures (m.node, m.request.Kind(), m.request.digest) in Missing(c) <==> !Repeats(c, m)
  {
    var k, d := m.request.Kind(), m.request.digest;
    ViewIsQuiet(c, m.node, k, d);
    var source :| source in View(c, m.node).Of(k)[d].locations * c.applied.Keys;
    assert source in Committed(c).Of(k)[d].locations * c.applied.Keys;
    assert Lacks(c, m.node, k, d) <==> !Repeats(c, m);
  }

  lemma ViewsStay(c: Cluster, m: Move, n: NodeId)
    requires Inv(c) && Enabled(c, m) && m.Transfer? && n in c.applied
    ensures View(Next(c, m), n) == View(c, n)
  {
    assert Next(c, m).log[..c.applied[n]] == c.log[..c.applied[n]];
  }

  /** A pass over a pending set transfers one object after another, its own copies unapplied: none of it repeats. */
  lemma PassDoesNotRepeat(c: Cluster, first: Move, second: Move)
    requires Inv(c) && Permitted(c, first) && Permitted(c, second) && first.Transfer? && second.Transfer?
    requires first.node != second.node || first.request != second.request
    ensures Permitted(Next(c, first), second)
  {
    ViewsStay(c, first, second.node);
    OutstandingAfter(c, first, second.node, second.request.Kind(), second.request.digest);
  }

  lemma OutstandingAfter(c: Cluster, m: Move, n: NodeId, k: Kind, d: Digest)
    requires Inv(c) && Enabled(c, m) && m.Transfer? && n in c.applied
    ensures Outstanding(Next(c, m), n, k, d) <==>
            Outstanding(c, n, k, d) || (n == m.node && k == m.request.Kind() && d == m.request.digest)
  {
    var e := Next(c, m);
    if Outstanding(c, n, k, d) {
      var i :| c.applied[n] <= i < |c.log| && Copies(c.log[i], k, d, n);
      assert Copies(e.log[i], k, d, n);
    }
    if Outstanding(e, n, k, d) {
      var i :| e.applied[n] <= i < |e.log| && Copies(e.log[i], k, d, n);
      assert i < |c.log| ==> Copies(c.log[i], k, d, n);
    }
    assert Copies(e.log[|c.log|], m.request.Kind(), m.request.digest, m.node);
  }

  /** Until it applies its own copy a member may transfer the object again, and that supplies nothing. */
  lemma SameTransferRepeats(c: Cluster, m: Move)
    requires Inv(c) && Enabled(c, m) && m.Transfer?
    ensures var e := Next(c, m);
            Enabled(e, m) && Repeats(e, m) && Missing(Next(e, m)) == Missing(e)
  {
    var e := Next(c, m);
    ViewsStay(c, m, m.node);
    OutstandingAfter(c, m, m.node, m.request.Kind(), m.request.digest);
    TransferKeepsInv(c, m);
    TransferMissing(e, m);
    TransferSuppliesIff(e, m);
  }

  // ----- convergence -----

  ghost function Potential(c: Cluster): nat {
    |Missing(c)| * (|c.applied| + 1) + |Lag(c)|
  }

  ghost function Pairs(s: set<NodeId>, i: int): set<(NodeId, int)> {
    set n | n in s :: (n, i)
  }

  lemma {:induction false} PairsCount(s: set<NodeId>, i: int)
    ensures |Pairs(s, i)| == |s|
  {
    if s == {} {
      assert Pairs(s, i) == {};
    } else {
      var x :| x in s;
      PairsCount(s - {x}, i);
      assert Pairs(s, i) == Pairs(s - {x}, i) + {(x, i)};
      assert (x, i) !in Pairs(s - {x}, i);
    }
  }

  lemma LagAfterTransfer(c: Cluster, m: Move)
    requires Inv(c) && Enabled(c, m) && m.Transfer?
    ensures |Lag(Next(c, m))| == |Lag(c)| + |c.applied|
  {
    var added := Pairs(c.applied.Keys, |c.log|);
    PairsCount(c.applied.Keys, |c.log|);
    assert Lag(Next(c, m)) == Lag(c) + added;
    assert Lag(c) !! added;
    assert |c.applied.Keys| == |c.applied|;
  }

  /** Moves other than transfers supply nothing; they shorten what is to be applied, a restart apart. */
  lemma LocalLowersLag(c: Cluster, m: Move)
    requires Inv(c) && Enabled(c, m) && !m.Transfer?
    ensures Missing(Next(c, m)) == Missing(c)
    ensures |Next(c, m).applied| == |c.applied|
    ensures m.Apply? ==> |Lag(Next(c, m))| == |Lag(c)| - 1
    ensures m.ReceiveSnapshot? ==> |Lag(Next(c, m))| < |Lag(c)|
    ensures m.StartAgain? ==> |Lag(Next(c, m))| == |Lag(c)|
  {
    var e := Next(c, m);
    SameSize(e.applied, c.applied);
    if m.Apply? {
      ApplyLag(c, m);
    } else if m.ReceiveSnapshot? {
      SnapshotLag(c, m);
    } else {
      assert Lag(e) == Lag(c);
    }
    forall n: NodeId, k: Kind, d: Digest
      ensures Lacks(e, n, k, d) <==> Lacks(c, n, k, d)
    {
    }
  }

  lemma ApplyLag(c: Cluster, m: Move)
    requires Inv(c) && Enabled(c, m) && m.Apply?
    ensures |Lag(Next(c, m))| == |Lag(c)| - 1
  {
    var e, first := Next(c, m), (m.node, c.applied[m.node]);
    assert Lag(c) == Lag(e) + {first};
    assert first !in Lag(e);
  }

  lemma SnapshotLag(c: Cluster, m: Move)
    requires Inv(c) && Enabled(c, m) && m.ReceiveSnapshot?
    ensures |Lag(Next(c, m))| < |Lag(c)|
  {
    var e, first := Next(c, m), (m.node, c.applied[m.node]);
    assert first in Lag(c) && first !in Lag(e);
    assert Lag(e) <= Lag(c) - {first};
    FewerPairs(Lag(e), Lag(c) - {first});
  }

  lemma {:induction false} FewerPairs(a: set<(NodeId, int)>, b: set<(NodeId, int)>)
    requires a <= b
    ensures |a| <= |b|
  {
    if a != {} {
      var x :| x in a;
      FewerPairs(a - {x}, b - {x});
    }
  }

  lemma SameSize(a: map<NodeId, nat>, b: map<NodeId, nat>)
    requires a.Keys == b.Keys
    ensures |a| == |b|
  {
    assert |a| == |a.Keys| && |b| == |b.Keys|;
  }

  lemma OneFewer(missing: int, missingAfter: int, members: int, membersAfter: int)
    requires membersAfter == members
    ensures missingAfter == missing ==> missingAfter * (membersAfter + 1) == missing * (members + 1)
    ensures missingAfter == missing - 1 ==>
              missingAfter * (membersAfter + 1) == missing * (members + 1) - members - 1
  {
  }

  /** What a move leaves of the potential, at most: one less, or, for a repeated transfer, one more for everybody. */
  ghost function Left(c: Cluster, m: Move): int
    requires m.node in c.applied
  {
    Potential(c) + if Repeats(c, m) then |c.applied| else if m.StartAgain? then 0 else -1
  }

  lemma MissingAfterTransfer(c: Cluster, m: Move)
    requires Inv(c) && Enabled(c, m) && m.Transfer?
    ensures |Missing(Next(c, m))| == |Missing(c)| - if Repeats(c, m) then 0 else 1
    ensures |Next(c, m).applied| == |c.applied|
  {
    TransferMissing(c, m);
    TransferSuppliesIff(c, m);
    WithoutOne(Missing(c), (m.node, m.request.Kind(), m.request.digest));
  }

  lemma WithoutOne<T>(s: set<T>, x: T)
    ensures |s - {x}| == |s| - if x in s then 1 else 0
  {
    if x !in s {
      assert s - {x} == s;
    }
  }

  lemma TransferPotential(c: Cluster, m: Move)
    requires Inv(c) && Enabled(c, m) && m.Transfer?
    ensures Potential(Next(c, m)) == Left(c, m)
  {
    var e := Next(c, m);
    MissingAfterTransfer(c, m);
    LagAfterTransfer(c, m);
    OneFewer(|Missing(c)|, |Missing(e)|, |c.applied|, |e.applied|);
  }

  lemma LocalPotential(c: Cluster, m: Move)
    requires Inv(c) && Enabled(c, m) && !m.Transfer?
    ensures Potential(Next(c, m)) <= Left(c, m) && (!m.ReceiveSnapshot? ==> Potential(Next(c, m)) == Left(c, m))
  {
    LocalLowersLag(c, m);
    assert |Missing(Next(c, m))| * (|Next(c, m).applied| + 1) == |Missing(c)| * (|c.applied| + 1);
  }

  /**
    Every move keeps the invariant. A transfer or an applied entry uses up one unit of the potential exactly
    if it is not a repeated transfer, an installation at least one, and a restart none.
   */
  lemma MoveChangesPotential(c: Cluster, m: Move)
    requires Inv(c) && Enabled(c, m)
    ensures Inv(Next(c, m)) && Next(c, m).start == c.start && Next(c, m).applied.Keys == c.applied.Keys
    ensures Potential(Next(c, m)) <= Left(c, m) && (!m.ReceiveSnapshot? ==> Potential(Next(c, m)) == Left(c, m))
  {
    if m.Transfer? {
      TransferKeepsInv(c, m);
      TransferPotential(c, m);
    } else {
      LocalKeepsInv(c, m);
      LocalPotential(c, m);
    }
  }

  ghost predicate IsRun(c: Cluster, ms: seq<Move>)
    decreases |ms|, 0
  {
    ms == [] || (IsRun(c, ms[..|ms| - 1]) && Enabled(After(c, ms[..|ms| - 1]), ms[|ms| - 1]))
  }

  ghost function After(c: Cluster, ms: seq<Move>): Cluster
    requires IsRun(c, ms)
    decreases |ms|, 1
  {
    if ms == [] then c else Next(After(c, ms[..|ms| - 1]), ms[|ms| - 1])
  }

  /** Which moves of a run repeat a transfer that was still outstanding. */
  ghost function Marks(c: Cluster, ms: seq<Move>): seq<bool>
    requires IsRun(c, ms)
  {
    if ms == [] then []
    else Marks(c, ms[..|ms| - 1]) + [Repeats(After(c, ms[..|ms| - 1]), ms[|ms| - 1])]
  }

  function Count(marks: seq<bool>): nat {
    if marks == [] then 0 else Count(marks[..|marks| - 1]) + if marks[|marks| - 1] then 1 else 0
  }

  /** How many moves of a run do. */
  ghost function Repeated(c: Cluster, ms: seq<Move>): nat
    requires IsRun(c, ms)
  {
    Count(Marks(c, ms))
  }

  function Restarts(ms: seq<Move>): nat {
    if ms == [] then 0 else Restarts(ms[..|ms| - 1]) + if ms[|ms| - 1].StartAgain? then 1 else 0
  }

  /** No member has anything to apply or to transfer, other than by repeating itself. */
  ghost predicate Quiet(c: Cluster) {
    forall m: Move | m.Transfer? || m.Apply? :: !Permitted(c, m)
  }

  /** Some member held the object at the start. */
  ghost predicate HeldAtStart(c: Cluster, k: Kind, d: Digest) {
    d in c.start.Of(k) && c.start.Of(k)[d].locations * c.applied.Keys != {}
  }

  /** Every member holds, and knows that it holds, whatever any member held at the start. */
  ghost predicate Replicated(c: Cluster) {
    forall n, k, d | n in c.applied && HeldAtStart(c, k, d) ::
      d in View(c, n).Of(k) && n in View(c, n).Of(k)[d].locations
  }

  /** The members that no longer mirror hold all of that already. */
  ghost predicate StoppedAreSupplied(c: Cluster) {
    forall n, k, d | n in c.applied && n !in c.mirroring && HeldAtStart(c, k, d) ::
      Supplied(c, n, k, d)
  }

  ghost predicate Supplied(c: Cluster, n: NodeId, k: Kind, d: Digest) {
    d in Committed(c).Of(k) && n in Committed(c).Of(k)[d].locations
  }

  function Debt(marks: seq<bool>, unit: nat): nat {
    if marks == [] then 0 else Debt(marks[..|marks| - 1], unit) + if marks[|marks| - 1] then unit else 0
  }

  lemma {:induction false} DebtCounts(marks: seq<bool>, unit: nat)
    ensures Debt(marks, unit) == Count(marks) * unit
  {
    if marks != [] {
      DebtCounts(marks[..|marks| - 1], unit);
    }
  }

  lemma DebtSnoc(marks: seq<bool>, mark: bool, unit: nat)
    ensures Debt(marks + [mark], unit) == Debt(marks, unit) + if mark then unit else 0
  {
    assert (marks + [mark])[..|marks|] == marks;
  }

  lemma {:induction false} RunPotential(c: Cluster, ms: seq<Move>)
    requires Inv(c) && IsRun(c, ms)
    ensures var e := After(c, ms);
            && Inv(e) && e.start == c.start && e.applied.Keys == c.applied.Keys
            && Potential(e) <= Potential(c) - |ms| + Debt(Marks(c, ms), |c.applied| + 1) + Restarts(ms)
  {
    if ms != [] {
      RunPotential(c, ms[..|ms| - 1]);
      var e := After(c, ms[..|ms| - 1]);
      MoveChangesPotential(e, ms[|ms| - 1]);
      SameSize(e.applied, c.applied);
      DebtSnoc(Marks(c, ms[..|ms| - 1]), Repeats(e, ms[|ms| - 1]), |c.applied| + 1);
    }
  }

  lemma QuietViews(c: Cluster, n: NodeId, k: Kind, d: Digest)
    requires Inv(c) && Quiet(c) && n in c.applied && HeldAtStart(c, k, d)
    ensures View(c, n) == Committed(c) && d in Committed(c).Of(k)
    ensures n in Committed(c).Of(k)[d].locations || Lacks(c, n, k, d)
  {
    QuietRun(c.start, c.log, c.applied.Keys, k, d);
    var source :| source in c.start.Of(k)[d].locations * c.applied.Keys;
    assert source in Committed(c).Of(k)[d].locations * c.applied.Keys;
    assert !Permitted(c, Apply(n));
    assert c.log[..|c.log|] == c.log;
  }

  /**
    Where nobody has anything left to do, everything is everywhere if and only if the members that no longer
    mirror have it already.
   */
  lemma QuietIsReplicatedIff(c: Cluster)
    requires Inv(c) && Quiet(c)
    ensures Replicated(c) <==> StoppedAreSupplied(c)
  {
    forall n, k, d | n in c.applied && HeldAtStart(c, k, d)
      ensures View(c, n) == Committed(c) && d in Committed(c).Of(k)
      ensures n in c.mirroring ==> n in Committed(c).Of(k)[d].locations
    {
      QuietViews(c, n, k, d);
      assert !Permitted(c, Apply(n)) && !Permitted(c, Transfer(n, RequestOf(k, d), 0));
      if n in c.mirroring && Lacks(c, n, k, d) {
        LackingMemberCanMoveIff(c, n, k, d, 0);
      }
    }
  }

  /**
    Mirroring converges: a run outlasts the number of missing copies and unapplied entries only by repeating
    transfers and by restarts. When nobody has anything left to do, everything any member held has been
    replicated if and only if the members that no longer mirror have it.
   */
  lemma MirroringConverges(c: Cluster, ms: seq<Move>)
    requires Inv(c) && IsRun(c, ms)
    ensures |ms| <= Potential(c) + Repeated(c, ms) * (|c.applied| + 1) + Restarts(ms)
    ensures Quiet(After(c, ms)) ==> (Replicated(After(c, ms)) <==> StoppedAreSupplied(After(c, ms)))
    ensures After(c, ms).start == c.start && After(c, ms).applied.Keys == c.applied.Keys
  {
    RunPotential(c, ms);
    DebtCounts(Marks(c, ms), |c.applied| + 1);
    if Quiet(After(c, ms)) {
      QuietIsReplicatedIff(After(c, ms));
    }
  }

  /** With all members mirroring and no installations, a run that comes to rest has replicated everything. */
  lemma MirroringConvergesFully(c: Cluster, ms: seq<Move>)
    requires Inv(c) && IsRun(c, ms) && c.mirroring == c.applied.Keys
    requires forall i | 0 <= i < |ms| :: !ms[i].ReceiveSnapshot?
    ensures Quiet(After(c, ms)) ==> Replicated(After(c, ms))
  {
    MirroringConverges(c, ms);
    StillMirroring(c, ms);
  }

  lemma {:induction false} StillMirroring(c: Cluster, ms: seq<Move>)
    requires IsRun(c, ms) && forall i | 0 <= i < |ms| :: !ms[i].ReceiveSnapshot?
    ensures c.mirroring <= After(c, ms).mirroring
  {
    if ms != [] {
      StillMirroring(c, ms[..|ms| - 1]);
    }
  }

  /** Without installations and restarts a stopped member gets nothing: the condition can be read off the start. */
  lemma {:induction false} StoppedStayAsTheyAre(c: Cluster, ms: seq<Move>)
    requires Inv(c) && IsRun(c, ms) && forall i | 0 <= i < |ms| :: ms[i].Transfer? || ms[i].Apply?
    ensures After(c, ms).mirroring == c.mirroring
    ensures StoppedAreSupplied(After(c, ms)) <==> StoppedAreSupplied(c)
  {
    if ms != [] {
      var init, m := ms[..|ms| - 1], ms[|ms| - 1];
      StoppedStayAsTheyAre(c, init);
      RunPotential(c, init);
      StoppedUnmoved(After(c, init), m);
    }
  }

  lemma StoppedUnmovedAt(c: Cluster, m: Move, n: NodeId, k: Kind, d: Digest)
    requires Inv(c) && Enabled(c, m) && n in c.applied && n !in c.mirroring
    ensures Supplied(Next(c, m), n, k, d) <==> Supplied(c, n, k, d)
  {
    if m.Transfer? {
      CommittedAfter(c, m, k, d);
    }
  }

  lemma StoppedUnmoved(c: Cluster, m: Move)
    requires Inv(c) && Enabled(c, m) && (m.Transfer? || m.Apply?)
    ensures StoppedAreSupplied(Next(c, m)) <==> StoppedAreSupplied(c)
  {
    var e := Next(c, m);
    assert e.applied.Keys == c.applied.Keys && e.start == c.start && e.mirroring == c.mirroring;
    forall k, d
      ensures HeldAtStart(e, k, d) <==> HeldAtStart(c, k, d)
    {
    }
    forall n, k, d | n in c.applied && n !in c.mirroring {
      StoppedUnmovedAt(c, m, n, k, d);
    }
  }

  // ----- where a run starts -----

  /** A cluster of members that have all applied what led to `start`, with the pending sets they keep. */
  function Initial(start: Trees, pending: map<NodeId, PendingSets>, mirroring: set<NodeId>): Cluster {
    Cluster(start, [], map n | n in pending :: 0, pending, mirroring)
  }

  lemma InitialInv(start: Trees, pending: map<NodeId, PendingSets>, mirroring: set<NodeId>)
    requires mirroring <= pending.Keys
    requires forall n, k | n in pending :: PendingAgrees(pending[n].Of(k), start.Of(k), n)
    ensures Inv(Initial(start, pending, mirroring))
  {
    var c := Initial(start, pending, mirroring);
    forall n, k | n in c.applied
      ensures PendingAgrees(c.pending[n].Of(k), View(c, n).Of(k), n)
    {
      assert View(c, n) == start;
    }
  }

  /** Node `n` got to `start` by its history, with these pending sets. */
  ghost predicate GotTo(n: NodeId, db: Machine, history: seq<Event>, start: Trees, pending: PendingSets) {
    && NodeRun(n, Opened(n, db), history).Done?
    && CleanRun(n, Opened(n, db), history)
    && var node := NodeRun(n, Opened(n, db), history).value;
       node.machine.trees == start && pending == PendingSets(node.pendingBlobs, node.pendingManifests)
  }

  predicate Mirrors(n: NodeId, db: Machine, history: seq<Event>) {
    var r := NodeRun(n, Opened(n, db), history);
    r.Done? && r.value.mirroring
  }

  /**
    Mirroring from wherever the members have got to: by commits, restarts and clean installations, each in
    its own way, to the same trees. Those mirror that have not installed a snapshot since they were started.
   */
  lemma ReachedCluster(start: Trees, dbs: map<NodeId, Machine>, histories: map<NodeId, seq<Event>>,
                       pending: map<NodeId, PendingSets>, mirroring: set<NodeId>)
    requires pending.Keys <= dbs.Keys && pending.Keys <= histories.Keys
    requires forall n | n in pending :: GotTo(n, dbs[n], histories[n], start, pending[n])
    requires mirroring == set n | n in pending && Mirrors(n, dbs[n], histories[n])
    ensures Inv(Initial(start, pending, mirroring))
    ensures forall n | n in pending :: n in mirroring <==> !Stopped(histories[n])
  {
    forall n | n in pending
      ensures forall k :: PendingAgrees(pending[n].Of(k), start.Of(k), n)
      ensures n in mirroring <==> !Stopped(histories[n])
    {
      assert GotTo(n, dbs[n], histories[n], start, pending[n]);
      PendingAgreesAlways(n, dbs[n], histories[n]);
      MirrorsIff(n, dbs[n], histories[n]);
      var node := NodeRun(n, Opened(n, dbs[n]), histories[n]).value;
      forall k
        ensures PendingAgrees(pending[n].Of(k), start.Of(k), n)
      {
        assert PendingAgrees(node.Pending(k), node.machine.trees.Of(k), n);
      }
    }
    InitialInv(start, pending, mirroring);
  }

  /** Among them a cluster that has just been started, where every member mirrors. */
  lemma StartedCluster(start: Trees, members: set<NodeId>)
    ensures Inv(Initial(start, map n | n in members ::
                  PendingSets(Recompute(start.blobs, n), Recompute(start.manifests, n)), members))
  {
    forall n: NodeId, k: Kind {
      RecomputeAgrees(start.Of(k), n);
    }
    InitialInv(start, map n | n in members :: PendingSets(Recompute(start.blobs, n), Recompute(start.manifests, n)),
               members);
  }
}
