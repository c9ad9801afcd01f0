/** Log replay and the incrementally maintained "pending download" sets of `src/store/mod.rs`. */
module Replication {
  import opened Types
  import opened StateMachine

  datatype Machine = Machine(trees: Trees, lastApplied: Option<LogId>, membership: StoredMembership)

  const EMPTY_MACHINE := Machine(EMPTY_TREES, None, StoredMembership(None, map[]))

  function ActionsOf(e: Entry): seq<Action> {
    if e.payload.Normal? then e.payload.actions else []
  }

  function ApplyEntry(m: Machine, e: Entry): Outcome<Machine> {
    match Run(m.trees, ActionsOf(e))
    case Panic => Panic
    case Done(t) =>
      Done(Machine(t, Some(e.logId),
                   if e.payload.Membership? then StoredMembership(Some(e.logId), e.payload.nodes)
                   else m.membership))
  }

  function Replay(m: Machine, es: seq<Entry>): Outcome<Machine> {
    if es == [] then Done(m)
    else
      match Replay(m, es[..|es| - 1])
      case Panic => Panic
      case Done(n) => ApplyEntry(n, es[|es| - 1])
  }

  /** All actions of a list of entries, in commit order. */
  function Actions(es: seq<Entry>): seq<Action> {
    if es == [] then [] else Actions(es[..|es| - 1]) + ActionsOf(es[|es| - 1])
  }

  lemma {:induction false} ReplayAppend(m: Machine, a: seq<Entry>, b: seq<Entry>)
    ensures Replay(m, a + b) == (if Replay(m, a).Panic? then Panic else Replay(Replay(m, a).value, b))
  {
    if b == [] {
      assert a + b == a;
    } else {
      ReplayAppend(m, a, b[..|b| - 1]);
      assert (a + b)[..|a + b| - 1] == a + b[..|b| - 1];
    }
  }

  /** Entry boundaries do not matter to the trees. */
  lemma {:induction false} ReplayRuns(m: Machine, es: seq<Entry>)
    ensures Replay(m, es).Panic? <==> Run(m.trees, Actions(es)).Panic?
    ensures Replay(m, es).Done? ==> Run(m.trees, Actions(es)) == Done(Replay(m, es).value.trees)
  {
    if es != [] {
      ReplayRuns(m, es[..|es| - 1]);
      RunAppend(m.trees, Actions(es[..|es| - 1]), ActionsOf(es[|es| - 1]));
    }
  }

  /** One entry: its actions, its id, and its membership if it has one. */
  lemma EntryMeans(m: Machine, e: Entry)
    ensures Replay(m, []) == Done(m)
    ensures Replay(m, [e]) == ApplyEntry(m, e)
    ensures match e.payload
            case Blank => ApplyEntry(m, e) == Done(Machine(m.trees, Some(e.logId), m.membership))
            case Membership(nodes) =>
              ApplyEntry(m, e) == Done(Machine(m.trees, Some(e.logId), StoredMembership(Some(e.logId), nodes)))
            case Normal(acts) =>
              && (ApplyEntry(m, e).Panic? <==> Run(m.trees, acts).Panic?)
              && (Run(m.trees, acts).Done? ==>
                    ApplyEntry(m, e) == Done(Machine(Run(m.trees, acts).value, Some(e.logId), m.membership)))
  {
    assert [e][..0] == [];
  }

  lemma {:induction false} LastAppliedIsLast(m: Machine, es: seq<Entry>)
    requires Replay(m, es).Done?
    ensures Replay(m, es).value.lastApplied == if es == [] then m.lastApplied else Some(es[|es| - 1].logId)
  {
  }

  ghost predicate LastMembership(es: seq<Entry>, i: nat)
    requires i < |es|
  {
    es[i].payload.Membership? && forall j | i < j < |es| :: !es[j].payload.Membership?
  }

  /** The membership after a replay is that of its last membership entry, with the id of that entry. */
  lemma {:induction false} MembershipIsLast(m: Machine, es: seq<Entry>, i: nat)
    requires Replay(m, es).Done? && i < |es| && LastMembership(es, i)
    ensures Replay(m, es).value.membership == StoredMembership(Some(es[i].logId), es[i].payload.nodes)
  {
    var init := es[..|es| - 1];
    if i < |init| {
      assert forall j | i < j < |init| :: init[j] == es[j];
      assert !es[|es| - 1].payload.Membership?;
      MembershipIsLast(m, init, i);
    }
  }

  /** Without one it is what it was. */
  lemma {:induction false} MembershipStays(m: Machine, es: seq<Entry>)
    requires Replay(m, es).Done? && forall i | 0 <= i < |es| :: !es[i].payload.Membership?
    ensures Replay(m, es).value.membership == m.membership
  {
    if es != [] {
      MembershipStays(m, es[..|es| - 1]);
    }
  }

  // ----- pending downloads -----

  /** Some other node has a copy and this one does not. */
  predicate Wanted(tree: Tree, id: NodeId, d: Digest) {
    d in tree && id !in tree[d].locations && tree[d].locations != {}
  }

  /** The set that start-up and snapshot installation filter out of a tree. */
  function Recompute(tree: Tree, id: NodeId): set<Digest> {
    set d | d in tree && Wanted(tree, id, d)
  }

  /** The digest whose copies an action moves, if it is of kind `k`. */
  function Moved(a: Action, k: Kind): Option<Digest> {
    var t := TargetOf(a);
    if t.Object? && t.kind == k && (t.change.Stored? || t.change.Unstored?) then Some(t.digest) else None
  }

  /** What makes a digest pending, and which actions make the second pass look at it. */
  lemma PendingMeans(tree: Tree, id: NodeId, d: Digest, a: Action, k: Kind)
    ensures d in Recompute(tree, id) <==>
            d in tree && id !in tree[d].locations && exists n :: n in tree[d].locations
    ensures Moved(a, k) == Some(d) <==>
            match k
            case BlobKind => (a.BlobStored? && a.digest == d) || (a.BlobUnstored? && a.digest == d)
            case ManifestKind => (a.ManifestStored? && a.digest == d) || (a.ManifestUnstored? && a.digest == d)
  {
    assert d in tree && tree[d].locations != {} ==> exists n :: n in tree[d].locations;
  }

  function Refresh(p: set<Digest>, tree: Tree, id: NodeId, d: Digest): set<Digest> {
    if d !in tree then p
    else if Wanted(tree, id, d) then p + {d}
    else p - {d}
  }

  /** The second pass over a committed batch: every move looks at the tree as the whole batch left it. */
  function RefreshAll(p: set<Digest>, tree: Tree, id: NodeId, k: Kind, acts: seq<Action>): set<Digest> {
    if acts == [] then p
    else
      var q := RefreshAll(p, tree, id, k, acts[..|acts| - 1]);
      var m := Moved(acts[|acts| - 1], k);
      if m.Some? then Refresh(q, tree, id, m.value) else q
  }

  /** The cache agrees with the filter on every digest that has a copy somewhere. */
  ghost predicate PendingAgrees(p: set<Digest>, tree: Tree, id: NodeId) {
    forall d | d in tree && tree[d].locations != {} :: d in p <==> d in Recompute(tree, id)
  }

  lemma {:induction false} RefreshAllAt(p: set<Digest>, tree: Tree, id: NodeId, k: Kind, acts: seq<Action>, d: Digest)
    ensures d in RefreshAll(p, tree, id, k, acts) <==>
            (if d in tree && exists i | 0 <= i < |acts| :: Moved(acts[i], k) == Some(d)
             then Wanted(tree, id, d) else d in p)
  {
    if acts != [] {
      var init := acts[..|acts| - 1];
      RefreshAllAt(p, tree, id, k, init, d);
      assert forall i | 0 <= i < |init| :: init[i] == acts[i];
      if Moved(acts[|acts| - 1], k) != Some(d) {
        assert forall i | 0 <= i < |acts| :: Moved(acts[i], k) == Some(d) ==> i < |init|;
      }
    }
  }

  lemma {:induction false} RefreshAllAppend(p: set<Digest>, tree: Tree, id: NodeId, k: Kind,
                                           a: seq<Action>, b: seq<Action>)
    ensures RefreshAll(p, tree, id, k, a + b) == RefreshAll(RefreshAll(p, tree, id, k, a), tree, id, k, b)
  {
    if b == [] {
      assert a + b == a;
    } else {
      RefreshAllAppend(p, tree, id, k, a, b[..|b| - 1]);
      assert (a + b)[..|a + b| - 1] == a + b[..|b| - 1];
    }
  }

  lemma {:induction false} ChangesComeFrom(acts: seq<Action>, k: Kind, d: Digest, c: Change)
    ensures c in Changes(acts, k, d) <==> exists i | 0 <= i < |acts| :: TargetOf(acts[i]) == Object(k, d, c)
  {
    if acts != [] {
      var init := acts[..|acts| - 1];
      ChangesComeFrom(init, k, d, c);
      assert forall i | 0 <= i < |init| :: init[i] == acts[i];
    }
  }

  /** Without a `Stored` or `Unstored` a record keeps its copies; one mounted afresh has none. */
  lemma {:induction false} FoldWithoutMoves(o: Option<Record>, cs: seq<Change>)
    requires forall c | c in cs :: !c.Stored? && !c.Unstored?
    ensures Fold(o, cs).Done?
    ensures var p := Fold(o, cs).value;
            && (o.Some? ==> p.Some? && p.value.locations == o.value.locations)
            && (o.None? && p.Some? ==> p.value.locations == {})
  {
    if cs != [] {
      FoldWithoutMoves(o, cs[..|cs| - 1]);
    }
  }

  lemma UnmovedKeepsCopies(s: Trees, acts: seq<Action>, k: Kind, d: Digest)
    requires Run(s, acts).Done?
    requires forall i | 0 <= i < |acts| :: Moved(acts[i], k) != Some(d)
    ensures var o, p := s.Get(k, d), Run(s, acts).value.Get(k, d);
            && (o.Some? ==> p.Some? && p.value.locations == o.value.locations)
            && (o.None? && p.Some? ==> p.value.locations == {})
  {
    RunProjects(s, acts, k, d);
    forall c | c in Changes(acts, k, d)
      ensures !c.Stored? && !c.Unstored?
    {
      ChangesComeFrom(acts, k, d, c);
    }
    FoldWithoutMoves(s.Get(k, d), Changes(acts, k, d));
  }

  /** Applying a batch keeps the pending cache in agreement with the filter. */
  lemma BatchKeepsPending(p: set<Digest>, s: Trees, acts: seq<Action>, k: Kind, id: NodeId)
    requires Run(s, acts).Done?
    requires PendingAgrees(p, s.Of(k), id)
    ensures var t := Run(s, acts).value;
            PendingAgrees(RefreshAll(p, t.Of(k), id, k, acts), t.Of(k), id)
  {
    var t := Run(s, acts).value;
    forall d | d in t.Of(k) && t.Of(k)[d].locations != {}
      ensures d in RefreshAll(p, t.Of(k), id, k, acts) <==> d in Recompute(t.Of(k), id)
    {
      RefreshAllAt(p, t.Of(k), id, k, acts, d);
      if forall i | 0 <= i < |acts| :: Moved(acts[i], k) != Some(d) {
        UnmovedKeepsCopies(s, acts, k, d);
        assert s.Get(k, d).Some?;
      }
    }
  }

  /** A batch and the same actions split in two differ only in pending digests nobody holds. */
  lemma BatchingAgrees(p: set<Digest>, s: Trees, a: seq<Action>, b: seq<Action>, k: Kind, id: NodeId)
    requires Run(s, a + b).Done?
    requires PendingAgrees(p, s.Of(k), id)
    ensures Run(s, a).Done? && Run(Run(s, a).value, b) == Run(s, a + b)
    ensures var mid, t := Run(s, a).value, Run(s, a + b).value;
            var once := RefreshAll(p, t.Of(k), id, k, a + b);
            var twice := RefreshAll(RefreshAll(p, mid.Of(k), id, k, a), t.Of(k), id, k, b);
            forall d | (d in once) != (d in twice) ::
              d in t.Of(k) ==> t.Of(k)[d].locations == {}
  {
    RunAppend(s, a, b);
    BatchKeepsPending(p, s, a + b, k, id);
    BatchKeepsPending(p, s, a, k, id);
    var mid := Run(s, a).value;
    BatchKeepsPending(RefreshAll(p, mid.Of(k), id, k, a), mid, b, k, id);
  }

  /** The cache that was exactly the filter stays so exactly when the batch deletes no pending digest. */
  lemma BatchExactIff(p: set<Digest>, s: Trees, acts: seq<Action>, k: Kind, id: NodeId)
    requires Run(s, acts).Done? && p == Recompute(s.Of(k), id)
    ensures var t := Run(s, acts).value.Of(k);
            RefreshAll(p, t, id, k, acts) == Recompute(t, id) <==> p <= t.Keys
  {
    var t := Run(s, acts).value.Of(k);
    forall d
      ensures d in RefreshAll(p, t, id, k, acts) <==> d in Recompute(t, id) || (d in p && d !in t)
    {
      RefreshAllAt(p, t, id, k, acts, d);
      if forall i | 0 <= i < |acts| :: Moved(acts[i], k) != Some(d) {
        UnmovedKeepsCopies(s, acts, k, d);
        assert s.Get(k, d).Some? <==> d in s.Of(k);
        assert Run(s, acts).value.Get(k, d).Some? <==> d in t;
      }
    }
    if d :| d in p && d !in t {
      assert d in RefreshAll(p, t, id, k, acts) && d !in Recompute(t, id);
    }
  }
}
