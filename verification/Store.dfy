/** `RegistryStore`: the replicated state of one node, updated in place by committed entries. */
module Store {
  import opened Types
  import opened StateMachine
  import opened Replication
  import opened Graph
  import opened Snapshot

  class RegistryStore {
    const id: NodeId
    var blobs: Tree
    var manifests: Tree
    var tags: map<TagKey, Digest>
    var lastApplied: Option<LogId>
    var membership: StoredMembership
    var pendingBlobs: set<Digest>
    var pendingManifests: set<Digest>
    /** Whoever subscribed to the pending sets at start is still told of their changes. */
    var published: bool

    function Db(): Trees
      reads this
    {
      Trees(blobs, manifests, tags)
    }

    function State(): Machine
      reads this
    {
      Machine(Db(), lastApplied, membership)
    }

    /** Opening a database: the pending sets are filtered out of whatever it holds. */
    constructor (id: NodeId, db: Machine)
      ensures this.id == id && State() == db
      ensures pendingBlobs == Recompute(db.trees.blobs, id)
      ensures pendingManifests == Recompute(db.trees.manifests, id)
      ensures published
    {
      this.id := id;
      published := true;
      blobs, manifests, tags := db.trees.blobs, db.trees.manifests, db.trees.tags;
      lastApplied, membership := db.lastApplied, db.membership;
      pendingBlobs := set d | d in db.trees.blobs &&
                              id !in db.trees.blobs[d].locations && db.trees.blobs[d].locations != {};
      pendingManifests := set d | d in db.trees.manifests &&
                                  id !in db.trees.manifests[d].locations && db.trees.manifests[d].locations != {};
    }

    /** One action inside the transaction. */
    method ApplyAction(a: Action)
      requires Step(Db(), a).Done?
      modifies `blobs, `manifests, `tags
      ensures Done(Db()) == Step(old(Db()), a)
    {
      PutAbsent(Db(), TargetOf(a));
      match a {
        case Empty =>
        case BlobStored(timestamp, digest, location, _) =>
          var blob := blobs[digest];
          blobs := blobs[digest := blob.(updated := timestamp, locations := blob.locations + {location})];
        case BlobUnstored(timestamp, digest, location, _) =>
          if digest in blobs {
            var blob := blobs[digest];
            blob := blob.(updated := timestamp, locations := blob.locations - {location});
            if blob.locations == {} {
              blobs := blobs - {digest};
            } else {
              blobs := blobs[digest := blob];
            }
          }
        case BlobMounted(timestamp, digest, repository, _) =>
          var blob := if digest in blobs then blobs[digest]
                      else Record(timestamp, timestamp, None, None, Some([]), {}, {});
          blobs := blobs[digest := blob.(updated := timestamp, repositories := blob.repositories + {repository})];
        case BlobUnmounted(timestamp, digest, repository, _) =>
          if digest in blobs {
            var blob := blobs[digest];
            blobs := blobs[digest := blob.(updated := timestamp, repositories := blob.repositories - {repository})];
          }
        case BlobInfo(timestamp, digest, dependencies, contentType) =>
          if digest in blobs {
            blobs := blobs[digest := blobs[digest].(updated := timestamp,
                                                    dependencies := Some(dependencies),
                                                    contentType := Some(contentType))];
          }
        case BlobStat(timestamp, digest, size) =>
          if digest in blobs {
            blobs := blobs[digest := blobs[digest].(updated := timestamp, size := Some(size))];
          }
        case ManifestStored(timestamp, digest, location, _) =>
          var manifest := manifests[digest];
          manifests := manifests[digest := manifest.(updated := timestamp,
                                                     locations := manifest.locations + {location})];
        case ManifestUnstored(timestamp, digest, location, _) =>
          if digest in manifests {
            var manifest := manifests[digest];
            manifest := manifest.(updated := timestamp, locations := manifest.locations - {location});
            if manifest.locations == {} {
              manifests := manifests - {digest};
            } else {
              manifests := manifests[digest := manifest];
            }
          }
        case ManifestMounted(timestamp, digest, repository, _) =>
          var manifest := if digest in manifests then manifests[digest]
                          else Record(timestamp, timestamp, None, None, Some([]), {}, {});
          manifests := manifests[digest := manifest.(updated := timestamp,
                                                     repositories := manifest.repositories + {repository})];
        case ManifestUnmounted(timestamp, digest, repository, _) =>
          if digest in manifests {
            var manifest := manifests[digest];
            manifests := manifests[digest := manifest.(updated := timestamp,
                                                       repositories := manifest.repositories - {repository})];
          }
        case ManifestInfo(timestamp, digest, dependencies, contentType) =>
          if digest in manifests {
            manifests := manifests[digest := manifests[digest].(updated := timestamp,
                                                                dependencies := Some(dependencies),
                                                                contentType := Some(contentType))];
          }
        case ManifestStat(timestamp, digest, size) =>
          if digest in manifests {
            manifests := manifests[digest := manifests[digest].(updated := timestamp, size := Some(size))];
          }
        case HashTagged(_, digest, repository, tag, _) =>
          tags := tags[TagKey(repository, tag) := digest];
      }
    }

    method ApplyActions(actions: seq<Action>)
      requires Run(Db(), actions).Done?
      modifies `blobs, `manifests, `tags
      ensures Done(Db()) == Run(old(Db()), actions)
    {
      for j := 0 to |actions|
        invariant Run(old(Db()), actions[..j]) == Done(Db())
      {
        RunPrefixDone(old(Db()), actions, j + 1);
        assert actions[..j + 1][..j] == actions[..j];
        ApplyAction(actions[j]);
      }
      assert actions[..|actions|] == actions;
    }

    /** The transaction: every entry in turn, one response for each. */
    method ApplyEntries(entries: seq<Entry>) returns (responses: seq<nat>)
      requires Replay(State(), entries).Done?
      modifies `blobs, `manifests, `tags, `lastApplied, `membership
      ensures Done(State()) == Replay(old(State()), entries)
      ensures |responses| == |entries|
      ensures forall i | 0 <= i < |entries| :: responses[i] == entries[i].logId.index
    {
      responses := [];
      for i := 0 to |entries|
        invariant Replay(old(State()), entries[..i]) == Done(State())
        invariant |responses| == i
        invariant forall j | 0 <= j < i :: responses[j] == entries[j].logId.index
      {
        ghost var before := State();
        ReplayPrefixDone(old(State()), entries, i + 1);
        assert entries[..i + 1][..i] == entries[..i];
        var entry := entries[i];
        lastApplied := Some(entry.logId);
        match entry.payload {
          case Blank =>
          case Normal(actions) =>
            ApplyActions(actions);
          case Membership(nodes) =>
            membership := StoredMembership(Some(entry.logId), nodes);
        }
        responses := responses + [entry.logId.index];
      }
      assert entries[..|entries|] == entries;
    }

    /** Commit a batch, then bring the pending sets up to date with the trees it left behind. */
    method ApplyToStateMachine(entries: seq<Entry>) returns (responses: seq<nat>)
      requires Replay(State(), entries).Done?
      modifies this
      ensures Done(State()) == Replay(old(State()), entries)
      ensures pendingBlobs == RefreshAll(old(pendingBlobs), blobs, id, BlobKind, Actions(entries))
      ensures pendingManifests == RefreshAll(old(pendingManifests), manifests, id, ManifestKind, Actions(entries))
      ensures published == old(published)
      ensures |responses| == |entries|
      ensures forall i | 0 <= i < |entries| :: responses[i] == entries[i].logId.index
    {
      responses := ApplyEntries(entries);
      var pblobs, pmanifests := RefreshEntries(entries);
      pendingBlobs, pendingManifests := pblobs, pmanifests;
    }

    method RefreshEntries(entries: seq<Entry>) returns (pblobs: set<Digest>, pmanifests: set<Digest>)
      ensures pblobs == RefreshAll(pendingBlobs, blobs, id, BlobKind, Actions(entries))
      ensures pmanifests == RefreshAll(pendingManifests, manifests, id, ManifestKind, Actions(entries))
    {
      pblobs, pmanifests := pendingBlobs, pendingManifests;
      for i := 0 to |entries|
        invariant pblobs == RefreshAll(pendingBlobs, blobs, id, BlobKind, Actions(entries[..i]))
        invariant pmanifests == RefreshAll(pendingManifests, manifests, id, ManifestKind, Actions(entries[..i]))
      {
        assert entries[..i + 1][..i] == entries[..i];
        RefreshAllAppend(pendingBlobs, blobs, id, BlobKind, Actions(entries[..i]), ActionsOf(entries[i]));
        RefreshAllAppend(pendingManifests, manifests, id, ManifestKind, Actions(entries[..i]), ActionsOf(entries[i]));
        if entries[i].payload.Normal? {
          pblobs, pmanifests := RefreshActions(pblobs, pmanifests, entries[i].payload.actions);
        }
      }
      assert entries[..|entries|] == entries;
    }

    method RefreshActions(pblobs0: set<Digest>, pmanifests0: set<Digest>, actions: seq<Action>)
      returns (pblobs: set<Digest>, pmanifests: set<Digest>)
      ensures pblobs == RefreshAll(pblobs0, blobs, id, BlobKind, actions)
      ensures pmanifests == RefreshAll(pmanifests0, manifests, id, ManifestKind, actions)
    {
      pblobs, pmanifests := pblobs0, pmanifests0;
      for j := 0 to |actions|
        invariant pblobs == RefreshAll(pblobs0, blobs, id, BlobKind, actions[..j])
        invariant pmanifests == RefreshAll(pmanifests0, manifests, id, ManifestKind, actions[..j])
      {
        assert actions[..j + 1][..j] == actions[..j];
        match actions[j] {
          case BlobStored(_, digest, _, _) =>
            pblobs := RefreshOne(pblobs, blobs, digest);
          case BlobUnstored(_, digest, _, _) =>
            pblobs := RefreshOne(pblobs, blobs, digest);
          case ManifestStored(_, digest, _, _) =>
            pmanifests := RefreshOne(pmanifests, manifests, digest);
          case ManifestUnstored(_, digest, _, _) =>
            pmanifests := RefreshOne(pmanifests, manifests, digest);
          case _ =>
        }
      }
      assert actions[..|actions|] == actions;
    }

    method RefreshOne(pending: set<Digest>, tree: Tree, digest: Digest) returns (p: set<Digest>)
      ensures p == Refresh(pending, tree, id, digest)
    {
      p := pending;
      if digest in tree {
        if id !in tree[digest].locations && tree[digest].locations != {} {
          p := p + {digest};
        } else {
          p := p - {digest};
        }
      }
    }

    /** The snapshot of the current state; tags are grouped one by one. */
    method CaptureSnapshot() returns (snapshot: Snapshot)
      ensures snapshot == SnapshotOf(State())
    {
      var nested := NestTags();
      snapshot := Snapshot(lastApplied, membership, blobs, manifests, nested);
    }

    method NestTags() returns (nested: map<Name, map<Name, Digest>>)
      ensures nested == Nest(tags)
    {
      nested := map[];
      var rest := tags.Keys;
      while rest != {}
        invariant rest <= tags.Keys
        invariant forall k | k in tags && k !in rest ::
                    k.repository in nested && k.tag in nested[k.repository] && nested[k.repository][k.tag] == tags[k]
        invariant forall r | r in nested :: nested[r] != map[]
        invariant forall r, t | r in nested && t in nested[r] :: TagKey(r, t) in tags
      {
        var key :| key in rest;
        var repo: map<Name, Digest> := if key.repository in nested then nested[key.repository] else map[];
        nested := nested[key.repository := repo[key.tag := tags[key]]];
        rest := rest - {key};
      }
      NestedIsNest(tags, nested);
    }

    /** Insert every record of a snapshot's tree, noting the ones this node has yet to download. */
    method InsertAll(tree: Tree, records: Tree) returns (result: Tree, pending: set<Digest>)
      ensures result == tree + records && pending == Recompute(records, id)
    {
      result, pending := tree, {};
      var rest := records.Keys;
      while rest != {}
        invariant rest <= records.Keys
        invariant result == tree + (records - rest)
        invariant pending == set d | d in records && d !in rest && Wanted(records, id, d)
      {
        var key :| key in rest;
        var value := records[key];
        InsertOneMore(tree, records, rest, key);
        result := result[key := value];
        if id !in value.locations && value.locations != {} {
          pending := pending + {key};
        }
        rest := rest - {key};
      }
      assert records - rest == records;
    }

    method InsertTags(nested: map<Name, map<Name, Digest>>) returns (result: map<TagKey, Digest>)
      ensures result == tags + Flatten(nested)
    {
      ghost var flat := Flatten(nested);
      result := tags;
      var rest := FlatKeys(nested);
      assert tags + (flat - rest) == tags;
      while rest != {}
        invariant rest <= FlatKeys(nested)
        invariant result == tags + (flat - rest)
      {
        var key :| key in rest;
        InsertOneMore(tags, flat, rest, key);
        result := result[key := nested[key.repository][key.tag]];
        rest := rest - {key};
      }
      assert flat - rest == flat;
    }

    /** Install a snapshot onto whatever this node holds. The pending sets get channels that nobody subscribed to. */
    method InstallSnapshot(snapshot: Snapshot)
      modifies this
      ensures State() == Install(old(State()), snapshot)
      ensures pendingBlobs == Recompute(snapshot.blobs, id)
      ensures pendingManifests == Recompute(snapshot.manifests, id)
      ensures !published
    {
      var blobs', pblobs := InsertAll(blobs, snapshot.blobs);
      var manifests', pmanifests := InsertAll(manifests, snapshot.manifests);
      var tags' := InsertTags(snapshot.tags);
      blobs, manifests, tags := blobs', manifests', tags';
      pendingBlobs, pendingManifests := pblobs, pmanifests;
      published := false;
      if snapshot.lastApplied.Some? {
        lastApplied := snapshot.lastApplied;
      }
      membership := snapshot.membership;
    }

    /** Whatever is never visited from a manifest is orphaned. */
    method GetOrphanedBlobs() returns (orphans: Tree)
      ensures orphans.Keys == OrphanBlobs(Db())
      ensures forall d | d in orphans :: orphans[d] == blobs[d]
    {
      var roots := CollectRoots();
      var visited := Mark(roots);
      orphans := map d | d in blobs && d !in visited :: blobs[d];
    }

    method CollectRoots() returns (visiting: set<Digest>)
      ensures visiting == Roots(manifests)
    {
      visiting := {};
      var rest := manifests.Keys;
      while rest != {}
        invariant rest <= manifests.Keys && visiting <= Roots(manifests)
        invariant forall m | m in manifests && m !in rest :: Deps(manifests[m]) <= visiting
      {
        var m :| m in rest;
        visiting := visiting + Deps(manifests[m]);
        rest := rest - {m};
      }
    }

    /** The worklist: any digest may be taken next; the graph may have cycles and dangling digests. */
    method Mark(roots: set<Digest>) returns (visited: set<Digest>)
      ensures forall d :: d in visited <==> Reaches(blobs, roots, d)
    {
      var visiting := roots;
      visited := {};
      ghost var mentioned := roots + Roots(blobs);
      forall d | d in roots {
        RootReached(blobs, roots, d);
      }
      while visiting != {}
        invariant Marking(blobs, roots, visiting, visited)
        decreases mentioned - visited
      {
        var digest :| digest in visiting;
        MarkStep(blobs, roots, visiting, visited, digest);
        if digest in blobs {
          visiting := visiting + (set d | d in Deps(blobs[digest]) && d !in visited);
        }
        visiting := visiting - {digest};
        visited := visited + {digest};
      }
      ClosedHoldsReached(blobs, roots, visited);
    }

    /** A manifest is orphaned when no tag names it. */
    method GetOrphanedManifests() returns (orphans: Tree)
      ensures orphans.Keys == OrphanManifests(Db())
      ensures forall d | d in orphans :: orphans[d] == manifests[d]
    {
      orphans := map d | d in manifests && d !in tags.Values :: manifests[d];
    }
  }

  lemma NestedIsNest(tags: map<TagKey, Digest>, nested: map<Name, map<Name, Digest>>)
    requires forall k | k in tags ::
               k.repository in nested && k.tag in nested[k.repository] && nested[k.repository][k.tag] == tags[k]
    requires forall r | r in nested :: nested[r] != map[]
    requires forall r, t | r in nested && t in nested[r] :: TagKey(r, t) in tags
    ensures nested == Nest(tags)
  {
    forall k
      ensures k in Flatten(nested) <==> k in tags
      ensures k in tags ==> Flatten(nested)[k] == tags[k]
    {
      FlattenAt(nested, k);
      assert k == TagKey(k.repository, k.tag);
    }
    assert Flatten(nested) == tags;
    FlattenRoundTripIff(nested);
  }

  lemma InsertOneMore<K, V>(base: map<K, V>, m: map<K, V>, rest: set<K>, key: K)
    requires key in m && key in rest
    ensures base + (m - (rest - {key})) == (base + (m - rest))[key := m[key]]
  {
  }

  /** The two sets of the mark loop: disjoint, between the roots and what is mentioned, reached, and closed. */
  ghost predicate Marking(blobs: Tree, roots: set<Digest>, visiting: set<Digest>, visited: set<Digest>) {
    && visiting !! visited
    && roots <= visiting + visited <= roots + Roots(blobs)
    && (forall d | d in visiting || d in visited :: Reaches(blobs, roots, d))
    && (forall d | d in visited && d in blobs :: Deps(blobs[d]) <= visiting + visited)
  }

  lemma MarkStep(blobs: Tree, roots: set<Digest>, visiting: set<Digest>, visited: set<Digest>, digest: Digest)
    requires Marking(blobs, roots, visiting, visited) && digest in visiting
    ensures var found := if digest in blobs then set d | d in Deps(blobs[digest]) && d !in visited else {};
            Marking(blobs, roots, visiting + found - {digest}, visited + {digest})
    ensures digest in roots + Roots(blobs) && digest !in visited
  {
    if digest in blobs {
      forall e | e in Deps(blobs[digest])
        ensures Reaches(blobs, roots, e) && e in Roots(blobs)
      {
        StepReached(blobs, roots, digest, e);
      }
    }
  }

  lemma ReplayPrefixDone(m: Machine, es: seq<Entry>, i: nat)
    requires i <= |es| && Replay(m, es).Done?
    ensures Replay(m, es[..i]).Done?
  {
    ReplayAppend(m, es[..i], es[i..]);
    assert es[..i] + es[i..] == es;
  }

  lemma RunPrefixDone(s: Trees, acts: seq<Action>, i: nat)
    requires i <= |acts| && Run(s, acts).Done?
    ensures Run(s, acts[..i]).Done?
  {
    RunAppend(s, acts[..i], acts[i..]);
    assert acts[..i] + acts[i..] == acts;
  }
}
