/**
  What a record says about the past: each field of the folded record, read off the list of changes
  that named its digest, without mentioning the fold.
 */
module History {
  import opened Types
  import opened StateMachine

  /** The last `Stored`/`Unstored` for node `n` was `Stored`. */
  ghost predicate Holds(cs: seq<Change>, n: NodeId) {
    exists i | 0 <= i < |cs| :: StoredAndKept(cs, i, n)
  }

  ghost predicate StoredAndKept(cs: seq<Change>, i: nat, n: NodeId)
    requires i < |cs|
  {
    && cs[i].Stored? && cs[i].node == n
    && forall j | i < j < |cs| :: !(cs[j].Unstored? && cs[j].node == n)
  }

  /** Change `j` took the last copy away, which deletes the record. */
  ghost predicate Empties(cs: seq<Change>, j: nat)
    requires j < |cs|
  {
    cs[j].Unstored? && NoHolder(cs[..j + 1])
  }

  ghost predicate NoHolder(cs: seq<Change>) {
    forall n :: !Holds(cs, n)
  }

  /** No change after `i` deleted the record. */
  ghost predicate Survives(cs: seq<Change>, i: nat)
    requires i < |cs|
  {
    forall j | i < j < |cs| :: !Empties(cs, j)
  }

  ghost predicate MountedAndKept(cs: seq<Change>, i: nat, r: Name)
    requires i < |cs|
  {
    && cs[i].Mounted? && cs[i].repository == r && Survives(cs, i)
    && forall j | i < j < |cs| :: !(cs[j].Unmounted? && cs[j].repository == r)
  }

  /** Change `b` is the mount that created the record present now. */
  ghost predicate IsBirth(cs: seq<Change>, b: nat)
    requires b < |cs|
  {
    && cs[b].Mounted? && Survives(cs, b)
    && forall i | 0 <= i < b && cs[i].Mounted? :: !Survives(cs, i)
  }

  ghost predicate LastInfo(cs: seq<Change>, b: nat, i: nat)
    requires i < |cs|
  {
    b < i && cs[i].Info? && forall j | i < j < |cs| :: !cs[j].Info?
  }

  ghost predicate LastStat(cs: seq<Change>, b: nat, i: nat)
    requires i < |cs|
  {
    b < i && cs[i].Stat? && forall j | i < j < |cs| :: !cs[j].Stat?
  }

  /** Content type and dependencies come together from the last `Info` since birth. */
  ghost predicate InfoSince(cs: seq<Change>, b: nat, r: Record) {
    || (&& (forall i | b < i < |cs| :: !cs[i].Info?)
        && r.contentType == None && r.dependencies == Some([]))
    || (exists i | 0 <= i < |cs| ::
          && LastInfo(cs, b, i)
          && r.contentType == Some(cs[i].contentType) && r.dependencies == Some(cs[i].dependencies))
  }

  ghost predicate SizeSince(cs: seq<Change>, b: nat, r: Record) {
    || ((forall i | b < i < |cs| :: !cs[i].Stat?) && r.size == None)
    || (exists i | 0 <= i < |cs| :: LastStat(cs, b, i) && r.size == Some(cs[i].size))
  }

  lemma HoldsSnoc(cs: seq<Change>, n: NodeId)
    requires cs != []
    ensures var c, init := cs[|cs| - 1], cs[..|cs| - 1];
            Holds(cs, n) <==> (c.Stored? && c.node == n) || (Holds(init, n) && !(c.Unstored? && c.node == n))
  {
    var c, init := cs[|cs| - 1], cs[..|cs| - 1];
    if c.Stored? && c.node == n {
      assert StoredAndKept(cs, |cs| - 1, n);
    } else if Holds(init, n) && !(c.Unstored? && c.node == n) {
      var i :| 0 <= i < |init| && StoredAndKept(init, i, n);
      assert StoredAndKept(cs, i, n);
    } else if Holds(cs, n) {
      var i :| 0 <= i < |cs| && StoredAndKept(cs, i, n);
      assert StoredAndKept(init, i, n);
    }
  }

  lemma SurvivesSnoc(cs: seq<Change>, i: nat)
    requires i < |cs| - 1
    ensures Survives(cs, i) <==> Survives(cs[..|cs| - 1], i) && !Empties(cs, |cs| - 1)
  {
    var init := cs[..|cs| - 1];
    forall j | i < j < |init|
      ensures Empties(cs, j) <==> Empties(init, j)
    {
      assert cs[..j + 1] == init[..j + 1];
    }
  }

  /** Node `n` is a location exactly when its last `Stored`/`Unstored` was `Stored`, across deletions too. */
  lemma {:induction false} LocationsHistory(cs: seq<Change>, n: NodeId)
    requires Fold(None, cs).Done?
    ensures var o := Fold(None, cs).value;
            (o.Some? && n in o.value.locations) <==> Holds(cs, n)
  {
    if cs != [] {
      LocationsHistory(cs[..|cs| - 1], n);
      HoldsSnoc(cs, n);
    }
  }

  /** The last change deleted the record exactly when it emptied the holders. */
  lemma DeletedIffEmptied(cs: seq<Change>)
    requires cs != [] && Fold(None, cs).Done?
    ensures Empties(cs, |cs| - 1) <==> cs[|cs| - 1].Unstored? && Fold(None, cs).value.None?
  {
    assert cs[..|cs|] == cs;
    var o := Fold(None, cs).value;
    forall n {
      LocationsHistory(cs, n);
    }
    if cs[|cs| - 1].Unstored? && o.Some? {
      var n :| n in o.value.locations;
      assert Holds(cs, n);
    }
  }

  /** A record exists exactly when some mount of it was never followed by the loss of its last copy. */
  lemma {:induction false} PresenceHistory(cs: seq<Change>)
    requires Fold(None, cs).Done?
    ensures Fold(None, cs).value.Some? <==> exists i | 0 <= i < |cs| :: cs[i].Mounted? && Survives(cs, i)
  {
    if cs != [] {
      var init := cs[..|cs| - 1];
      PresenceHistory(init);
      DeletedIffEmptied(cs);
      forall i | 0 <= i < |init| {
        SurvivesSnoc(cs, i);
      }
      if cs[|cs| - 1].Mounted? {
        assert Survives(cs, |cs| - 1);
      } else if Fold(None, cs).value.Some? {
        var i :| 0 <= i < |init| && init[i].Mounted? && Survives(init, i);
        assert cs[i].Mounted? && Survives(cs, i);
      }
    }
  }

  /** Repository `r` is listed exactly when it was mounted since the last deletion and not unmounted after. */
  lemma {:induction false} RepositoriesHistory(cs: seq<Change>, r: Name)
    requires Fold(None, cs).Done?
    ensures var o := Fold(None, cs).value;
            (o.Some? && r in o.value.repositories) <==> exists i | 0 <= i < |cs| :: MountedAndKept(cs, i, r)
  {
    if cs != [] {
      var init, c := cs[..|cs| - 1], cs[|cs| - 1];
      RepositoriesHistory(init, r);
      DeletedIffEmptied(cs);
      forall i | 0 <= i < |init|
        ensures MountedAndKept(cs, i, r) <==>
                MountedAndKept(init, i, r) && !Empties(cs, |cs| - 1) && !(c.Unmounted? && c.repository == r)
      {
        SurvivesSnoc(cs, i);
      }
      var o := Fold(None, cs).value;
      if c.Mounted? && c.repository == r {
        assert MountedAndKept(cs, |cs| - 1, r);
      } else if o.Some? && r in o.value.repositories {
        var i :| 0 <= i < |init| && MountedAndKept(init, i, r);
        assert MountedAndKept(cs, i, r);
      }
    }
  }

  lemma BirthSnoc(cs: seq<Change>, b: nat)
    requires b < |cs| - 1 && IsBirth(cs[..|cs| - 1], b) && !Empties(cs, |cs| - 1)
    ensures IsBirth(cs, b)
  {
    forall i | 0 <= i < |cs| - 1 {
      SurvivesSnoc(cs, i);
    }
  }

  lemma InfoSnoc(cs: seq<Change>, b: nat, r0: Record, r1: Record)
    requires b < |cs| - 1 && InfoSince(cs[..|cs| - 1], b, r0)
    requires var c := cs[|cs| - 1];
             if c.Info? then r1.contentType == Some(c.contentType) && r1.dependencies == Some(c.dependencies)
             else r1.contentType == r0.contentType && r1.dependencies == r0.dependencies
    ensures InfoSince(cs, b, r1)
  {
    var init := cs[..|cs| - 1];
    if cs[|cs| - 1].Info? {
      assert LastInfo(cs, b, |cs| - 1);
    } else if i :| 0 <= i < |init| && LastInfo(init, b, i) && r0.contentType == Some(init[i].contentType) &&
                   r0.dependencies == Some(init[i].dependencies) {
      assert LastInfo(cs, b, i);
    } else {
      assert forall i | b < i < |init| :: !init[i].Info? && init[i] == cs[i];
    }
  }

  lemma SizeSnoc(cs: seq<Change>, b: nat, r0: Record, r1: Record)
    requires b < |cs| - 1 && SizeSince(cs[..|cs| - 1], b, r0)
    requires var c := cs[|cs| - 1];
             if c.Stat? then r1.size == Some(c.size) else r1.size == r0.size
    ensures SizeSince(cs, b, r1)
  {
    var init := cs[..|cs| - 1];
    if cs[|cs| - 1].Stat? {
      assert LastStat(cs, b, |cs| - 1);
    } else if i :| 0 <= i < |init| && LastStat(init, b, i) && r0.size == Some(init[i].size) {
      assert LastStat(cs, b, i);
    } else {
      assert forall i | b < i < |init| :: !init[i].Stat? && init[i] == cs[i];
    }
  }

  /** The remaining fields: `created` is the birth, `updated` the last change, metadata the last since birth. */
  lemma {:induction false} MetadataHistory(cs: seq<Change>) returns (b: nat)
    requires Fold(None, cs).Done? && Fold(None, cs).value.Some?
    ensures b < |cs| && IsBirth(cs, b)
    ensures var r := Fold(None, cs).value.value;
            && r.created == cs[b].time
            && r.updated == cs[|cs| - 1].time
            && InfoSince(cs, b, r)
            && SizeSince(cs, b, r)
  {
    var init, r := cs[..|cs| - 1], Fold(None, cs).value.value;
    DeletedIffEmptied(cs);
    if Fold(None, init).value.Some? {
      b := MetadataHistory(init);
      BirthSnoc(cs, b);
      InfoSnoc(cs, b, Fold(None, init).value.value, r);
      SizeSnoc(cs, b, Fold(None, init).value.value, r);
    } else {
      b := |cs| - 1;
      PresenceHistory(init);
      forall i | 0 <= i < b {
        SurvivesSnoc(cs, i);
      }
    }
  }

  ghost predicate TaggedLastBy(acts: seq<Action>, i: nat, key: TagKey, d: Digest)
    requires i < |acts|
  {
    && TargetOf(acts[i]) == Tagging(key, d)
    && forall j | i < j < |acts| :: !(TargetOf(acts[j]).Tagging? && TargetOf(acts[j]).key == key)
  }

  /** From an empty registry a tag resolves to `d` exactly when its last `HashTagged` named `d`. */
  lemma {:induction false} TagHistory(acts: seq<Action>, key: TagKey, d: Digest)
    requires Run(EMPTY_TREES, acts).Done?
    ensures Run(EMPTY_TREES, acts).value.Tag(key) == Some(d) <==>
            exists i | 0 <= i < |acts| :: TaggedLastBy(acts, i, key, d)
  {
    if acts != [] {
      var init, t := acts[..|acts| - 1], TargetOf(acts[|acts| - 1]);
      TagHistory(init, key, d);
      if t.Tagging? && t.key == key {
        if t.digest == d {
          assert TaggedLastBy(acts, |acts| - 1, key, d);
        }
      } else {
        forall i | 0 <= i < |init|
          ensures TaggedLastBy(acts, i, key, d) <==> TaggedLastBy(init, i, key, d)
        {
        }
        if exists i | 0 <= i < |init| :: TaggedLastBy(init, i, key, d) {
          var i :| 0 <= i < |init| && TaggedLastBy(init, i, key, d);
          assert TaggedLastBy(acts, i, key, d);
        }
      }
    }
  }

  /** The same facts about any record of a registry replayed from an empty one. */
  lemma ReplayedLocations(acts: seq<Action>, k: Kind, d: Digest, n: NodeId)
    requires Run(EMPTY_TREES, acts).Done?
    ensures var o := Run(EMPTY_TREES, acts).value.Get(k, d);
            (o.Some? && n in o.value.locations) <==> Holds(Changes(acts, k, d), n)
  {
    RunProjects(EMPTY_TREES, acts, k, d);
    LocationsHistory(Changes(acts, k, d), n);
  }

  /** A record that has no content type yet has no dependencies. */
  predicate AnalysedIfDependent(r: Record) {
    r.dependencies.Some? && (r.contentType.None? ==> r.dependencies == Some([]))
  }

  ghost predicate AllAnalysedIfDependent(s: Trees) {
    forall k, d | d in s.Of(k) :: AnalysedIfDependent(s.Of(k)[d])
  }

  lemma {:induction false} FoldKeepsAnalysed(o: Option<Record>, cs: seq<Change>)
    requires o.Some? ==> AnalysedIfDependent(o.value)
    requires Fold(o, cs).Done?
    ensures Fold(o, cs).value.Some? ==> AnalysedIfDependent(Fold(o, cs).value.value)
  {
    if cs != [] {
      FoldKeepsAnalysed(o, cs[..|cs| - 1]);
    }
  }

  /** So in every state the log can reach. */
  lemma RunKeepsAnalysed(s: Trees, acts: seq<Action>)
    requires AllAnalysedIfDependent(s) && Run(s, acts).Done?
    ensures AllAnalysedIfDependent(Run(s, acts).value)
  {
    var t := Run(s, acts).value;
    forall k, d | d in t.Of(k)
      ensures AnalysedIfDependent(t.Of(k)[d])
    {
      assert s.Get(k, d).Some? ==> AnalysedIfDependent(s.Of(k)[d]);
      RunProjects(s, acts, k, d);
      FoldKeepsAnalysed(s.Get(k, d), Changes(acts, k, d));
    }
  }
}
