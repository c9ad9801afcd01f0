/** Listing the tags of one repository by scanning the byte-keyed tag tree (`get_tags` of `src/store/mod.rs`). */
module TagScan {
  import opened Types
  import opened Encoding

  function KeyBytes(tags: map<TagKey, Digest>): set<Bytes> {
    set k | k in tags :: EncodeKey(k)
  }

  ghost predicate Ascending(rows: seq<Bytes>) {
    forall i, j | 0 <= i < j < |rows| :: Less(rows[i], rows[j])
  }

  /** What a database range scan yields: the keys not below `from`, in ascending order. */
  ghost predicate IsScan(keys: set<Bytes>, from: Bytes, rows: seq<Bytes>) {
    && Ascending(rows)
    && forall k :: k in rows <==> k in keys && !Less(k, from)
  }

  function ScanStart(repository: Name): Bytes {
    EncodeKey(TagKey(repository, []))
  }

  /** The scan starts at or before every key of its repository. */
  lemma StartsBefore(repository: Name, tag: Name)
    ensures !Less(EncodeKey(TagKey(repository, tag)), ScanStart(repository))
  {
    var p := EncodeName(repository);
    LessAfterPrefix(p, EncodeName(tag), EncodeName([]));
    NamesSortByLength(tag, []);
  }

  /** A foreign key met after the start of the scan is above every key of the repository. */
  lemma ForeignEndsRepository(repository: Name, foreign: TagKey, tag: Name)
    requires foreign.repository != repository
    requires !Less(EncodeKey(foreign), ScanStart(repository))
    ensures !Less(EncodeKey(foreign), EncodeKey(TagKey(repository, tag)))
  {
    var p := EncodeName(repository);
    var a, b, c := ScanStart(repository), EncodeKey(foreign), EncodeKey(TagKey(repository, tag));
    assert p <= a && p <= c;
    LessTotal(a, b);
    if Less(b, c) {
      if p <= b {
        PrefixTellsRepository(repository, foreign);
      } else {
        PrefixConvex(p, a, b, c);
      }
    }
  }

  /** The scan loop: decode keys until one belongs to another repository. */
  method TakeRepository(rows: seq<Bytes>, repository: Name) returns (names: seq<Name>)
    requires forall i | 0 <= i < |rows| :: DecodeKey(rows[i]).Some?
    ensures LeadingRows(rows, repository, names)
  {
    names := [];
    for i := 0 to |rows|
      invariant |names| == i
      invariant forall j | 0 <= j < i :: DecodeKey(rows[j]) == Some(TagKey(repository, names[j]))
    {
      var key := DecodeKey(rows[i]).value;
      if key.repository != repository {
        break;
      }
      names := names + [key.tag];
    }
  }

  /** `names` are the tags of the rows before the first foreign one. */
  ghost predicate LeadingRows(rows: seq<Bytes>, repository: Name, names: seq<Name>) {
    && |names| <= |rows|
    && (forall j | 0 <= j < |names| :: DecodeKey(rows[j]) == Some(TagKey(repository, names[j])))
    && (|names| < |rows| ==>
          DecodeKey(rows[|names|]).Some? && DecodeKey(rows[|names|]).value.repository != repository)
  }

  /**
    Exactly the tags of the repository, each once, in the order of their encodings. `rows` is what the
    database yields for the range that starts at the key (repository, "").
   */
  method GetTags(tags: map<TagKey, Digest>, repository: Name, rows: seq<Bytes>) returns (names: seq<Name>)
    requires IsScan(KeyBytes(tags), ScanStart(repository), rows)
    ensures forall t: Name :: t in names <==> TagKey(repository, t) in tags
    ensures forall i, j | 0 <= i < j < |names| :: Less(EncodeName(names[i]), EncodeName(names[j]))
  {
    forall i | 0 <= i < |rows|
      ensures DecodeKey(rows[i]).Some?
    {
      var k := RowIsKey(tags, repository, rows, i);
    }
    names := TakeRepository(rows, repository);
    ListsAll(tags, repository, rows, names);
  }

  lemma RowIsKey(tags: map<TagKey, Digest>, repository: Name, rows: seq<Bytes>, i: nat) returns (k: TagKey)
    requires IsScan(KeyBytes(tags), ScanStart(repository), rows) && i < |rows|
    ensures k in tags && EncodeKey(k) == rows[i] && DecodeKey(rows[i]) == Some(k)
    ensures !Less(rows[i], ScanStart(repository))
  {
    assert rows[i] in rows;
    k :| k in tags && EncodeKey(k) == rows[i];
    KeyDecodes(k);
  }

  lemma ListedOnlyTags(tags: map<TagKey, Digest>, repository: Name, rows: seq<Bytes>, names: seq<Name>, j: nat)
    requires IsScan(KeyBytes(tags), ScanStart(repository), rows) && LeadingRows(rows, repository, names)
    requires j < |names|
    ensures TagKey(repository, names[j]) in tags && rows[j] == EncodeKey(TagKey(repository, names[j]))
  {
    var k := RowIsKey(tags, repository, rows, j);
  }

  lemma ListedEveryTag(tags: map<TagKey, Digest>, repository: Name, rows: seq<Bytes>, names: seq<Name>, t: Name)
    requires IsScan(KeyBytes(tags), ScanStart(repository), rows) && LeadingRows(rows, repository, names)
    requires TagKey(repository, t) in tags
    ensures t in names
  {
    var c := EncodeKey(TagKey(repository, t));
    StartsBefore(repository, t);
    assert c in KeyBytes(tags);
    var i :| 0 <= i < |rows| && rows[i] == c;
    KeyDecodes(TagKey(repository, t));
    if i >= |names| {
      var k := RowIsKey(tags, repository, rows, |names|);
      ForeignEndsRepository(repository, k, t);
    }
  }

  /** The tags of the leading rows of the repository are all its tags, in order. */
  lemma ListsAll(tags: map<TagKey, Digest>, repository: Name, rows: seq<Bytes>, names: seq<Name>)
    requires IsScan(KeyBytes(tags), ScanStart(repository), rows) && LeadingRows(rows, repository, names)
    ensures forall t: Name :: t in names <==> TagKey(repository, t) in tags
    ensures forall i, j | 0 <= i < j < |names| :: Less(EncodeName(names[i]), EncodeName(names[j]))
  {
    forall t: Name
      ensures t in names <==> TagKey(repository, t) in tags
    {
      if j :| 0 <= j < |names| && names[j] == t {
        ListedOnlyTags(tags, repository, rows, names, j);
      }
      if TagKey(repository, t) in tags {
        ListedEveryTag(tags, repository, rows, names, t);
      }
    }
    forall i, j | 0 <= i < j < |names|
      ensures Less(EncodeName(names[i]), EncodeName(names[j]))
    {
      ListedOnlyTags(tags, repository, rows, names, i);
      ListedOnlyTags(tags, repository, rows, names, j);
      assert Less(rows[i], rows[j]);
      LessAfterPrefix(EncodeName(repository), EncodeName(names[i]), EncodeName(names[j]));
    }
  }

  lemma {:induction false} LeastExists(keys: set<Bytes>) returns (least: Bytes)
    requires keys != {}
    ensures least in keys && forall k | k in keys && k != least :: Less(least, k)
  {
    var k :| k in keys;
    if keys == {k} {
      least := k;
    } else {
      var rest := LeastExists(keys - {k});
      LessTotal(rest, k);
      least := if Less(rest, k) then rest else k;
      forall j | j in keys && j != least
        ensures Less(least, j)
      {
        if j != k && least == k && j != rest {
          LessTransitive(k, rest, j);
        }
      }
    }
  }

  /** The database can always produce such a scan. */
  lemma {:induction false} ScanExists(keys: set<Bytes>, from: Bytes) returns (rows: seq<Bytes>)
    ensures IsScan(keys, from, rows)
  {
    if keys == {} {
      rows := [];
    } else {
      var k := LeastExists(keys);
      var rest := ScanExists(keys - {k}, from);
      rows := if Less(k, from) then rest else [k] + rest;
    }
  }
}
