/** The Raft log kept in a byte-keyed tree (`src/store/mod.rs`), against an index-keyed model of it. */
module RaftLog {
  import opened Types
  import opened Encoding
  import opened TagScan

  const MAX_INDEX := 0xFFFF_FFFF_FFFF_FFFF

  function IdToBin(id: nat): Bytes {
    BigEndian(id, 8)
  }

  function BinToId(b: Bytes): nat {
    FromBigEndian(b)
  }

  /** Eight-byte keys sort exactly as the indexes they encode. */
  lemma KeysSortAsIndexes(a: nat, b: nat)
    requires a <= MAX_INDEX && b <= MAX_INDEX
    ensures Less(IdToBin(a), IdToBin(b)) <==> a < b
    ensures BinToId(IdToBin(a)) == a
  {
    Powers();
    BigEndianDecodes(a, 8);
    if a < b {
      BigEndianIncreases(a, b, 8);
    } else {
      if b < a {
        BigEndianIncreases(b, a, 8);
      }
      if Less(IdToBin(a), IdToBin(b)) {
        if b < a {
          LessTransitive(IdToBin(a), IdToBin(b), IdToBin(a));
        }
        LessIrreflexive(IdToBin(a));
      }
    }
  }

  /** Every eight-byte string is the key of exactly one index. */
  lemma KeysAreOnto(b: Bytes)
    requires |b| == 8
    ensures BinToId(b) <= MAX_INDEX && IdToBin(BinToId(b)) == b
  {
    Powers();
    BigEndianOnto(b);
  }

  // ----- the index-keyed model -----

  datatype Log = Log(entries: map<nat, Entry>, purged: Option<LogId>)

  datatype LogOp = Append(appended: seq<Entry>) | Truncate(since: LogId) | Purge(upTo: LogId)

  function Appended(m: map<nat, Entry>, es: seq<Entry>): map<nat, Entry> {
    if es == [] then m
    else Appended(m, es[..|es| - 1])[es[|es| - 1].logId.index := es[|es| - 1]]
  }

  lemma AppendedSnoc(m: map<nat, Entry>, es: seq<Entry>, i: nat)
    requires i < |es|
    ensures Appended(m, es[..i + 1]) == Appended(m, es[..i])[es[i].logId.index := es[i]]
  {
    assert es[..i + 1][..i] == es[..i];
  }

  predicate Between(from: nat, to: nat, closed: bool, i: nat) {
    from <= i && (if closed then i <= to else i < to)
  }

  /** The entries outside a range of indexes. */
  function Without(m: map<nat, Entry>, from: nat, to: nat, closed: bool): map<nat, Entry> {
    map i | i in m && !Between(from, to, closed, i) :: m[i]
  }

  function ApplyOp(m: Log, op: LogOp): Log {
    match op
    case Append(es) => Log(Appended(m.entries, es), m.purged)
    case Truncate(id) =>
      Log(Without(m.entries, id.index, MAX_INDEX, false), m.purged)
    case Purge(id) =>
      Log(Without(m.entries, 0, id.index, true), Some(id))
  }

  /** Entry `j` of `es` is the last one with index `i`. */
  ghost predicate LastWith(es: seq<Entry>, j: nat, i: nat)
    requires j < |es|
  {
    es[j].logId.index == i && forall x | j < x < |es| :: es[x].logId.index != i
  }

  /** Of the entries appended with one index the last one stays. */
  lemma {:induction false} AppendedLast(m: map<nat, Entry>, es: seq<Entry>, j: nat, i: nat)
    requires j < |es| && LastWith(es, j, i)
    ensures i in Appended(m, es) && Appended(m, es)[i] == es[j]
  {
    var init := es[..|es| - 1];
    if j < |init| {
      assert forall x | j < x < |init| :: init[x] == es[x];
      assert es[|es| - 1].logId.index != i;
      AppendedLast(m, init, j, i);
    }
  }

  /** Other indexes keep what they had. */
  lemma {:induction false} AppendedOther(m: map<nat, Entry>, es: seq<Entry>, i: nat)
    requires forall j | 0 <= j < |es| :: es[j].logId.index != i
    ensures i in Appended(m, es) <==> i in m
    ensures i in m ==> Appended(m, es)[i] == m[i]
  {
    if es != [] {
      AppendedOther(m, es[..|es| - 1], i);
    }
  }

  /** The three operations, index by index; a purge keeps the whole id it is given. */
  lemma OpMeans(m: Log, op: LogOp, i: nat)
    ensures var n := ApplyOp(m, op);
            match op
            case Append(es) => n.purged == m.purged && n.entries == Appended(m.entries, es)
            case Truncate(id) =>
              && n.purged == m.purged
              && (i in n.entries <==> i in m.entries && (i < id.index || i >= 0xFFFF_FFFF_FFFF_FFFF))
              && (i in n.entries ==> n.entries[i] == m.entries[i])
            case Purge(id) =>
              && n.purged == Some(id)
              && (i in n.entries <==> i in m.entries && i > id.index)
              && (i in n.entries ==> n.entries[i] == m.entries[i])
  {
  }

  datatype Bound = Included(index: nat) | Excluded(index: nat) | Unbounded

  predicate InRange(lo: Bound, hi: Bound, i: nat) {
    && (match lo case Included(x) => x <= i case Excluded(x) => x < i case Unbounded => true)
    && (match hi case Included(x) => i <= x case Excluded(x) => i < x case Unbounded => true)
  }

  /** The last log id the store reports: that of the last entry, or of the last purge if there is none. */
  ghost predicate IsLast(m: Log, last: Option<LogId>) {
    if m.entries == map[] then last == m.purged
    else exists k | k in m.entries :: (forall j | j in m.entries :: j <= k) && last == Some(m.entries[k].logId)
  }

  // ----- the store -----

  type LogTree = map<Bytes, Entry>

  /** The index-keyed view of a byte-keyed tree. */
  ghost function Indexed(tree: LogTree): (m: map<nat, Entry>)
    ensures forall i: nat :: i in m <==> i <= MAX_INDEX && IdToBin(i) in tree
    ensures forall i: nat | i in m :: m[i] == tree[IdToBin(i)]
  {
    map i: nat | 0 <= i <= MAX_INDEX && IdToBin(i) in tree :: tree[IdToBin(i)]
  }

  /** Keys are eight bytes and name the index of the entry they lead to. */
  ghost predicate WellKeyed(tree: LogTree) {
    forall k | k in tree :: |k| == 8 && tree[k].logId.index == BinToId(k)
  }

  lemma PutIndexed(tree: LogTree, e: Entry)
    requires WellKeyed(tree) && e.logId.index <= MAX_INDEX
    ensures var tree' := tree[IdToBin(e.logId.index) := e];
            WellKeyed(tree') && Indexed(tree') == Indexed(tree)[e.logId.index := e]
    ensures BinToId(IdToBin(e.logId.index)) == e.logId.index
  {
    forall i: nat | i <= MAX_INDEX
      ensures IdToBin(i) == IdToBin(e.logId.index) <==> i == e.logId.index
      ensures BinToId(IdToBin(i)) == i
    {
      KeysSortAsIndexes(i, e.logId.index);
      KeysSortAsIndexes(e.logId.index, i);
    }
  }

  /** The keys of a byte range, with its upper end included or not. */
  function KeysBetween(tree: LogTree, from: Bytes, to: Bytes, closed: bool): set<Bytes> {
    set k | k in tree && !Less(k, from) && (if closed then !Less(to, k) else Less(k, to))
  }

  /** Walk a byte range and note every key for removal. */
  method RemovalBatch(tree: LogTree, from: Bytes, to: Bytes, closed: bool) returns (batch: set<Bytes>)
    ensures batch == KeysBetween(tree, from, to, closed)
  {
    batch := {};
    var rest := KeysBetween(tree, from, to, closed);
    while rest != {}
      invariant batch + rest == KeysBetween(tree, from, to, closed)
    {
      var key :| key in rest;
      batch := batch + {key};
      rest := rest - {key};
    }
  }

  lemma KeyBetween(tree: LogTree, from: nat, to: nat, closed: bool, i: nat)
    requires from <= MAX_INDEX && to <= MAX_INDEX && i <= MAX_INDEX && IdToBin(i) in tree
    ensures IdToBin(i) in KeysBetween(tree, IdToBin(from), IdToBin(to), closed) <==> Between(from, to, closed, i)
  {
    KeysSortAsIndexes(i, from);
    KeysSortAsIndexes(i, to);
    KeysSortAsIndexes(to, i);
  }

  /** Removing a range of byte keys removes exactly that range of indexes. */
  lemma RemoveBetween(tree: LogTree, from: nat, to: nat, closed: bool)
    requires WellKeyed(tree) && from <= MAX_INDEX && to <= MAX_INDEX
    ensures var tree' := tree - KeysBetween(tree, IdToBin(from), IdToBin(to), closed);
            && WellKeyed(tree')
            && Indexed(tree') == Without(Indexed(tree), from, to, closed)
  {
    forall i: nat | i <= MAX_INDEX && IdToBin(i) in tree {
      KeyBetween(tree, from, to, closed, i);
    }
  }

  function StartIndex(lo: Bound): nat {
    match lo case Included(x) => x case Excluded(x) => x + 1 case Unbounded => 0
  }

  /** The first key of a range read. */
  function Start(lo: Bound): Bytes {
    IdToBin(StartIndex(lo))
  }

  lemma RowIndex(tree: LogTree, start: nat, rows: seq<Bytes>, j: nat) returns (i: nat)
    requires WellKeyed(tree) && start <= MAX_INDEX && IsScan(tree.Keys, IdToBin(start), rows) && j < |rows|
    ensures i == BinToId(rows[j]) && rows[j] == IdToBin(i)
    ensures start <= i <= MAX_INDEX && i in Indexed(tree) && Indexed(tree)[i] == tree[rows[j]]
    ensures tree[rows[j]].logId.index == i
  {
    assert rows[j] in rows;
    KeysAreOnto(rows[j]);
    i := BinToId(rows[j]);
    KeysSortAsIndexes(i, start);
  }

  lemma RowsAscend(tree: LogTree, start: nat, rows: seq<Bytes>, i: nat, j: nat)
    requires WellKeyed(tree) && start <= MAX_INDEX && IsScan(tree.Keys, IdToBin(start), rows) && i < j < |rows|
    ensures BinToId(rows[i]) < BinToId(rows[j])
  {
    var a := RowIndex(tree, start, rows, i);
    var b := RowIndex(tree, start, rows, j);
    assert Less(rows[i], rows[j]);
    KeysSortAsIndexes(a, b);
  }

  /** Stopping at the first row outside the range loses nothing. */
  lemma RangeRead(tree: LogTree, lo: Bound, hi: Bound, rows: seq<Bytes>, entries: seq<Entry>)
    requires WellKeyed(tree) && StartIndex(lo) <= MAX_INDEX && IsScan(tree.Keys, Start(lo), rows)
    requires |entries| <= |rows|
    requires forall j | 0 <= j < |entries| ::
               rows[j] in tree && entries[j] == tree[rows[j]] && InRange(lo, hi, BinToId(rows[j]))
    requires |entries| < |rows| ==> !InRange(lo, hi, BinToId(rows[|entries|]))
    ensures forall e :: e in entries <==>
              e.logId.index in Indexed(tree) && Indexed(tree)[e.logId.index] == e && InRange(lo, hi, e.logId.index)
    ensures forall i, j | 0 <= i < j < |entries| :: entries[i].logId.index < entries[j].logId.index
  {
    forall e
      ensures e in entries <==>
              e.logId.index in Indexed(tree) && Indexed(tree)[e.logId.index] == e && InRange(lo, hi, e.logId.index)
    {
      if j :| 0 <= j < |entries| && entries[j] == e {
        var i := RowIndex(tree, StartIndex(lo), rows, j);
      }
      var i := e.logId.index;
      if i in Indexed(tree) && Indexed(tree)[i] == e && InRange(lo, hi, i) {
        RangeReadHas(tree, lo, hi, rows, entries, i);
      }
    }
    forall i, j | 0 <= i < j < |entries|
      ensures entries[i].logId.index < entries[j].logId.index
    {
      RowsAscend(tree, StartIndex(lo), rows, i, j);
      var a := RowIndex(tree, StartIndex(lo), rows, i);
      var b := RowIndex(tree, StartIndex(lo), rows, j);
    }
  }

  lemma RangeReadHas(tree: LogTree, lo: Bound, hi: Bound, rows: seq<Bytes>, entries: seq<Entry>, i: nat)
    requires WellKeyed(tree) && StartIndex(lo) <= MAX_INDEX && IsScan(tree.Keys, Start(lo), rows)
    requires |entries| <= |rows|
    requires forall j | 0 <= j < |entries| :: rows[j] in tree && entries[j] == tree[rows[j]]
    requires |entries| < |rows| ==> !InRange(lo, hi, BinToId(rows[|entries|]))
    requires i in Indexed(tree) && InRange(lo, hi, i)
    ensures Indexed(tree)[i] in entries
  {
    KeysSortAsIndexes(i, StartIndex(lo));
    assert IdToBin(i) in rows;
    var n :| 0 <= n < |rows| && rows[n] == IdToBin(i);
    if n >= |entries| {
      var stop := RowIndex(tree, StartIndex(lo), rows, |entries|);
      if n > |entries| {
        RowsAscend(tree, StartIndex(lo), rows, |entries|, n);
      }
    } else {
      assert entries[n] == Indexed(tree)[i];
    }
  }

  /** The read loop: take entries while their ids are in range, checking each id against its entry. */
  method TakeRange(tree: LogTree, lo: Bound, hi: Bound, rows: seq<Bytes>) returns (entries: seq<Entry>)
    requires WellKeyed(tree) && forall i | 0 <= i < |rows| :: rows[i] in tree
    ensures |entries| <= |rows|
    ensures forall j | 0 <= j < |entries| ::
              entries[j] == tree[rows[j]] && InRange(lo, hi, BinToId(rows[j]))
    ensures |entries| < |rows| ==> !InRange(lo, hi, BinToId(rows[|entries|]))
  {
    entries := [];
    for n := 0 to |rows|
      invariant |entries| == n
      invariant forall j | 0 <= j < n :: entries[j] == tree[rows[j]] && InRange(lo, hi, BinToId(rows[j]))
    {
      var entry := tree[rows[n]];
      var id := BinToId(rows[n]);
      assert id == entry.logId.index;
      if !InRange(lo, hi, id) {
        break;
      }
      entries := entries + [entry];
    }
  }

  class LogStore {
    var tree: LogTree
    var lastPurged: Option<LogId>

    ghost predicate Valid()
      reads this
    {
      WellKeyed(tree)
    }

    ghost function Entries(): map<nat, Entry>
      reads this
    {
      Indexed(tree)
    }

    ghost function Model(): Log
      reads this
    {
      Log(Entries(), lastPurged)
    }

    constructor ()
      ensures Valid() && Model() == Log(map[], None)
    {
      tree, lastPurged := map[], None;
    }

    method AppendToLog(entries: seq<Entry>)
      requires Valid() && forall e | e in entries :: e.logId.index <= MAX_INDEX
      modifies `tree
      ensures Valid() && Model() == ApplyOp(old(Model()), Append(entries))
    {
      for i := 0 to |entries|
        invariant WellKeyed(tree) && Indexed(tree) == Appended(old(Indexed(tree)), entries[..i])
      {
        AppendedSnoc(old(Indexed(tree)), entries, i);
        PutIndexed(tree, entries[i]);
        var id := IdToBin(entries[i].logId.index);
        assert BinToId(id) == entries[i].logId.index;
        tree := tree[id := entries[i]];
      }
      assert entries[..|entries|] == entries;
    }

    /** Removes `[since, 2^64 - 1)`: the upper end of the range is exclusive. */
    method DeleteConflictLogsSince(since: LogId)
      requires Valid() && since.index <= MAX_INDEX
      modifies `tree
      ensures Valid() && Model() == ApplyOp(old(Model()), Truncate(since))
    {
      var from, to := IdToBin(since.index), IdToBin(MAX_INDEX);
      var batch := RemovalBatch(tree, from, to, false);
      RemoveBetween(tree, since.index, MAX_INDEX, false);
      tree := tree - batch;
    }

    method PurgeLogsUpTo(upTo: LogId)
      requires Valid() && upTo.index <= MAX_INDEX
      modifies this
      ensures Valid() && Model() == ApplyOp(old(Model()), Purge(upTo))
      ensures lastPurged == Some(upTo) && forall i :: i in Entries() <==> i in old(Entries()) && i > upTo.index
    {
      lastPurged := Some(upTo);
      var from, to := IdToBin(0), IdToBin(upTo.index);
      var batch := RemovalBatch(tree, from, to, true);
      RemoveBetween(tree, 0, upTo.index, true);
      tree := tree - batch;
    }

    /**
      The entries of a range, ascending, none missing. `rows` is what the database yields from the
      start of the range on; the check of each entry against its key never fails.
     */
    method TryGetLogEntries(lo: Bound, hi: Bound, rows: seq<Bytes>) returns (entries: seq<Entry>)
      requires Valid() && IsScan(tree.Keys, Start(lo), rows)
      requires lo.Included? ==> lo.index <= MAX_INDEX
      requires lo.Excluded? ==> lo.index < MAX_INDEX
      ensures forall e :: e in entries <==>
                e.logId.index in Entries() && Entries()[e.logId.index] == e && InRange(lo, hi, e.logId.index)
      ensures forall i, j | 0 <= i < j < |entries| :: entries[i].logId.index < entries[j].logId.index
      // in the terms of the two bounds
      ensures forall e :: e in entries <==>
                && e.logId.index in Entries() && Entries()[e.logId.index] == e
                && (lo.Included? ==> lo.index <= e.logId.index) && (lo.Excluded? ==> lo.index < e.logId.index)
                && (hi.Included? ==> e.logId.index <= hi.index) && (hi.Excluded? ==> e.logId.index < hi.index)
    {
      forall i | 0 <= i < |rows|
        ensures rows[i] in tree
      {
        assert rows[i] in rows;
      }
      entries := TakeRange(tree, lo, hi, rows);
      RangeRead(tree, lo, hi, rows, entries);
    }

    method GetLogState() returns (purged: Option<LogId>, last: Option<LogId>)
      requires Valid()
      ensures purged == lastPurged && IsLast(Model(), last)
      ensures Entries() == map[] ==> last == lastPurged
      ensures Entries() != map[] ==>
                && last.Some? && last.value.index in Entries() && Entries()[last.value.index].logId == last.value
                && forall i | i in Entries() :: i <= last.value.index
    {
      purged := lastPurged;
      if tree == map[] {
        last := lastPurged;
        assert Entries() == map[];
      } else {
        var key := LastKey();
        last := Some(tree[key].logId);
        KeysAreOnto(key);
        var k := BinToId(key);
        assert k in Entries();
        forall j | j in Entries()
          ensures j <= k
        {
          KeysSortAsIndexes(k, j);
        }
      }
    }

    method LastKey() returns (key: Bytes)
      requires tree != map[]
      ensures key in tree && forall k | k in tree :: !Less(key, k)
    {
      key :| key in tree.Keys;
      LessIrreflexive(key);
      var rest := tree.Keys - {key};
      while rest != {}
        invariant key in tree && rest <= tree.Keys
        invariant forall k | k in tree && k !in rest :: !Less(key, k)
      {
        var k :| k in rest;
        if Less(key, k) {
          forall j | j in tree && j !in rest && Less(k, j)
            ensures false
          {
            LessTransitive(key, k, j);
          }
          key := k;
        }
        LessIrreflexive(k);
        rest := rest - {k};
      }
    }
  }

  // ----- runs -----

  function Low(m: Log): nat {
    if m.purged.None? then 0 else m.purged.value.index + 1
  }

  function NextIndex(last: Option<LogId>): nat {
    if last.None? then 0 else last.value.index + 1
  }

  /** The keys are exactly `[lo, hi)` and every entry carries its own index. */
  ghost predicate Spans(m: map<nat, Entry>, lo: nat, hi: nat) {
    && lo <= hi <= MAX_INDEX + 1
    && (forall i :: i in m <==> lo <= i < hi)
    && (forall i | i in m :: m[i].logId.index == i)
  }

  /** Raft appends right after the last log id it was told, and only purges forward. */
  ghost predicate Permitted(m: Log, op: LogOp) {
    match op
    case Append(es) =>
      forall last | IsLast(m, last) ::
        && NextIndex(last) + |es| <= MAX_INDEX + 1
        && forall j | 0 <= j < |es| :: es[j].logId.index == NextIndex(last) + j
    case Truncate(id) => id.index <= MAX_INDEX
    case Purge(id) => Low(m) <= id.index + 1 && id.index <= MAX_INDEX
  }

  /** A truncation that should remove the entry of the largest index, and others before it. */
  predicate TearsOff(m: Log, op: LogOp) {
    op.Truncate? && MAX_INDEX in m.entries && op.since.index < MAX_INDEX && Low(m) < MAX_INDEX
  }

  /** The entries from an index on, which is what truncation is documented to remove. */
  function Before(m: map<nat, Entry>, since: nat): map<nat, Entry> {
    map i | i in m && i < since :: m[i]
  }

  /** Truncation removes `[since, +oo)` if and only if there is no entry of the largest index. */
  lemma TruncatesFullyIff(m: Log, since: LogId)
    requires since.index <= MAX_INDEX && forall i | i in m.entries :: i <= MAX_INDEX
    ensures ApplyOp(m, Truncate(since)).entries == Before(m.entries, since.index) <==> MAX_INDEX !in m.entries
  {
    var left := ApplyOp(m, Truncate(since)).entries;
    if MAX_INDEX in m.entries {
      assert MAX_INDEX in left && MAX_INDEX !in Before(m.entries, since.index);
    } else {
      forall i
        ensures i in left <==> i in Before(m.entries, since.index)
        ensures i in left ==> left[i] == Before(m.entries, since.index)[i]
      {
      }
    }
  }

  function RunOps(m: Log, ops: seq<LogOp>): Log {
    if ops == [] then m else ApplyOp(RunOps(m, ops[..|ops| - 1]), ops[|ops| - 1])
  }

  ghost predicate PermittedRun(m: Log, ops: seq<LogOp>) {
    ops == [] ||
    (&& PermittedRun(m, ops[..|ops| - 1])
     && Permitted(RunOps(m, ops[..|ops| - 1]), ops[|ops| - 1])
     && !TearsOff(RunOps(m, ops[..|ops| - 1]), ops[|ops| - 1]))
  }

  lemma {:induction false} AppendSpans(m: map<nat, Entry>, es: seq<Entry>, lo: nat, hi: nat)
    requires Spans(m, lo, hi) && hi + |es| <= MAX_INDEX + 1
    requires forall j | 0 <= j < |es| :: es[j].logId.index == hi + j
    ensures Spans(Appended(m, es), lo, hi + |es|)
  {
    if es != [] {
      AppendSpans(m, es[..|es| - 1], lo, hi);
    }
  }

  lemma LastOfSpan(m: Log, hi: nat, last: Option<LogId>)
    requires Spans(m.entries, Low(m), hi) && IsLast(m, last)
    ensures NextIndex(last) == hi
  {
    if m.entries == map[] {
      assert Low(m) !in m.entries;
    } else {
      var k :| k in m.entries && (forall j | j in m.entries :: j <= k) && last == Some(m.entries[k].logId);
      assert hi - 1 in m.entries;
    }
  }

  lemma SpanHasLast(m: Log, hi: nat) returns (last: Option<LogId>)
    requires Spans(m.entries, Low(m), hi)
    ensures IsLast(m, last)
  {
    if m.entries == map[] {
      last := m.purged;
    } else {
      var i :| i in m.entries;
      assert hi - 1 in m.entries;
      last := Some(m.entries[hi - 1].logId);
    }
  }

  ghost predicate IsInterval(m: Log) {
    exists hi :: Spans(m.entries, Low(m), hi)
  }

  lemma AppendKeepsInterval(m: Log, es: seq<Entry>, hi: nat)
    requires Spans(m.entries, Low(m), hi) && Permitted(m, Append(es))
    ensures Spans(ApplyOp(m, Append(es)).entries, Low(ApplyOp(m, Append(es))), hi + |es|)
  {
    var last := SpanHasLast(m, hi);
    LastOfSpan(m, hi, last);
    AppendSpans(m.entries, es, Low(m), hi);
  }

  lemma PurgeKeepsInterval(m: Log, id: LogId, hi: nat)
    requires Spans(m.entries, Low(m), hi) && Permitted(m, Purge(id))
    ensures var n := ApplyOp(m, Purge(id)); Spans(n.entries, Low(n), if id.index + 1 < hi then hi else id.index + 1)
  {
  }

  lemma TruncateKeepsIntervalIff(m: Log, id: LogId, hi: nat)
    requires Spans(m.entries, Low(m), hi) && id.index <= MAX_INDEX
    ensures IsInterval(ApplyOp(m, Truncate(id))) <==> !TearsOff(m, Truncate(id))
  {
    var n := ApplyOp(m, Truncate(id));
    if TearsOff(m, Truncate(id)) {
      assert MAX_INDEX in n.entries;
      var gap := if id.index < Low(m) then Low(m) else id.index;
      assert Low(n) <= gap < MAX_INDEX && gap !in n.entries;
      forall top
        ensures !Spans(n.entries, Low(n), top)
      {
      }
    } else if MAX_INDEX in m.entries {
      assert n.entries == m.entries by {
        assert forall i | i in m.entries :: Low(m) <= i;
      }
      assert Spans(n.entries, Low(n), hi);
    } else {
      var top := if id.index < Low(m) then Low(m) else if id.index < hi then id.index else hi;
      assert Spans(n.entries, Low(n), top);
    }
  }

  /**
    A permitted operation keeps the log an interval that starts after the last purged index if and only if
    it does not tear off the entry of the largest index.
   */
  lemma OpKeepsIntervalIff(m: Log, op: LogOp)
    requires IsInterval(m) && Permitted(m, op)
    ensures IsInterval(ApplyOp(m, op)) <==> !TearsOff(m, op)
  {
    var hi :| Spans(m.entries, Low(m), hi);
    match op {
      case Append(es) =>
        AppendKeepsInterval(m, es, hi);
      case Truncate(id) =>
        TruncateKeepsIntervalIff(m, id, hi);
      case Purge(id) =>
        PurgeKeepsInterval(m, id, hi);
    }
  }

  /**
    Over every permitted run the keys are exactly the interval after the last purged index up to the
    last log id reported, each entry under its own index.
   */
  lemma {:induction false} RunsKeepSpan(ops: seq<LogOp>) returns (hi: nat)
    requires PermittedRun(Log(map[], None), ops)
    ensures var m := RunOps(Log(map[], None), ops);
            && Spans(m.entries, Low(m), hi)
            && forall last | IsLast(m, last) :: NextIndex(last) == hi
  {
    var m := RunOps(Log(map[], None), ops);
    if ops == [] {
      hi := 0;
    } else {
      var before := RunsKeepSpan(ops[..|ops| - 1]);
      OpKeepsIntervalIff(RunOps(Log(map[], None), ops[..|ops| - 1]), ops[|ops| - 1]);
      hi :| Spans(m.entries, Low(m), hi);
    }
    forall last | IsLast(m, last)
      ensures NextIndex(last) == hi
    {
      LastOfSpan(m, hi, last);
    }
  }
}
