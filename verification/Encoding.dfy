/** Byte order and the encodings of database keys: big-endian integers, and bincode's varint-prefixed strings. */
module Encoding {
  import opened Types

  /** Strict lexicographic order, the order in which the database keeps its keys. */
  predicate Less(a: Bytes, b: Bytes) {
    if b == [] then false
    else if a == [] then true
    else a[0] < b[0] || (a[0] == b[0] && Less(a[1..], b[1..]))
  }

  /** Up to position `n` the strings agree, and there the first one ends or has the smaller byte. */
  predicate DiffersAt(a: Bytes, b: Bytes, n: nat) {
    && n <= |a| && n < |b| && a[..n] == b[..n]
    && (n == |a| || a[n] < b[n])
  }

  lemma {:induction false} LessIff(a: Bytes, b: Bytes)
    ensures Less(a, b) <==> exists n :: DiffersAt(a, b, n)
  {
    if a == [] || b == [] {
      assert b != [] ==> DiffersAt([], b, 0);
    } else if a[0] != b[0] {
      assert a[0] < b[0] ==> DiffersAt(a, b, 0);
    } else {
      LessIff(a[1..], b[1..]);
      if n: nat :| DiffersAt(a[1..], b[1..], n) {
        assert a[..n + 1] == [a[0]] + a[1..][..n] && b[..n + 1] == [b[0]] + b[1..][..n];
        assert DiffersAt(a, b, n + 1);
      }
      if n: nat :| DiffersAt(a, b, n) {
        assert n > 0;
        assert a[1..][..n - 1] == a[..n][1..] && b[1..][..n - 1] == b[..n][1..];
        assert DiffersAt(a[1..], b[1..], n - 1);
      }
    }
  }

  lemma {:induction false} LessIrreflexive(a: Bytes)
    ensures !Less(a, a)
  {
    if a != [] {
      LessIrreflexive(a[1..]);
    }
  }

  lemma {:induction false} LessTransitive(a: Bytes, b: Bytes, c: Bytes)
    requires Less(a, b) && Less(b, c)
    ensures Less(a, c)
  {
    if a != [] && a[0] == b[0] && b[0] == c[0] {
      LessTransitive(a[1..], b[1..], c[1..]);
    }
  }

  lemma {:induction false} LessTotal(a: Bytes, b: Bytes)
    ensures Less(a, b) || a == b || Less(b, a)
  {
    if a != [] && b != [] && a[0] == b[0] {
      LessTotal(a[1..], b[1..]);
      assert a == [a[0]] + a[1..] && b == [b[0]] + b[1..];
    }
  }

  lemma {:induction false} LessAfterPrefix(p: Bytes, a: Bytes, b: Bytes)
    ensures Less(p + a, p + b) <==> Less(a, b)
  {
    if p == [] {
      assert p + a == a && p + b == b;
    } else {
      LessAfterPrefix(p[1..], a, b);
      assert (p + a)[1..] == p[1..] + a && (p + b)[1..] == p[1..] + b;
    }
  }

  lemma {:induction false} LessBeforeSuffix(a: Bytes, b: Bytes, x: Bytes, y: Bytes)
    requires |a| == |b| && Less(a, b)
    ensures Less(a + x, b + y)
  {
    assert (a + x)[1..] == a[1..] + x && (b + y)[1..] == b[1..] + y;
    if a[0] == b[0] {
      LessBeforeSuffix(a[1..], b[1..], x, y);
    }
  }

  /** The keys that share a prefix are contiguous. */
  lemma {:induction false} PrefixConvex(p: Bytes, a: Bytes, b: Bytes, c: Bytes)
    requires p <= a && p <= c && Less(a, b) && Less(b, c)
    ensures p <= b
  {
    if p != [] {
      assert b != [];
      PrefixConvex(p[1..], a[1..], b[1..], c[1..]);
      assert b == [b[0]] + b[1..] && p == [p[0]] + p[1..];
    }
  }

  // ----- big-endian integers -----

  function Pow256(w: nat): (p: nat)
    ensures p > 0
  {
    if w == 0 then 1 else 256 * Pow256(w - 1)
  }

  function BigEndian(n: nat, w: nat): (b: Bytes)
    ensures |b| == w
  {
    if w == 0 then [] else BigEndian(n / 256, w - 1) + [n % 256]
  }

  function FromBigEndian(b: Bytes): nat {
    if b == [] then 0 else 256 * FromBigEndian(b[..|b| - 1]) + b[|b| - 1]
  }

  lemma {:induction false} BigEndianDecodes(n: nat, w: nat)
    requires n < Pow256(w)
    ensures FromBigEndian(BigEndian(n, w)) == n
  {
    if w > 0 {
      BigEndianDecodes(n / 256, w - 1);
      assert BigEndian(n, w)[..w - 1] == BigEndian(n / 256, w - 1);
    }
  }

  lemma {:induction false} BigEndianOnto(b: Bytes)
    ensures FromBigEndian(b) < Pow256(|b|)
    ensures BigEndian(FromBigEndian(b), |b|) == b
  {
    if b != [] {
      BigEndianOnto(b[..|b| - 1]);
      assert b == b[..|b| - 1] + [b[|b| - 1]];
    }
  }

  lemma {:induction false} BigEndianIncreases(m: nat, n: nat, w: nat)
    requires m < n < Pow256(w)
    ensures Less(BigEndian(m, w), BigEndian(n, w))
  {
    var a, b := BigEndian(m / 256, w - 1), BigEndian(n / 256, w - 1);
    if m / 256 < n / 256 {
      BigEndianIncreases(m / 256, n / 256, w - 1);
      LessBeforeSuffix(a, b, [m % 256], [n % 256]);
    } else {
      LessAfterPrefix(a, [m % 256], [n % 256]);
    }
  }

  // ----- bincode varints and strings -----

  /** Small values in one byte; 251, 252 and 253 announce a big-endian u16, u32 and u64. */
  function Varint(n: nat): Bytes
    requires n < 0x1_0000_0000_0000_0000
  {
    if n < 251 then [n]
    else if n < 0x1_0000 then [251] + BigEndian(n, 2)
    else if n < 0x1_0000_0000 then [252] + BigEndian(n, 4)
    else [253] + BigEndian(n, 8)
  }

  function Take(b: Bytes, w: nat): Option<(nat, Bytes)> {
    if |b| < w then None else Some((FromBigEndian(b[..w]), b[w..]))
  }

  function FromVarint(b: Bytes): Option<(nat, Bytes)> {
    if b == [] then None
    else if b[0] < 251 then Some((b[0], b[1..]))
    else if b[0] == 251 then Take(b[1..], 2)
    else if b[0] == 252 then Take(b[1..], 4)
    else if b[0] == 253 then Take(b[1..], 8)
    else None
  }

  function EncodeName(s: Name): Bytes {
    Varint(|s|) + s
  }

  function DecodeName(b: Bytes): Option<(Bytes, Bytes)> {
    match FromVarint(b)
    case None => None
    case Some((n, rest)) => if |rest| < n then None else Some((rest[..n], rest[n..]))
  }

  function EncodeKey(k: TagKey): Bytes {
    EncodeName(k.repository) + EncodeName(k.tag)
  }

  function DecodeKey(b: Bytes): Option<TagKey> {
    match DecodeName(b)
    case None => None
    case Some((repository, rest)) =>
      match DecodeName(rest)
      case None => None
      case Some((tag, rest')) =>
        if rest' == [] && |repository| < 0x8000_0000_0000_0000 && |tag| < 0x8000_0000_0000_0000
        then Some(TagKey(repository, tag)) else None
  }

  lemma Powers()
    ensures Pow256(2) == 0x1_0000 && Pow256(4) == 0x1_0000_0000 && Pow256(8) == 0x1_0000_0000_0000_0000
  {
    assert Pow256(1) == 256 && Pow256(3) == 0x100_0000;
    assert Pow256(5) == 0x100_0000_0000 && Pow256(6) == 0x1_0000_0000_0000 && Pow256(7) == 0x100_0000_0000_0000;
  }

  /** Every varint above 250 is a marker and a big-endian integer of the width it announces. */
  function WidthOf(n: nat): nat {
    if n < 251 then 0 else if n < 0x1_0000 then 2 else if n < 0x1_0000_0000 then 4 else 8
  }

  function MarkerOf(n: nat): Byte {
    if n < 251 then n else if n < 0x1_0000 then 251 else if n < 0x1_0000_0000 then 252 else 253
  }

  lemma VarintShape(n: nat)
    requires n < 0x1_0000_0000_0000_0000
    ensures Varint(n) == [MarkerOf(n)] + BigEndian(n, WidthOf(n))
    ensures n >= 251 ==> n < Pow256(WidthOf(n))
  {
    Powers();
    assert BigEndian(n, 0) == [];
  }

  lemma VarintDecodes(n: nat, x: Bytes)
    requires n < 0x1_0000_0000_0000_0000
    ensures FromVarint(Varint(n) + x) == Some((n, x))
  {
    VarintShape(n);
    var rest := (Varint(n) + x)[1..];
    assert rest == BigEndian(n, WidthOf(n)) + x;
    if n >= 251 {
      BigEndianDecodes(n, WidthOf(n));
      assert rest[..WidthOf(n)] == BigEndian(n, WidthOf(n)) && rest[WidthOf(n)..] == x;
    } else {
      assert rest == x;
    }
  }

  /** A name is read back exactly, whatever follows it. */
  lemma NameDecodes(s: Name, x: Bytes)
    ensures DecodeName(EncodeName(s) + x) == Some((s, x))
  {
    VarintDecodes(|s|, s + x);
    assert EncodeName(s) + x == Varint(|s|) + (s + x);
    assert (s + x)[..|s|] == s && (s + x)[|s|..] == x;
  }

  lemma KeyDecodes(k: TagKey)
    ensures DecodeKey(EncodeKey(k)) == Some(k)
  {
    NameDecodes(k.repository, EncodeName(k.tag));
    NameDecodes(k.tag, []);
    assert EncodeName(k.tag) + [] == EncodeName(k.tag);
  }

  /** A tag key starts with the encoding of a repository only if it belongs to that repository. */
  lemma PrefixTellsRepository(r: Name, k: TagKey)
    requires EncodeName(r) <= EncodeKey(k)
    ensures k.repository == r
  {
    var x := EncodeKey(k)[|EncodeName(r)|..];
    assert EncodeKey(k) == EncodeName(r) + x;
    NameDecodes(r, x);
    NameDecodes(k.repository, EncodeName(k.tag));
  }

  lemma VarintIncreases(m: nat, n: nat, x: Bytes, y: Bytes)
    requires m < n < 0x1_0000_0000_0000_0000
    ensures Less(Varint(m) + x, Varint(n) + y)
  {
    VarintShape(m);
    VarintShape(n);
    var a, b := BigEndian(m, WidthOf(m)) + x, BigEndian(n, WidthOf(n)) + y;
    assert Varint(m) + x == [MarkerOf(m)] + a && Varint(n) + y == [MarkerOf(n)] + b;
    if MarkerOf(m) == MarkerOf(n) {
      BigEndianIncreases(m, n, WidthOf(n));
      LessBeforeSuffix(BigEndian(m, WidthOf(m)), BigEndian(n, WidthOf(n)), x, y);
    }
    HeadDecides(MarkerOf(m), MarkerOf(n), a, b);
  }

  lemma HeadDecides(h: Byte, g: Byte, a: Bytes, b: Bytes)
    requires h < g || (h == g && Less(a, b))
    ensures Less([h] + a, [g] + b)
  {
    assert ([h] + a)[1..] == a && ([g] + b)[1..] == b;
  }

  /** Encoded names sort by length first and alphabetically only among equals. */
  lemma NamesSortByLength(a: Name, b: Name)
    ensures Less(EncodeName(a), EncodeName(b)) <==> |a| < |b| || (|a| == |b| && Less(a, b))
  {
    if |a| < |b| {
      VarintIncreases(|a|, |b|, a, b);
    } else if |a| == |b| {
      LessAfterPrefix(Varint(|a|), a, b);
    } else {
      VarintIncreases(|b|, |a|, b, a);
      if Less(EncodeName(a), EncodeName(b)) {
        LessTransitive(EncodeName(a), EncodeName(b), EncodeName(a));
        LessIrreflexive(EncodeName(a));
      }
    }
  }

  /** The first bytes of a length, and of a key with short names: repository before tag, each after its length. */
  lemma EncodedMeans(n: nat, r: Name, t: Name)
    ensures n < 251 ==> Varint(n) == [n]
    ensures 251 <= n < 0x1_0000 ==> Varint(n) == [251, n / 256, n % 256]
    ensures 0x1_0000 <= n < 0x1_0000_0000 ==>
              |Varint(n)| == 5 && Varint(n)[0] == 252 && FromBigEndian(Varint(n)[1..]) == n
    ensures 0x1_0000_0000 <= n < 0x1_0000_0000_0000_0000 ==>
              |Varint(n)| == 9 && Varint(n)[0] == 253 && FromBigEndian(Varint(n)[1..]) == n
    ensures |r| < 251 && |t| < 251 ==> EncodeKey(TagKey(r, t)) == [|r|] + r + [|t|] + t
  {
    Powers();
    if 251 <= n < 0x1_0000 {
      assert BigEndian(n / 256, 1) == [n / 256] && BigEndian(n / 256 / 256, 0) == [];
    } else if 0x1_0000 <= n < 0x1_0000_0000 {
      BigEndianDecodes(n, 4);
    } else if 0x1_0000_0000 <= n < 0x1_0000_0000_0000_0000 {
      BigEndianDecodes(n, 8);
    }
  }
}
