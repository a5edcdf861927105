/** The Hamming distance of bit vectors: the byte-table path, the word path and the
    dispatch between them. */
module Hamming {
  import opened Bitmap

  // The 256-entry table, sixteen entries to a row; only five rows differ.
  const ROW0: seq<nat> := [0, 1, 1, 2, 1, 2, 2, 3, 1, 2, 2, 3, 2, 3, 3, 4]
  const ROW1: seq<nat> := [1, 2, 2, 3, 2, 3, 3, 4, 2, 3, 3, 4, 3, 4, 4, 5]
  const ROW2: seq<nat> := [2, 3, 3, 4, 3, 4, 4, 5, 3, 4, 4, 5, 4, 5, 5, 6]
  const ROW3: seq<nat> := [3, 4, 4, 5, 4, 5, 5, 6, 4, 5, 5, 6, 5, 6, 6, 7]
  const ROW4: seq<nat> := [4, 5, 5, 6, 5, 6, 6, 7, 5, 6, 6, 7, 6, 7, 7, 8]
  const ROWS: seq<seq<nat>> := [
    ROW0, ROW1, ROW1, ROW2, ROW1, ROW2, ROW2, ROW3, ROW1, ROW2, ROW2, ROW3, ROW2, ROW3, ROW3, ROW4]

  function Bit(b: bool): nat {
    if b then 1 else 0
  }

  function Sum(b0: bool, b1: bool, b2: bool, b3: bool, b4: bool, b5: bool, b6: bool, b7: bool): nat {
    Bit(b0) + Bit(b1) + Bit(b2) + Bit(b3) + Bit(b4) + Bit(b5) + Bit(b6) + Bit(b7)
  }

  /** The number of set bits of a byte. */
  function Pop8(x: Byte): nat {
    Sum(BitOf(x, 0), BitOf(x, 1), BitOf(x, 2), BitOf(x, 3), BitOf(x, 4), BitOf(x, 5), BitOf(x, 6), BitOf(x, 7))
  }

  lemma LowNibble(x: Byte)
    ensures (x & 15) as int
      == Bit(BitOf(x, 0)) + 2 * Bit(BitOf(x, 1)) + 4 * Bit(BitOf(x, 2)) + 8 * Bit(BitOf(x, 3))
  {
  }

  lemma HighNibble(x: Byte)
    ensures (x >> 4) as int
      == Bit(BitOf(x, 4)) + 2 * Bit(BitOf(x, 5)) + 4 * Bit(BitOf(x, 6)) + 8 * Bit(BitOf(x, 7))
  {
  }

  lemma RowIsNibble(h: nat)
    requires h < 16
    ensures ROWS[h] == (if ROW0[h] == 0 then ROW0 else if ROW0[h] == 1 then ROW1 else if ROW0[h] == 2 then ROW2
                        else if ROW0[h] == 3 then ROW3 else ROW4)
    ensures ROW0[h] <= 4
  {
  }

  lemma RowAt(l: nat)
    requires l < 16
    ensures ROW1[l] == ROW0[l] + 1 && ROW2[l] == ROW0[l] + 2 && ROW3[l] == ROW0[l] + 3 && ROW4[l] == ROW0[l] + 4
  {
  }

  function Entry(h: nat, l: nat): (n: nat)
    requires h < 16 && l < 16
    ensures n == ROW0[h] + ROW0[l]
  {
    RowIsNibble(h);
    RowAt(l);
    ROWS[h][l]
  }

  function Table(x: Byte): nat {
    LowNibble(x);
    HighNibble(x);
    Entry((x >> 4) as int, (x & 15) as int)
  }

  lemma SumOfNibbles(h: nat, l: nat, b0: bool, b1: bool, b2: bool, b3: bool, b4: bool, b5: bool, b6: bool, b7: bool)
    requires l == Bit(b0) + 2 * Bit(b1) + 4 * Bit(b2) + 8 * Bit(b3)
    requires h == Bit(b4) + 2 * Bit(b5) + 4 * Bit(b6) + 8 * Bit(b7)
    ensures Entry(h, l) == Sum(b0, b1, b2, b3, b4, b5, b6, b7)
  {
  }

  /** Each of the 256 entries is the number of set bits of its index. */
  lemma TableCounts(x: Byte)
    ensures Table(x) == Pop8(x)
  {
    var h, l := (x >> 4) as int, (x & 15) as int;
    LowNibble(x);
    HighNibble(x);
    SumOfNibbles(h, l,
      BitOf(x, 0), BitOf(x, 1), BitOf(x, 2), BitOf(x, 3), BitOf(x, 4), BitOf(x, 5), BitOf(x, 6), BitOf(x, 7));
  }

  lemma XorMasked(x: Byte, y: Byte, m: Byte)
    ensures (x ^ y) & m == (x & m) ^ (y & m)
  {
  }

  /** One bit left of each: they differ exactly when their exclusive or is not zero. */
  lemma XorOfOne(a: Byte, b: Byte, m: Byte)
    requires (a == 0 || a == m) && (b == 0 || b == m) && m != 0
    ensures a ^ b != 0 <==> (a != 0) != (b != 0)
  {
  }

  lemma OneBit(x: Byte, j: nat)
    requires j < CHAR_BIT
    ensures x & Mask(j) == 0 || x & Mask(j) == Mask(j)
  {
    if j == 0 {} else if j == 1 {} else if j == 2 {} else if j == 3 {}
    else if j == 4 {} else if j == 5 {} else if j == 6 {} else {}
  }

  lemma XorBit(x: Byte, y: Byte, j: nat)
    requires j < CHAR_BIT
    ensures BitOf(x ^ y, j) <==> BitOf(x, j) != BitOf(y, j)
  {
    var m := Mask(j);
    XorMasked(x, y, m);
    OneBit(x, j);
    OneBit(y, j);
    XorOfOne(x & m, y & m, m);
  }

  // ----- the distance -----

  function Octet(x: Byte): (r: seq<bool>)
    ensures |r| == CHAR_BIT && forall j | 0 <= j < CHAR_BIT :: r[j] == BitOf(x, j)
  {
    [BitOf(x, 0), BitOf(x, 1), BitOf(x, 2), BitOf(x, 3), BitOf(x, 4), BitOf(x, 5), BitOf(x, 6), BitOf(x, 7)]
  }

  /** The number of the first `n` positions in which two lists differ. */
  function Unlike(p: seq<bool>, q: seq<bool>, n: nat): nat
    requires n <= |p| == |q|
  {
    if n == 0 then 0 else Unlike(p, q, n - 1) + Bit(p[n - 1] != q[n - 1])
  }

  /** The bit positions in which two bytes differ. */
  function ByteDistance(x: Byte, y: Byte): nat {
    Unlike(Octet(x), Octet(y), |Octet(x)|)
  }

  function Distances(a: seq<Byte>, b: seq<Byte>): (r: seq<nat>)
    requires |a| == |b|
    ensures |r| == |a| && forall i | 0 <= i < |a| :: r[i] == ByteDistance(a[i], b[i])
  {
    seq(|a|, i requires 0 <= i < |a| => ByteDistance(a[i], b[i]))
  }

  /** The sum of the first `n` numbers, of each group of eight only the first `w`. */
  function SumTo(ps: seq<nat>, n: nat, w: nat): nat
    requires n <= |ps|
  {
    if n == 0 then 0 else SumTo(ps, n - 1, w) + if (n - 1) % 8 < w then ps[n - 1] else 0
  }

  /** The number of positions in which two vectors differ; with `w` below 8 only the
      first `w` bytes of each word count. */
  function Distance(a: seq<Byte>, b: seq<Byte>, w: nat): nat
    requires |a| == |b|
  {
    SumTo(Distances(a, b), |a|, w)
  }

  lemma UnlikeEight(p: seq<bool>, q: seq<bool>)
    requires |p| == |q| == 8
    ensures Unlike(p, q, |p|)
      == Sum(p[0] != q[0], p[1] != q[1], p[2] != q[2], p[3] != q[3],
             p[4] != q[4], p[5] != q[5], p[6] != q[6], p[7] != q[7])
  {
    assert Unlike(p, q, 1) == Bit(p[0] != q[0]);
    assert Unlike(p, q, 2) == Unlike(p, q, 1) + Bit(p[1] != q[1]);
    assert Unlike(p, q, 3) == Unlike(p, q, 2) + Bit(p[2] != q[2]);
    assert Unlike(p, q, 4) == Unlike(p, q, 3) + Bit(p[3] != q[3]);
    assert Unlike(p, q, 5) == Unlike(p, q, 4) + Bit(p[4] != q[4]);
    assert Unlike(p, q, 6) == Unlike(p, q, 5) + Bit(p[5] != q[5]);
    assert Unlike(p, q, 7) == Unlike(p, q, 6) + Bit(p[6] != q[6]);
  }

  lemma XorCounts(x: Byte, y: Byte)
    ensures Pop8(x ^ y) == ByteDistance(x, y)
  {
    XorBit(x, y, 0);
    XorBit(x, y, 1);
    XorBit(x, y, 2);
    XorBit(x, y, 3);
    XorBit(x, y, 4);
    XorBit(x, y, 5);
    XorBit(x, y, 6);
    XorBit(x, y, 7);
    UnlikeEight(Octet(x), Octet(y));
  }

  lemma TableOfXor(a: seq<Byte>, b: seq<Byte>, i: nat)
    requires |a| == |b| && i < |a|
    ensures Table(a[i] ^ b[i]) == Distances(a, b)[i]
  {
    TableCounts(a[i] ^ b[i]);
    XorCounts(a[i], b[i]);
  }

  /** The byte path. */
  method DistanceU8(a: seq<Byte>, b: seq<Byte>, n: nat) returns (same: nat)
    requires |a| == |b| == n
    ensures same == Distance(a, b, 8)
  {
    same := 0;
    for i := 0 to n
      invariant same == SumTo(Distances(a, b), i, 8)
    {
      same := same + Table(a[i] ^ b[i]);
      TableOfXor(a, b, i);
    }
  }

  // ----- words -----

  type Word = bv64

  /** The word at a little-endian address. */
  function Load(b: seq<Byte>): Word
    requires |b| == 8
  {
    (b[0] as Word) | (b[1] as Word << 8) | (b[2] as Word << 16) | (b[3] as Word << 24)
    | (b[4] as Word << 32) | (b[5] as Word << 40) | (b[6] as Word << 48) | (b[7] as Word << 56)
  }

  function ByteOf(x: Word, k: nat): Byte
    requires k < 8
  {
    var y: Word :=
      if k == 0 then x else if k == 1 then x >> 8 else if k == 2 then x >> 16 else if k == 3 then x >> 24
      else if k == 4 then x >> 32 else if k == 5 then x >> 40 else if k == 6 then x >> 48 else x >> 56;
    (y & 0xFF) as Byte
  }

  /** popcountl where a long has `w` bytes: the set bits of the low `w` bytes. */
  function PopLong(x: Word, w: nat): nat
    requires w <= 8
  {
    if w == 0 then 0 else PopLong(x, w - 1) + Pop8(ByteOf(x, w - 1))
  }

  lemma LoadedXor(a: seq<Byte>, b: seq<Byte>, k: nat)
    requires |a| == |b| == 8 && k < 8
    ensures ByteOf(Load(a) ^ Load(b), k) == a[k] ^ b[k]
  {
    if k == 0 {} else if k == 1 {} else if k == 2 {} else if k == 3 {}
    else if k == 4 {} else if k == 5 {} else if k == 6 {} else {}
  }

  lemma {:induction false} PopLongOfXor(a: seq<Byte>, b: seq<Byte>, w: nat)
    requires |a| == |b| == 8 && w <= 8
    ensures PopLong(Load(a) ^ Load(b), w) == SumTo(Distances(a, b), w, 8)
    decreases w
  {
    if w > 0 {
      PopLongOfXor(a, b, w - 1);
      ByteOfXor(a, b, w - 1);
    }
  }

  lemma ByteOfXor(a: seq<Byte>, b: seq<Byte>, k: nat)
    requires |a| == |b| == 8 && k < 8
    ensures Pop8(ByteOf(Load(a) ^ Load(b), k)) == Distances(a, b)[k]
  {
    LoadedXor(a, b, k);
    XorCounts(a[k], b[k]);
  }

  lemma PlaceInWord(lo: nat, k: nat)
    requires lo % 8 == 0 && k < 8
    ensures (lo + k) % 8 == k
  {
  }

  /** One more word. */
  lemma {:induction false} SumOfWord(ps: seq<nat>, lo: nat, k: nat, w: nat)
    requires lo % 8 == 0 && lo + 8 <= |ps| && k <= 8 && w <= 8
    ensures SumTo(ps, lo + k, w) == SumTo(ps, lo, w) + SumTo(ps[lo..lo + 8], if k < w then k else w, 8)
    decreases k
  {
    if k > 0 {
      SumOfWord(ps, lo, k - 1, w);
      PlaceInWord(lo, k - 1);
      assert ps[lo..lo + 8][k - 1] == ps[lo + (k - 1)];
    }
  }

  lemma DistancesOfSlice(a: seq<Byte>, b: seq<Byte>, lo: nat, hi: nat)
    requires |a| == |b| && lo <= hi <= |a|
    ensures Distances(a[lo..hi], b[lo..hi]) == Distances(a, b)[lo..hi]
  {
    var x, y := Distances(a[lo..hi], b[lo..hi]), Distances(a, b)[lo..hi];
    forall k | 0 <= k < hi - lo
      ensures x[k] == y[k]
    {
      assert a[lo..hi][k] == a[lo + k] && b[lo..hi][k] == b[lo + k];
      assert y[k] == Distances(a, b)[lo + k];
    }
  }

  lemma SumOfSlice(a: seq<Byte>, b: seq<Byte>, i: nat, w: nat)
    requires |a| == |b| && 8 * i + 8 <= |a| && w <= 8
    ensures SumTo(Distances(a, b), 8 * (i + 1), w)
      == SumTo(Distances(a, b), 8 * i, w) + SumTo(Distances(a[8 * i..8 * i + 8], b[8 * i..8 * i + 8]), w, 8)
  {
    DistancesOfSlice(a, b, 8 * i, 8 * i + 8);
    SumOfWord(Distances(a, b), 8 * i, 8, w);
  }

  /** One word of the word path. */
  method WordDistance(a: seq<Byte>, b: seq<Byte>, w: nat) returns (n: nat)
    requires |a| == |b| == 8 && w <= 8
    ensures n == SumTo(Distances(a, b), w, 8)
  {
    n := PopLong(Load(a) ^ Load(b), w);
    PopLongOfXor(a, b, w);
  }

  /** The word path on `n` words, where a long has `w` bytes. */
  method DistanceU64(a: seq<Byte>, b: seq<Byte>, n: nat, w: nat) returns (same: nat)
    requires |a| == |b| == 8 * n && w <= 8
    ensures same == Distance(a, b, w)
  {
    same := 0;
    ghost var ds := Distances(a, b);
    for i := 0 to n
      invariant same == SumTo(ds, 8 * i, w)
    {
      var word := WordDistance(a[8 * i..8 * i + 8], b[8 * i..8 * i + 8], w);
      same := same + word;
      SumOfSlice(a, b, i, w);
    }
  }

  /** The dispatch on the number of dimensions. */
  method DistanceHamming(a: seq<Byte>, b: seq<Byte>, dimensions: nat, w: nat) returns (r: nat)
    requires dimensions % CHAR_BIT == 0 && |a| == |b| == dimensions / CHAR_BIT
    requires w == 4 || w == 8
    ensures r == Distance(a, b, if dimensions % 64 == 0 then w else 8)
  {
    if dimensions % 64 == 0 {
      r := DistanceU64(a, b, dimensions / 8 / CHAR_BIT, w);
    } else {
      r := DistanceU8(a, b, dimensions / CHAR_BIT);
    }
  }

  /** Where a long has four bytes the word path is right exactly when the vectors agree
      in the upper half of every word. */
  lemma NarrowLong(a: seq<Byte>, b: seq<Byte>)
    requires |a| == |b|
    ensures Distance(a, b, 4) == Distance(a, b, 8) <==> forall i | 0 <= i < |a| && i % 8 >= 4 :: a[i] == b[i]
  {
    var ds := Distances(a, b);
    NarrowSum(ds, |a|);
    forall i | 0 <= i < |a|
      ensures ds[i] == 0 <==> a[i] == b[i]
    {
      SameByte(a[i], b[i]);
    }
  }

  lemma {:induction false} NarrowSum(ps: seq<nat>, n: nat)
    requires n <= |ps|
    ensures SumTo(ps, n, 4) <= SumTo(ps, n, 8)
    ensures SumTo(ps, n, 4) == SumTo(ps, n, 8) <==> forall i | 0 <= i < n && i % 8 >= 4 :: ps[i] == 0
    decreases n
  {
    if n > 0 { NarrowSum(ps, n - 1); }
  }

  // ----- a metric -----

  lemma {:induction false} UnlikeNone(p: seq<bool>, q: seq<bool>, n: nat)
    requires n <= |p| == |q|
    ensures Unlike(p, q, n) == 0 <==> forall j | 0 <= j < n :: p[j] == q[j]
    decreases n
  {
    if n > 0 { UnlikeNone(p, q, n - 1); }
  }

  lemma {:induction false} UnlikeSwapped(p: seq<bool>, q: seq<bool>, n: nat)
    requires n <= |p| == |q|
    ensures Unlike(p, q, n) == Unlike(q, p, n)
    decreases n
  {
    if n > 0 { UnlikeSwapped(p, q, n - 1); }
  }

  lemma {:induction false} UnlikeTriangle(p: seq<bool>, q: seq<bool>, r: seq<bool>, n: nat)
    requires n <= |p| == |q| == |r|
    ensures Unlike(p, r, n) <= Unlike(p, q, n) + Unlike(q, r, n)
    decreases n
  {
    if n > 0 { UnlikeTriangle(p, q, r, n - 1); }
  }

  lemma OctetIsByte(x: Byte, y: Byte)
    requires forall j | 0 <= j < CHAR_BIT :: Octet(x)[j] == Octet(y)[j]
    ensures x == y
  {
    var p, q := Octet(x), Octet(y);
    assert p[0] == q[0] && p[1] == q[1] && p[2] == q[2] && p[3] == q[3];
    assert p[4] == q[4] && p[5] == q[5] && p[6] == q[6] && p[7] == q[7];
  }

  lemma SameByte(x: Byte, y: Byte)
    ensures ByteDistance(x, y) == 0 <==> x == y
  {
    UnlikeNone(Octet(x), Octet(y), CHAR_BIT);
    if ByteDistance(x, y) == 0 { OctetIsByte(x, y); }
  }

  lemma {:induction false} ZeroSum(ps: seq<nat>, n: nat)
    requires n <= |ps|
    ensures SumTo(ps, n, 8) == 0 <==> forall i | 0 <= i < n :: ps[i] == 0
    decreases n
  {
    if n > 0 { ZeroSum(ps, n - 1); }
  }

  lemma {:induction false} SumBelow(ps: seq<nat>, qs: seq<nat>, rs: seq<nat>, n: nat)
    requires n <= |ps| == |qs| == |rs| && forall i | 0 <= i < n :: ps[i] <= qs[i] + rs[i]
    ensures SumTo(ps, n, 8) <= SumTo(qs, n, 8) + SumTo(rs, n, 8)
    decreases n
  {
    if n > 0 { SumBelow(ps, qs, rs, n - 1); }
  }

  /** With 64-bit longs the distance is a metric on the bit vectors of one length. */
  lemma ZeroIffEqual(a: seq<Byte>, b: seq<Byte>)
    requires |a| == |b|
    ensures Distance(a, b, 8) == 0 <==> a == b
  {
    var ds := Distances(a, b);
    ZeroSum(ds, |a|);
    forall i | 0 <= i < |a|
      ensures ds[i] == 0 <==> a[i] == b[i]
    {
      SameByte(a[i], b[i]);
    }
  }

  lemma Symmetric(a: seq<Byte>, b: seq<Byte>)
    requires |a| == |b|
    ensures Distance(a, b, 8) == Distance(b, a, 8)
  {
    forall i | 0 <= i < |a|
      ensures Distances(a, b)[i] == Distances(b, a)[i]
    {
      UnlikeSwapped(Octet(a[i]), Octet(b[i]), CHAR_BIT);
    }
    assert Distances(a, b) == Distances(b, a);
  }

  lemma Triangle(a: seq<Byte>, b: seq<Byte>, c: seq<Byte>)
    requires |a| == |b| == |c|
    ensures Distance(a, c, 8) <= Distance(a, b, 8) + Distance(b, c, 8)
  {
    var ps, qs, rs := Distances(a, c), Distances(a, b), Distances(b, c);
    forall i | 0 <= i < |a|
      ensures ps[i] <= qs[i] + rs[i]
    {
      UnlikeTriangle(Octet(a[i]), Octet(b[i]), Octet(c[i]), CHAR_BIT);
    }
    SumBelow(ps, qs, rs, |a|);
  }

  // ----- positions -----

  lemma {:induction false} UnlikeAfter(p: seq<bool>, q: seq<bool>, x: seq<bool>, y: seq<bool>, at: nat, j: nat)
    requires |p| == |q| && |x| == |y| && at + |x| <= |p| && j <= |x|
    requires forall i | 0 <= i < |x| :: p[at + i] == x[i] && q[at + i] == y[i]
    ensures Unlike(p, q, at + j) == Unlike(p, q, at) + Unlike(x, y, j)
    decreases j
  {
    if j > 0 { UnlikeAfter(p, q, x, y, at, j - 1); }
  }

  lemma BitOfOctet(a: seq<Byte>, k: nat, j: nat)
    requires k < |a| && j < CHAR_BIT
    ensures Bits(a)[CHAR_BIT * k + j] == Octet(a[k])[j]
  {
    assert (CHAR_BIT * k + j) / CHAR_BIT == k && (CHAR_BIT * k + j) % CHAR_BIT == j;
  }

  /** `p` is the lists `os` of eight, one after the other. */
  predicate Spreads(p: seq<bool>, os: seq<seq<bool>>) {
    && |p| == CHAR_BIT * |os|
    && (forall k | 0 <= k < |os| :: |os[k]| == CHAR_BIT)
    && (forall k, j | 0 <= k < |os| && 0 <= j < CHAR_BIT :: p[CHAR_BIT * k + j] == os[k][j])
  }

  lemma {:induction false} SumIsUnlike(p: seq<bool>, q: seq<bool>, os: seq<seq<bool>>, ot: seq<seq<bool>>,
                                       ds: seq<nat>, k: nat)
    requires Spreads(p, os) && Spreads(q, ot) && k <= |os| == |ot| == |ds|
    requires forall i | 0 <= i < |ds| :: ds[i] == Unlike(os[i], ot[i], |os[i]|)
    ensures SumTo(ds, k, 8) == Unlike(p, q, CHAR_BIT * k)
    decreases k
  {
    if k > 0 {
      SumIsUnlike(p, q, os, ot, ds, k - 1);
      UnlikeAfter(p, q, os[k - 1], ot[k - 1], CHAR_BIT * (k - 1), CHAR_BIT);
    }
  }

  function Octets(a: seq<Byte>): (r: seq<seq<bool>>)
    ensures |r| == |a| && forall i | 0 <= i < |a| :: r[i] == Octet(a[i])
  {
    seq(|a|, i requires 0 <= i < |a| => Octet(a[i]))
  }

  lemma BitsSpread(a: seq<Byte>)
    ensures Spreads(Bits(a), Octets(a))
  {
    forall k, j | 0 <= k < |a| && 0 <= j < CHAR_BIT
      ensures Bits(a)[CHAR_BIT * k + j] == Octets(a)[k][j]
    {
      BitOfOctet(a, k, j);
    }
  }

  lemma OctetDistances(a: seq<Byte>, b: seq<Byte>)
    requires |a| == |b|
    ensures forall i | 0 <= i < |a| :: Distances(a, b)[i] == Unlike(Octets(a)[i], Octets(b)[i], |Octets(a)[i]|)
  {
    forall i | 0 <= i < |a|
      ensures Distances(a, b)[i] == Unlike(Octets(a)[i], Octets(b)[i], |Octets(a)[i]|)
    {
      assert Distances(a, b)[i] == ByteDistance(a[i], b[i]);
    }
  }

  /** The distance is the number of bit positions in which the vectors differ. */
  lemma DistanceCountsPositions(a: seq<Byte>, b: seq<Byte>)
    requires |a| == |b|
    ensures Distance(a, b, 8) == Unlike(Bits(a), Bits(b), CHAR_BIT * |a|)
  {
    BitsSpread(a);
    BitsSpread(b);
    OctetDistances(a, b);
    SumIsUnlike(Bits(a), Bits(b), Octets(a), Octets(b), Distances(a, b), |a|);
  }
}
