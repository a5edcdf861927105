/** Bitmaps as the chunk tables and the KNN query use them: bytes whose bit j of
    byte i stands for position 8 * i + j. The operations change byte arrays in
    place; every contract speaks of the positions, not of the bytes. */
module Bitmap {
  type Byte = bv8

  const CHAR_BIT := 8

  /** 1 << j, written out: shifts by an unbounded integer are costly to reason about. */
  function Mask(j: nat): Byte
    requires j < CHAR_BIT
  {
    if j == 0 then 0x01 else if j == 1 then 0x02 else if j == 2 then 0x04 else if j == 3 then 0x08
    else if j == 4 then 0x10 else if j == 5 then 0x20 else if j == 6 then 0x40 else 0x80
  }

  predicate BitOf(b: Byte, j: nat)
    requires j < CHAR_BIT
  {
    b & Mask(j) != 0
  }

  /** The mask form agrees with the shifts the program writes. */
  lemma ShiftIsMask(b: Byte, j: nat)
    requires j < CHAR_BIT
    ensures (1 as Byte) << j == Mask(j)
    ensures (b >> j) & 1 == (if BitOf(b, j) then 1 else 0)
  {
    if j == 0 {} else if j == 1 {} else if j == 2 {} else if j == 3 {}
    else if j == 4 {} else if j == 5 {} else if j == 6 {} else {}
  }

  /** What `bx >> j` being non-zero tells: some bit at j or above is set. */
  lemma ShiftNonZero(b: Byte, j: nat)
    requires j < CHAR_BIT
    ensures b >> j != 0 <==> exists i: nat :: j <= i < CHAR_BIT && BitOf(b, i)
  {
    assert forall i: nat | i < CHAR_BIT && BitOf(b, i) :: b & Mask(i) != 0;
    if b >> j != 0 {
      var i := HighestBit(b, j);
    }
    if i: nat :| j <= i < CHAR_BIT && BitOf(b, i) {
      ShiftKeeps(b, j, i);
    }
  }

  lemma HighestBit(b: Byte, j: nat) returns (i: nat)
    requires j < CHAR_BIT && b >> j != 0
    ensures j <= i < CHAR_BIT && BitOf(b, i)
  {
    i := j;
    while i < 7 && !BitOf(b, i)
      invariant j <= i < CHAR_BIT
      invariant b >> i != 0
    {
      ShiftStep(b, i);
      i := i + 1;
    }
    if !BitOf(b, i) { ShiftStep(b, i); }
  }

  lemma ShiftStep(b: Byte, i: nat)
    requires i < CHAR_BIT && b >> i != 0 && !BitOf(b, i)
    ensures i < 7 && b >> (i + 1) != 0
  {
    if i == 0 {} else if i == 1 {} else if i == 2 {} else if i == 3 {}
    else if i == 4 {} else if i == 5 {} else if i == 6 {} else {}
  }

  lemma ShiftKeeps(b: Byte, j: nat, i: nat)
    requires j <= i < CHAR_BIT && BitOf(b, i)
    ensures b >> j != 0
  {
    if j == 0 {} else if j == 1 {} else if j == 2 {} else if j == 3 {}
    else if j == 4 {} else if j == 5 {} else if j == 6 {} else {}
  }

  lemma FullByte(b: Byte)
    ensures b == 0xFF <==> forall i: nat | i < CHAR_BIT :: BitOf(b, i)
  {
    if BitOf(b, 0) && BitOf(b, 1) && BitOf(b, 2) && BitOf(b, 3)
       && BitOf(b, 4) && BitOf(b, 5) && BitOf(b, 6) && BitOf(b, 7) {
      assert b == 0xFF;
    }
  }

  function WithBit(b: Byte, j: nat, value: bool): Byte
    requires j < CHAR_BIT
  {
    if value then b | Mask(j) else b & !Mask(j)
  }

  lemma WithBitOf(b: Byte, j: nat, value: bool, i: nat)
    requires j < CHAR_BIT && i < CHAR_BIT
    ensures BitOf(WithBit(b, j, value), i) == if i == j then value else BitOf(b, i)
  {
  }

  predicate Get(bm: seq<Byte>, i: nat)
    requires i < CHAR_BIT * |bm|
  {
    BitOf(bm[i / CHAR_BIT], i % CHAR_BIT)
  }

  /** The meaning of a bitmap: one boolean for each position. */
  function Bits(bm: seq<Byte>): (r: seq<bool>)
    ensures |r| == CHAR_BIT * |bm|
    ensures forall i | 0 <= i < |r| :: r[i] == Get(bm, i)
  {
    seq(CHAR_BIT * |bm|, i requires 0 <= i < CHAR_BIT * |bm| => Get(bm, i))
  }

  function Put(bm: seq<Byte>, i: nat, value: bool): (r: seq<Byte>)
    requires i < CHAR_BIT * |bm|
    ensures |r| == |bm|
    ensures Bits(r) == Bits(bm)[i := value]
  {
    var r := bm[i / CHAR_BIT := WithBit(bm[i / CHAR_BIT], i % CHAR_BIT, value)];
    PutBits(bm, i, value, r);
    r
  }

  lemma PutBits(bm: seq<Byte>, i: nat, value: bool, r: seq<Byte>)
    requires i < CHAR_BIT * |bm|
    requires r == bm[i / CHAR_BIT := WithBit(bm[i / CHAR_BIT], i % CHAR_BIT, value)]
    ensures Bits(r) == Bits(bm)[i := value]
  {
    forall p | 0 <= p < CHAR_BIT * |bm|
      ensures Get(r, p) == if p == i then value else Get(bm, p)
    {
      WithBitOf(bm[i / CHAR_BIT], i % CHAR_BIT, value, p % CHAR_BIT);
    }
  }

  function Zeros(n: nat): (r: seq<Byte>)
    ensures |r| == n
    ensures Bits(r) == seq(CHAR_BIT * n, _ => false)
  {
    seq(n, _ => 0)
  }

  method BitmapGet(bitmap: array<Byte>, position: nat) returns (r: int)
    requires position < CHAR_BIT * bitmap.Length
    ensures r == if Bits(bitmap[..])[position] then 1 else 0
  {
    ShiftIsMask(bitmap[position / CHAR_BIT], position % CHAR_BIT);
    r := ((bitmap[position / CHAR_BIT] >> (position % CHAR_BIT)) & 1) as int;
  }

  method BitmapSet(bitmap: array<Byte>, position: nat, value: bool)
    requires position < CHAR_BIT * bitmap.Length
    modifies bitmap
    ensures Bits(bitmap[..]) == old(Bits(bitmap[..]))[position := value]
  {
    var i, j := position / CHAR_BIT, position % CHAR_BIT;
    ShiftIsMask(bitmap[i], j);
    var bit: Byte := 1 << j;
    ghost var after := Put(bitmap[..], position, value);
    bitmap[i] := if value then bitmap[i] | bit else bitmap[i] & !bit;
    assert bitmap[..] == after;
  }

  method BitmapAndInplace(base: array<Byte>, other: array<Byte>)
    requires base != other && base.Length == other.Length
    modifies base
    ensures forall p | 0 <= p < CHAR_BIT * base.Length ::
      Bits(base[..])[p] == (old(Bits(base[..]))[p] && Bits(other[..])[p])
  {
    for i := 0 to base.Length
      invariant forall q | 0 <= q < i :: base[q] == And(old(base[q]), other[q])
      invariant forall q | i <= q < base.Length :: base[q] == old(base[q])
    {
      base[i] := And(base[i], other[i]);
    }
    AndBits(old(base[..]), other[..], base[..]);
  }

  lemma AndBits(x: seq<Byte>, y: seq<Byte>, r: seq<Byte>)
    requires |x| == |y| == |r| && forall i | 0 <= i < |r| :: r[i] == And(x[i], y[i])
    ensures forall p | 0 <= p < CHAR_BIT * |r| :: Bits(r)[p] == (Bits(x)[p] && Bits(y)[p])
  {
    forall p | 0 <= p < CHAR_BIT * |r| ensures Get(r, p) == (Get(x, p) && Get(y, p)) {
      AndBit(x[p / CHAR_BIT], y[p / CHAR_BIT], p % CHAR_BIT);
    }
  }

  function And(x: Byte, y: Byte): Byte {
    x & y
  }

  lemma AndBit(x: Byte, y: Byte, j: nat)
    requires j < CHAR_BIT
    ensures BitOf(And(x, y), j) == (BitOf(x, j) && BitOf(y, j))
  {
  }

  method BitmapCopy(base: array<Byte>, from: seq<Byte>)
    requires base.Length == |from|
    modifies base
    ensures base[..] == from
  {
    forall i | 0 <= i < base.Length { base[i] := from[i]; }
  }

  method BitmapClear(bitmap: array<Byte>)
    modifies bitmap
    ensures Bits(bitmap[..]) == seq(CHAR_BIT * bitmap.Length, _ => false)
  {
    forall i | 0 <= i < bitmap.Length { bitmap[i] := 0; }
    assert bitmap[..] == Zeros(bitmap.Length);
  }

  /** The scan of vec0Update_InsertNextAvailableStep: the least clear position, or -1. */
  method FirstClear(bm: seq<Byte>) returns (offset: int)
    ensures -1 <= offset < CHAR_BIT * |bm|
    ensures offset == -1 ==> forall p | 0 <= p < CHAR_BIT * |bm| :: Bits(bm)[p]
    ensures offset >= 0 ==> !Bits(bm)[offset] && forall p | 0 <= p < offset :: Bits(bm)[p]
  {
    for i := 0 to |bm|
      invariant forall p | 0 <= p < CHAR_BIT * i :: Bits(bm)[p]
    {
      FullByte(bm[i]);
      if bm[i] == 0xFF { continue; }
      for j := 0 to CHAR_BIT
        invariant forall q: nat | q < j :: BitOf(bm[i], q)
      {
        ShiftIsMask(bm[i], j);
        if (bm[i] >> j) & 1 == 0 {
          return i * CHAR_BIT + j;
        }
      }
    }
    return -1;
  }
}
