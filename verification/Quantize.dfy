/** Binary quantisation, slices and the element order of bit vectors. */
module Quantize {
  import opened Bitmap
  import opened Schema
  import opened Hamming

  /** A vector by its elements; bit vectors are stored as bytes. */
  datatype Elements = Floats(fs: seq<real>) | Ints(ns: seq<int>) | Packed(bytes: seq<Byte>)

  function Dimensions(v: Elements): nat {
    match v
    case Floats(fs) => |fs|
    case Ints(ns) => |ns|
    case Packed(bytes) => CHAR_BIT * |bytes|
  }

  // ----- quantisation -----

  predicate Positive(v: Elements, i: nat)
    requires !v.Packed? && i < Dimensions(v)
  {
    if v.Floats? then v.fs[i] > 0.0 else v.ns[i] > 0
  }

  function Positives(v: Elements): (r: seq<bool>)
    requires !v.Packed?
    ensures |r| == Dimensions(v) && forall i | 0 <= i < |r| :: r[i] == Positive(v, i)
  {
    seq(Dimensions(v), i requires 0 <= i < Dimensions(v) => Positive(v, i))
  }

  predicate Quantizable(v: Elements) {
    0 < Dimensions(v) && Dimensions(v) % CHAR_BIT == 0 && !v.Packed?
  }

  /** `q` holds one bit for each dimension: whether its value is positive. */
  predicate IsQuantized(v: Elements, q: seq<Byte>)
    requires !v.Packed?
  {
    CHAR_BIT * |q| == Dimensions(v) && Bits(q) == Positives(v)
  }

  lemma SetBit(old0: Byte, j: nat, bit: bool, k: nat)
    requires j < CHAR_BIT && k < CHAR_BIT && !BitOf(old0, j)
    ensures BitOf(if bit then old0 | Mask(j) else old0, k) == if k == j then bit else BitOf(old0, k)
  {
    WithBitOf(old0, j, bit, k);
  }

  method QuantizeBinary(v: Elements) returns (r: Option<seq<Byte>>)
    ensures r.Some? <==> !v.Packed? && 0 < Dimensions(v) && Dimensions(v) % 8 == 0
    ensures r.Some? ==> IsQuantized(v, r.value)
    ensures r.Some? && v.Floats? ==>
      8 * |r.value| == |v.fs| && forall i | 0 <= i < |v.fs| :: Get(r.value, i) <==> v.fs[i] > 0.0
    ensures r.Some? && v.Ints? ==>
      8 * |r.value| == |v.ns| && forall i | 0 <= i < |v.ns| :: Get(r.value, i) <==> v.ns[i] > 0
  {
    var dimensions := Dimensions(v);
    if dimensions <= 0 || dimensions % CHAR_BIT != 0 || v.Packed? { return None; }
    var sz := dimensions / CHAR_BIT;
    var out := new Byte[sz](_ => 0);
    for i := 0 to dimensions
      invariant forall p | 0 <= p < dimensions :: BitOf(out[p / CHAR_BIT], p % CHAR_BIT) == (p < i && Positive(v, p))
    {
      var before := out[i / CHAR_BIT];
      if Positive(v, i) { out[i / CHAR_BIT] := out[i / CHAR_BIT] | Mask(i % CHAR_BIT); }
      forall p | 0 <= p < dimensions
        ensures BitOf(out[p / CHAR_BIT], p % CHAR_BIT) == (p <= i && Positive(v, p))
      {
        if p / CHAR_BIT == i / CHAR_BIT { SetBit(before, i % CHAR_BIT, Positive(v, i), p % CHAR_BIT); }
      }
    }
    r := Some(out[..]);
  }

  // ----- slices -----

  /** When a slice is taken: proper bounds, and whole bytes of bit vectors. */
  predicate Sliceable(v: Elements, start: int, end: int) {
    && 0 <= start < end <= Dimensions(v)
    && (v.Packed? ==> start % CHAR_BIT == 0 && end % CHAR_BIT == 0)
  }

  function SliceOf(v: Elements, start: nat, end: nat): Elements
    requires Sliceable(v, start, end)
  {
    match v
    case Floats(fs) => Floats(fs[start..end])
    case Ints(ns) => Ints(ns[start..end])
    case Packed(bytes) => Packed(bytes[start / CHAR_BIT..end / CHAR_BIT])
  }

  /** Element i of `part` is element start + i of `v`. */
  ghost predicate SameElements(v: Elements, start: nat, part: Elements)
    requires start + Dimensions(part) <= Dimensions(v)
  {
    match v
    case Floats(fs) => part.Floats? && forall i | 0 <= i < |part.fs| :: part.fs[i] == fs[start + i]
    case Ints(ns) => part.Ints? && forall i | 0 <= i < |part.ns| :: part.ns[i] == ns[start + i]
    case Packed(bytes) =>
      part.Packed? && forall i | 0 <= i < 8 * |part.bytes| :: Get(part.bytes, i) == Get(bytes, start + i)
  }

  method CopyRange<T>(source: seq<T>, start: nat, n: nat) returns (out: seq<T>)
    requires start + n <= |source|
    ensures out == source[start..start + n]
  {
    out := [];
    for i := 0 to n
      invariant out == source[start..start + i]
    {
      out := out + [source[start + i]];
    }
  }

  method Slice(v: Elements, start: int, end: int) returns (r: Option<Elements>)
    ensures r.Some? <==>
      0 <= start < end <= Dimensions(v) && (v.Packed? ==> start % 8 == 0 && end % 8 == 0)
    ensures r.Some? ==> r.value == SliceOf(v, start, end)
  {
    if start < 0 || end < 0 { return None; }
    if start > Dimensions(v) || end > Dimensions(v) { return None; }
    if start > end || start == end { return None; }
    var n := end - start;
    match v
    case Floats(fs) =>
      var out := CopyRange(fs, start, n);
      r := Some(Floats(out));
    case Ints(ns) =>
      var out := CopyRange(ns, start, n);
      r := Some(Ints(out));
    case Packed(bytes) =>
      if start % CHAR_BIT != 0 || end % CHAR_BIT != 0 { return None; }
      var out := CopyRange(bytes, start / CHAR_BIT, n / CHAR_BIT);
      r := Some(Packed(out));
  }

  lemma SlicedBits(q: seq<Byte>, s: nat, e: nat)
    requires s <= e <= |q|
    ensures Bits(q[s..e]) == Bits(q)[CHAR_BIT * s..CHAR_BIT * e]
  {
    forall i | 0 <= i < CHAR_BIT * (e - s)
      ensures Bits(q[s..e])[i] == Bits(q)[CHAR_BIT * s + i]
    {
      assert (CHAR_BIT * s + i) / CHAR_BIT == s + i / CHAR_BIT && (CHAR_BIT * s + i) % CHAR_BIT == i % CHAR_BIT;
    }
  }

  lemma PackedElements(bytes: seq<Byte>, s: nat, e: nat)
    requires s <= e <= |bytes|
    ensures forall i | 0 <= i < 8 * (e - s) :: Get(bytes[s..e], i) == Get(bytes, 8 * s + i)
  {
    forall i | 0 <= i < 8 * (e - s) ensures Get(bytes[s..e], i) == Get(bytes, 8 * s + i) {
      assert (8 * s + i) / 8 == s + i / 8 && (8 * s + i) % 8 == i % 8;
    }
  }

  /** A slice has the elements from `start` to `end`, bit by bit for bit vectors. */
  lemma SliceElements(v: Elements, start: nat, end: nat)
    requires Sliceable(v, start, end)
    ensures Dimensions(SliceOf(v, start, end)) == end - start && SameElements(v, start, SliceOf(v, start, end))
  {
    if v.Packed? { PackedElements(v.bytes, start / CHAR_BIT, end / CHAR_BIT); }
  }

  lemma SlicedPositives(v: Elements, start: nat, end: nat)
    requires !v.Packed? && Sliceable(v, start, end)
    ensures Positives(SliceOf(v, start, end)) == Positives(v)[start..end]
  {
  }

  /** Quantisation commutes with slicing: a quantised vector can be sliced exactly where
      the vector itself can be, at whole bytes, and the slice is the quantised slice. */
  lemma QuantizeThenSlice(v: Elements, q: seq<Byte>, start: int, end: int)
    requires !v.Packed? && IsQuantized(v, q)
    ensures Sliceable(Packed(q), start, end)
      <==> Sliceable(v, start, end) && start % CHAR_BIT == 0 && end % CHAR_BIT == 0
    ensures Sliceable(Packed(q), start, end) ==>
              && Quantizable(SliceOf(v, start, end))
              && IsQuantized(SliceOf(v, start, end), SliceOf(Packed(q), start, end).bytes)
  {
    if Sliceable(Packed(q), start, end) {
      SlicedBits(q, start / CHAR_BIT, end / CHAR_BIT);
      SlicedPositives(v, start, end);
    }
  }

  /** A slice of a slice is a slice, with the same bounds refused. */
  lemma SlicesCompose(v: Elements, a: int, b: int, c: int, d: int)
    requires Sliceable(v, a, b)
    ensures Sliceable(SliceOf(v, a, b), c, d) <==> 0 <= c && d <= b - a && Sliceable(v, a + c, a + d)
    ensures Sliceable(SliceOf(v, a, b), c, d) ==>
              SliceOf(SliceOf(v, a, b), c, d) == SliceOf(v, a + c, a + d)
  {
    if v.Packed? && Sliceable(SliceOf(v, a, b), c, d) {
      assert (a + c) / CHAR_BIT == a / CHAR_BIT + c / CHAR_BIT && (a + d) / CHAR_BIT == a / CHAR_BIT + d / CHAR_BIT;
    }
  }

  /** The Hamming distance of two quantised vectors is the number of dimensions on which
      "value > 0" differs. */
  lemma QuantizedDistance(u: Elements, v: Elements, p: seq<Byte>, q: seq<Byte>)
    requires !u.Packed? && !v.Packed? && Dimensions(u) == Dimensions(v)
    requires IsQuantized(u, p) && IsQuantized(v, q)
    ensures |p| == |q| && Distance(p, q, 8) == Unlike(Positives(u), Positives(v), Dimensions(u))
  {
    DistanceCountsPositions(p, q);
  }

  // ----- reading bit vectors -----

  /** vec_to_json: the lowest bit first. */
  predicate JsonBit(bytes: seq<Byte>, i: nat)
    requires i < CHAR_BIT * |bytes|
  {
    (bytes[i / CHAR_BIT] >> (i % CHAR_BIT)) & 1 == 1
  }

  /** vec_each: the highest bit first. */
  predicate EachBit(bytes: seq<Byte>, i: nat)
    requires i < CHAR_BIT * |bytes|
  {
    bytes[i / CHAR_BIT] & ((0x80 as Byte) >> (i % CHAR_BIT)) != 0
  }

  lemma ShiftedTop(j: nat)
    requires j < CHAR_BIT
    ensures (0x80 as Byte) >> j == Mask(7 - j)
  {
    if j == 0 {} else if j == 1 {} else if j == 2 {} else if j == 3 {}
    else if j == 4 {} else if j == 5 {} else if j == 6 {} else {}
  }

  /** vec_to_json reads what quantisation writes. */
  lemma JsonOrder(bytes: seq<Byte>, i: nat)
    requires i < CHAR_BIT * |bytes|
    ensures JsonBit(bytes, i) == Get(bytes, i)
  {
    ShiftIsMask(bytes[i / CHAR_BIT], i % CHAR_BIT);
  }

  /** vec_each reads each byte reversed. */
  lemma EachOrder(bytes: seq<Byte>, k: nat, j: nat)
    requires k < |bytes| && j < CHAR_BIT
    ensures EachBit(bytes, CHAR_BIT * k + j) == Get(bytes, CHAR_BIT * k + (7 - j))
  {
    assert (CHAR_BIT * k + j) / CHAR_BIT == k && (CHAR_BIT * k + j) % CHAR_BIT == j;
    assert (CHAR_BIT * k + (7 - j)) / CHAR_BIT == k && (CHAR_BIT * k + (7 - j)) % CHAR_BIT == 7 - j;
    ShiftedTop(j);
  }

  predicate Palindrome(x: Byte) {
    forall j: nat | j < CHAR_BIT :: BitOf(x, j) == BitOf(x, 7 - j)
  }

  /** The two orders agree on a vector exactly when every byte reads the same both ways. */
  lemma OrdersAgree(bytes: seq<Byte>)
    ensures (forall i | 0 <= i < CHAR_BIT * |bytes| :: EachBit(bytes, i) == JsonBit(bytes, i))
      <==> forall k | 0 <= k < |bytes| :: Palindrome(bytes[k])
  {
    forall i | 0 <= i < CHAR_BIT * |bytes|
      ensures EachBit(bytes, i) == JsonBit(bytes, i)
        <==> BitOf(bytes[i / CHAR_BIT], i % CHAR_BIT) == BitOf(bytes[i / CHAR_BIT], 7 - i % CHAR_BIT)
    {
      OrdersAgreeAt(bytes, i);
    }
    if forall i | 0 <= i < CHAR_BIT * |bytes| :: EachBit(bytes, i) == JsonBit(bytes, i) {
      forall k, j: nat | 0 <= k < |bytes| && j < CHAR_BIT
        ensures BitOf(bytes[k], j) == BitOf(bytes[k], 7 - j)
      {
        var i := CHAR_BIT * k + j;
        assert i / CHAR_BIT == k && i % CHAR_BIT == j;
        assert EachBit(bytes, i) == JsonBit(bytes, i);
      }
    }
  }

  lemma OrdersAgreeAt(bytes: seq<Byte>, i: nat)
    requires i < CHAR_BIT * |bytes|
    ensures EachBit(bytes, i) == JsonBit(bytes, i)
      <==> BitOf(bytes[i / CHAR_BIT], i % CHAR_BIT) == BitOf(bytes[i / CHAR_BIT], 7 - i % CHAR_BIT)
  {
    ShiftIsMask(bytes[i / CHAR_BIT], i % CHAR_BIT);
    ShiftedTop(i % CHAR_BIT);
  }

  /** Quantising (1, 0, 0, 0, 0, 0, 0, 0) and reading it back with vec_each gives the one last. */
  lemma EachOrderExample()
    ensures IsQuantized(Ints([1, 0, 0, 0, 0, 0, 0, 0]), [1])
    ensures JsonBit([1], 0) && !EachBit([1], 0) && EachBit([1], 7)
  {
    JsonOrder([1], 0);
    EachOrder([1], 0, 0);
    EachOrder([1], 0, 7);
    assert Bits([1]) == [true, false, false, false, false, false, false, false];
    assert Positives(Ints([1, 0, 0, 0, 0, 0, 0, 0])) == [true, false, false, false, false, false, false, false];
  }
}
