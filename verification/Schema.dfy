/** Column definitions of a vec0 table and the values that enter it. */
module Schema {
  import opened Bitmap

  datatype Option<+T> = None | Some(value: T) {
    function GetOr(default: T): T {
      if Some? then value else default
    }
  }

  datatype SqlValue = Null | Integer(i: int) | Float(f: real) | Text(s: seq<Byte>) | Blob(b: seq<Byte>)

  datatype SqlType = IntegerType | FloatType | TextType

  predicate HasType(v: SqlValue, t: SqlType) {
    match t
    case IntegerType => v.Integer?
    case FloatType => v.Float?
    case TextType => v.Text?
  }

  datatype ElementType = Float32 | Int8 | Bit

  datatype VectorColumn = VectorColumn(elementType: ElementType, dimensions: nat)

  /** A decoded vector argument: what vector_from_value delivers on success. */
  datatype Vector = Vector(elementType: ElementType, dimensions: nat, bytes: seq<Byte>)

  datatype MetaKind = BooleanKind | IntegerKind | FloatKind | TextKind

  datatype TableSchema = TableSchema(
    chunkSize: nat,
    vectors: seq<VectorColumn>,
    partitions: seq<SqlType>,
    metadata: seq<MetaKind>)

  ghost predicate ValidSchema(s: TableSchema) {
    8 <= s.chunkSize && s.chunkSize % CHAR_BIT == 0 && 0 < |s.vectors|
  }

  function ByteSize(elementType: ElementType, dimensions: nat): nat {
    match elementType
    case Float32 => dimensions * 4
    case Int8 => dimensions
    case Bit => dimensions / CHAR_BIT
  }

  /** vector_from_value never produces a bit vector whose length is not a multiple of 8. */
  ghost predicate ValidVector(v: Vector) {
    && |v.bytes| == ByteSize(v.elementType, v.dimensions)
    && (v.elementType.Bit? ==> v.dimensions % CHAR_BIT == 0)
  }

  predicate Fits(v: Vector, c: VectorColumn) {
    v.elementType == c.elementType && v.dimensions == c.dimensions
  }
}

/** Vector slots: where a row's vector lies in the chunk's vectors blob. */
module VectorSlots {
  import opened Bitmap
  import opened Schema

  /** The byte offset at which a row's vector is written. */
  function WriteOffset(c: VectorColumn, o: nat): nat {
    match c.elementType
    case Float32 => o * c.dimensions * 4
    case Int8 => o * c.dimensions
    case Bit => o * c.dimensions / CHAR_BIT
  }

  /** The byte offset at which it is read, and at which the KNN scan looks for it. */
  function ReadOffset(c: VectorColumn, o: nat): nat {
    o * ByteSize(c.elementType, c.dimensions)
  }

  /** Readers and writers agree on every slot exactly when a bit column's length is a multiple of 8. */
  lemma OffsetsAgree(c: VectorColumn)
    ensures (forall o: nat :: WriteOffset(c, o) == ReadOffset(c, o))
      <==> (c.elementType.Bit? ==> c.dimensions % CHAR_BIT == 0)
  {
    var d := c.dimensions;
    if c.elementType.Bit? {
      if d % CHAR_BIT != 0 {
        assert WriteOffset(c, CHAR_BIT) == d;
        assert ReadOffset(c, CHAR_BIT) == CHAR_BIT * (d / CHAR_BIT);
      } else {
        forall o: nat ensures WriteOffset(c, o) == ReadOffset(c, o) {
          assert o * d == CHAR_BIT * (o * (d / CHAR_BIT)) by {
            assert d == CHAR_BIT * (d / CHAR_BIT);
            MulSwap(o, CHAR_BIT, d / CHAR_BIT);
          }
        }
      }
    } else {
      forall o: nat ensures WriteOffset(c, o) == ReadOffset(c, o) { MulSwap(4, o, d); }
    }
  }

  lemma MulSwap(x: int, y: int, z: int)
    ensures x * (y * z) == y * (x * z) == x * y * z
  {
  }

  predicate IsBlob(blob: seq<Byte>, c: VectorColumn, chunkSize: nat) {
    |blob| == chunkSize * ByteSize(c.elementType, c.dimensions)
  }

  lemma SlotInBlob(o: nat, chunkSize: nat, size: nat)
    requires o < chunkSize
    ensures 0 <= o * size && o * size + size <= chunkSize * size
  {
    assert (o + 1) * size <= chunkSize * size;
  }

  function ReadSlot(blob: seq<Byte>, c: VectorColumn, chunkSize: nat, o: nat): (r: seq<Byte>)
    requires IsBlob(blob, c, chunkSize) && o < chunkSize
    ensures |r| == ByteSize(c.elementType, c.dimensions)
  {
    var size := ByteSize(c.elementType, c.dimensions);
    SlotInBlob(o, chunkSize, size);
    blob[ReadOffset(c, o)..ReadOffset(c, o) + size]
  }

  function WriteAt(blob: seq<Byte>, data: seq<Byte>, at: nat): (r: seq<Byte>)
    requires at + |data| <= |blob|
    ensures |r| == |blob|
  {
    blob[..at] + data + blob[at + |data|..]
  }

  function WriteSlot(blob: seq<Byte>, c: VectorColumn, chunkSize: nat, o: nat, v: Vector): (r: seq<Byte>)
    requires IsBlob(blob, c, chunkSize) && o < chunkSize && ValidVector(v) && Fits(v, c)
    ensures |r| == |blob|
  {
    OffsetsAgree(c);
    assert WriteOffset(c, o) == ReadOffset(c, o);
    SlotInBlob(o, chunkSize, |v.bytes|);
    WriteAt(blob, v.bytes, WriteOffset(c, o))
  }

  /** A write is what a read of the same slot returns, and no other slot notices it. */
  lemma ReadAfterWrite(blob: seq<Byte>, c: VectorColumn, chunkSize: nat, o: nat, v: Vector, p: nat)
    requires IsBlob(blob, c, chunkSize) && o < chunkSize && p < chunkSize && ValidVector(v) && Fits(v, c)
    ensures ReadSlot(WriteSlot(blob, c, chunkSize, o, v), c, chunkSize, p)
      == if p == o then v.bytes else ReadSlot(blob, c, chunkSize, p)
  {
    OffsetsAgree(c);
    var size := |v.bytes|;
    assert WriteOffset(c, o) == ReadOffset(c, o);
    SlotInBlob(o, chunkSize, size);
    SlotInBlob(p, chunkSize, size);
    if p < o { SlotInBlob(p, o, size); }
    if o < p { SlotInBlob(o, p, size); }
  }
}
