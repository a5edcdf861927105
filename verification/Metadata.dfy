/** One metadata column: a fixed-size cell for every slot of every chunk, and for
    text columns a side table that holds the full text of the long values. The
    16-byte text cell caches the length and the first 12 bytes. */
module Metadata {
  import opened Bitmap
  import opened Numbers
  import opened Schema

  const VIEW_DATA_LENGTH := 12

  datatype View = View(n: int, data: seq<Byte>)

  datatype Cell = BoolCell(b: bool) | IntCell(i: int) | FloatCell(f: real) | TextCell(view: View)

  datatype MetaBlob =
    | BoolData(bits: seq<Byte>)
    | IntData(ints: seq<int>)
    | FloatData(floats: seq<real>)
    | TextData(views: seq<View>)

  /** Where a row lives. */
  datatype Pos = Pos(chunk: int, offset: nat)

  datatype MetaTable = MetaTable(kind: MetaKind, blobs: map<int, MetaBlob>, texts: map<int, seq<Byte>>)

  // ----- cells of one blob -----

  predicate HasShape(blob: MetaBlob, kind: MetaKind, size: nat) {
    match kind
    case BooleanKind => blob.BoolData? && CHAR_BIT * |blob.bits| == size
    case IntegerKind => blob.IntData? && |blob.ints| == size
    case FloatKind => blob.FloatData? && |blob.floats| == size
    case TextKind => blob.TextData? && |blob.views| == size
  }

  predicate CellKind(c: Cell, kind: MetaKind) {
    match kind
    case BooleanKind => c.BoolCell?
    case IntegerKind => c.IntCell?
    case FloatKind => c.FloatCell?
    case TextKind => c.TextCell?
  }

  function GetCell(blob: MetaBlob, kind: MetaKind, size: nat, o: nat): (c: Cell)
    requires HasShape(blob, kind, size) && o < size
    ensures CellKind(c, kind)
  {
    match kind
    case BooleanKind => BoolCell(Bits(blob.bits)[o])
    case IntegerKind => IntCell(blob.ints[o])
    case FloatKind => FloatCell(blob.floats[o])
    case TextKind => TextCell(blob.views[o])
  }

  function SetCell(blob: MetaBlob, kind: MetaKind, size: nat, o: nat, c: Cell): (r: MetaBlob)
    requires HasShape(blob, kind, size) && o < size && CellKind(c, kind)
    ensures HasShape(r, kind, size)
    ensures forall p: nat | p < size :: GetCell(r, kind, size, p) == if p == o then c else GetCell(blob, kind, size, p)
  {
    match kind
    case BooleanKind => BoolData(Put(blob.bits, o, c.b))
    case IntegerKind => IntData(blob.ints[o := c.i])
    case FloatKind => FloatData(blob.floats[o := c.f])
    case TextKind => TextData(blob.views[o := c.view])
  }

  function ZeroCell(kind: MetaKind): (c: Cell)
    ensures CellKind(c, kind)
  {
    match kind
    case BooleanKind => BoolCell(false)
    case IntegerKind => IntCell(0)
    case FloatKind => FloatCell(0.0)
    case TextKind => TextCell(MakeView([]))
  }

  function ZeroBlob(kind: MetaKind, size: nat): (r: MetaBlob)
    requires size % CHAR_BIT == 0
    ensures HasShape(r, kind, size)
    ensures forall p: nat | p < size :: GetCell(r, kind, size, p) == ZeroCell(kind)
  {
    match kind
    case BooleanKind => BoolData(Zeros(size / CHAR_BIT))
    case IntegerKind => IntData(seq(size, _ => 0))
    case FloatKind => FloatData(seq(size, _ => 0.0))
    case TextKind => TextData(seq(size, _ => MakeView([])))
  }

  // ----- values -----

  function MakeView(s: seq<Byte>): (v: View)
    ensures v.n == |s| && |v.data| == VIEW_DATA_LENGTH
  {
    var m := if |s| < VIEW_DATA_LENGTH then |s| else VIEW_DATA_LENGTH;
    View(|s|, s[..m] + seq(VIEW_DATA_LENGTH - m, _ => 0))
  }

  /** The type check in front of a write. */
  predicate Accepts(kind: MetaKind, v: SqlValue) {
    match kind
    case BooleanKind => v.Integer? && (Int32(v.i) == 0 || Int32(v.i) == 1)
    case IntegerKind => v.Integer?
    case FloatKind => v.Float?
    case TextKind => v.Text?
  }

  /** The value a later read returns: booleans come back as 0 or 1. */
  function Stored(kind: MetaKind, v: SqlValue): (r: SqlValue)
    requires Accepts(kind, v)
    ensures Accepts(kind, r)
  {
    if kind.BooleanKind? then Integer(if Int32(v.i) != 0 then 1 else 0) else v
  }

  function CellFor(kind: MetaKind, v: SqlValue): (c: Cell)
    requires Accepts(kind, v)
    ensures CellKind(c, kind)
  {
    match kind
    case BooleanKind => BoolCell(Int32(v.i) != 0)
    case IntegerKind => IntCell(v.i)
    case FloatKind => FloatCell(v.f)
    case TextKind => TextCell(MakeView(v.s))
  }

  predicate IsLong(v: SqlValue) {
    v.Text? && |v.s| > VIEW_DATA_LENGTH
  }

  /** A short text is recovered from its cell alone. */
  lemma ViewHoldsShortText(s: seq<Byte>)
    requires |s| <= VIEW_DATA_LENGTH
    ensures MakeView(s).data[..|s|] == s
  {
  }

  // ----- one column over all chunks -----

  ghost predicate InRange(p: Pos, chunks: set<int>, size: nat) {
    p.chunk in chunks && p.offset < size
  }

  ghost predicate Shaped(t: MetaTable, chunks: set<int>, size: nat) {
    t.blobs.Keys == chunks && forall c | c in chunks :: HasShape(t.blobs[c], t.kind, size)
  }

  function CellAt(t: MetaTable, size: nat, p: Pos): (c: Cell)
    requires p.chunk in t.blobs && HasShape(t.blobs[p.chunk], t.kind, size) && p.offset < size
    ensures CellKind(c, t.kind)
  {
    GetCell(t.blobs[p.chunk], t.kind, size, p.offset)
  }

  /** vec0_result_metadata_value_for_rowid. */
  function ReadValue(t: MetaTable, size: nat, p: Pos, rowid: int): Option<SqlValue>
    requires p.chunk in t.blobs && HasShape(t.blobs[p.chunk], t.kind, size) && p.offset < size
  {
    match CellAt(t, size, p)
    case BoolCell(b) => Some(Integer(if b then 1 else 0))
    case IntCell(i) => Some(Integer(i))
    case FloatCell(f) => Some(Float(f))
    case TextCell(view) =>
      if 0 <= view.n <= VIEW_DATA_LENGTH && view.n <= |view.data| then Some(Text(view.data[..view.n]))
      else if rowid in t.texts then Some(Text(t.texts[rowid]))
      else None
  }

  /** vec0_write_metadata_value; None when it reports an error. */
  function WriteValue(t: MetaTable, size: nat, p: Pos, rowid: int, v: SqlValue, isUpdate: bool): Option<MetaTable>
    requires p.chunk in t.blobs && HasShape(t.blobs[p.chunk], t.kind, size) && p.offset < size
  {
    if !Accepts(t.kind, v) then None
    else
      var blobs := t.blobs[p.chunk := SetCell(t.blobs[p.chunk], t.kind, size, p.offset, CellFor(t.kind, v))];
      if !t.kind.TextKind? then Some(t.(blobs := blobs))
      else
        var prevN := CellAt(t, size, p).view.n;
        if |v.s| > VIEW_DATA_LENGTH then
          if isUpdate && prevN > VIEW_DATA_LENGTH then
            Some(t.(blobs := blobs, texts := if rowid in t.texts then t.texts[rowid := v.s] else t.texts))
          else if rowid in t.texts then None
          else Some(t.(blobs := blobs, texts := t.texts[rowid := v.s]))
        else if prevN > VIEW_DATA_LENGTH then Some(t.(blobs := blobs, texts := t.texts - {rowid}))
        else Some(t.(blobs := blobs))
  }

  /** vec0Update_Delete_ClearMetadata. */
  function ClearValue(t: MetaTable, size: nat, p: Pos, rowid: int): MetaTable
    requires p.chunk in t.blobs && HasShape(t.blobs[p.chunk], t.kind, size) && p.offset < size
  {
    var blobs := t.blobs[p.chunk := SetCell(t.blobs[p.chunk], t.kind, size, p.offset, ZeroCell(t.kind))];
    if t.kind.TextKind? && CellAt(t, size, p).view.n > VIEW_DATA_LENGTH
    then t.(blobs := blobs, texts := t.texts - {rowid})
    else t.(blobs := blobs)
  }

  /** The blank metadata blob of a new chunk. */
  function AddChunk(t: MetaTable, size: nat, c: int): MetaTable
    requires size % CHAR_BIT == 0
  {
    t.(blobs := t.blobs[c := ZeroBlob(t.kind, size)])
  }

  // ----- the invariant -----

  /** The cell of a live row agrees with the value read for it, and the side table
      has an entry for the row exactly when the text is too long for the cell. */
  ghost predicate Consistent(t: MetaTable, size: nat, p: Pos, rowid: int)
    requires p.chunk in t.blobs && HasShape(t.blobs[p.chunk], t.kind, size) && p.offset < size
  {
    var v := ReadValue(t, size, p, rowid);
    && v.Some? && Accepts(t.kind, v.value) && CellAt(t, size, p) == CellFor(t.kind, v.value)
    && (rowid in t.texts <==> IsLong(v.value))
  }

  ghost predicate Placed(live: map<int, Pos>, chunks: set<int>, size: nat) {
    && (forall r | r in live :: InRange(live[r], chunks, size))
    && (forall r, q | r in live && q in live && live[r] == live[q] :: r == q)
  }

  ghost predicate Vacant(p: Pos, live: map<int, Pos>) {
    forall r | r in live :: live[r] != p
  }

  ghost predicate MetaInv(t: MetaTable, chunks: set<int>, size: nat, live: map<int, Pos>) {
    && Shaped(t, chunks, size) && Placed(live, chunks, size)
    && (forall r | r in live :: Consistent(t, size, live[r], r))
    && (forall r | r in t.texts :: r in live)
    && (forall p | InRange(p, chunks, size) && Vacant(p, live) :: CellAt(t, size, p) == ZeroCell(t.kind))
  }

  /** The rows of `live` other than `rowid` read the same from both tables. */
  ghost predicate SameOthers(t: MetaTable, t': MetaTable, chunks: set<int>, size: nat, live: map<int, Pos>, rowid: int)
    requires Shaped(t, chunks, size) && Shaped(t', chunks, size) && Placed(live, chunks, size)
  {
    forall r | r in live && r != rowid :: ReadValue(t', size, live[r], r) == ReadValue(t, size, live[r], r)
  }

  /** Only the cell at `p` and the side row of `rowid` may differ. */
  ghost predicate Frame(t: MetaTable, t': MetaTable, chunks: set<int>, size: nat, p: Pos, rowid: int)
    requires Shaped(t, chunks, size)
  {
    && t'.kind == t.kind && Shaped(t', chunks, size)
    && (forall q | InRange(q, chunks, size) && q != p :: CellAt(t', size, q) == CellAt(t, size, q))
    && (forall r | r != rowid :: (r in t'.texts <==> r in t.texts) && (r in t.texts ==> t'.texts[r] == t.texts[r]))
  }

  lemma WriteFrame(t: MetaTable, chunks: set<int>, size: nat, p: Pos, rowid: int, v: SqlValue, isUpdate: bool)
    requires Shaped(t, chunks, size) && InRange(p, chunks, size)
    requires WriteValue(t, size, p, rowid, v, isUpdate).Some?
    ensures var t' := WriteValue(t, size, p, rowid, v, isUpdate).value;
            Accepts(t.kind, v) && Frame(t, t', chunks, size, p, rowid) && CellAt(t', size, p) == CellFor(t.kind, v)
  {
    var t' := WriteValue(t, size, p, rowid, v, isUpdate).value;
    assert t'.blobs.Keys == chunks;
  }

  /** A row outside the frame reads the same and stays consistent. */
  lemma FramedRow(t: MetaTable, t': MetaTable, chunks: set<int>, size: nat, p: Pos, rowid: int, q: Pos, r: int)
    requires Shaped(t, chunks, size) && Frame(t, t', chunks, size, p, rowid)
    requires InRange(q, chunks, size) && q != p && r != rowid
    ensures ReadValue(t', size, q, r) == ReadValue(t, size, q, r)
    ensures Consistent(t, size, q, r) ==> Consistent(t', size, q, r)
  {
    assert CellAt(t', size, q) == CellAt(t, size, q);
  }

  /** Inserting a row into a vacant slot. */
  lemma InsertValue(t: MetaTable, chunks: set<int>, size: nat, live: map<int, Pos>, p: Pos, rowid: int, v: SqlValue)
    requires MetaInv(t, chunks, size, live) && InRange(p, chunks, size) && Vacant(p, live) && rowid !in live
    ensures WriteValue(t, size, p, rowid, v, false).Some? <==> Accepts(t.kind, v)
    ensures Accepts(t.kind, v) ==>
      var t' := WriteValue(t, size, p, rowid, v, false).value;
      && MetaInv(t', chunks, size, live[rowid := p]) && t'.kind == t.kind
      && ReadValue(t', size, p, rowid) == Some(Stored(t.kind, v))
      && SameOthers(t, t', chunks, size, live, rowid)
  {
    assert CellAt(t, size, p) == ZeroCell(t.kind);
    if Accepts(t.kind, v) {
      WriteFrame(t, chunks, size, p, rowid, v, false);
      WrittenRow(t, chunks, size, p, rowid, v, false);
      Preserved(t, WriteValue(t, size, p, rowid, v, false).value, chunks, size, live, p, rowid);
    }
  }

  /** Updating a live row, through every change between short and long text. */
  lemma UpdateValue(t: MetaTable, chunks: set<int>, size: nat, live: map<int, Pos>, rowid: int, v: SqlValue)
    requires MetaInv(t, chunks, size, live) && rowid in live
    ensures WriteValue(t, size, live[rowid], rowid, v, true).Some? <==> Accepts(t.kind, v)
    ensures Accepts(t.kind, v) ==>
      var t' := WriteValue(t, size, live[rowid], rowid, v, true).value;
      && MetaInv(t', chunks, size, live) && t'.kind == t.kind
      && ReadValue(t', size, live[rowid], rowid) == Some(Stored(t.kind, v))
      && SameOthers(t, t', chunks, size, live, rowid)
  {
    var p := live[rowid];
    assert Consistent(t, size, p, rowid);
    if Accepts(t.kind, v) {
      WriteFrame(t, chunks, size, p, rowid, v, true);
      WrittenRow(t, chunks, size, p, rowid, v, true);
      Preserved(t, WriteValue(t, size, p, rowid, v, true).value, chunks, size, live, p, rowid);
      assert live[rowid := p] == live;
    }
  }

  /** What the written row itself reads afterwards. */
  lemma WrittenRow(t: MetaTable, chunks: set<int>, size: nat, p: Pos, rowid: int, v: SqlValue, isUpdate: bool)
    requires Shaped(t, chunks, size) && InRange(p, chunks, size) && Accepts(t.kind, v)
    requires WriteValue(t, size, p, rowid, v, isUpdate).Some?
    requires t.kind.TextKind? ==> (rowid in t.texts <==> CellAt(t, size, p).view.n > VIEW_DATA_LENGTH)
    requires !t.kind.TextKind? ==> rowid !in t.texts
    ensures var t' := WriteValue(t, size, p, rowid, v, isUpdate).value;
            && Shaped(t', chunks, size) && Consistent(t', size, p, rowid)
            && ReadValue(t', size, p, rowid) == Some(Stored(t.kind, v))
  {
    WriteFrame(t, chunks, size, p, rowid, v, isUpdate);
    if t.kind.TextKind? && |v.s| <= VIEW_DATA_LENGTH {
      ViewHoldsShortText(v.s);
    }
  }

  /** What the other rows keep. */
  lemma PreservedRows(t: MetaTable, t': MetaTable, chunks: set<int>, size: nat, live: map<int, Pos>, p: Pos, rowid: int)
    requires MetaInv(t, chunks, size, live) && InRange(p, chunks, size)
    requires Frame(t, t', chunks, size, p, rowid)
    requires forall r | r in live && r != rowid :: live[r] != p
    ensures SameOthers(t, t', chunks, size, live, rowid)
    ensures forall r | r in live && r != rowid :: Consistent(t', size, live[r], r)
  {
    forall r | r in live && r != rowid
      ensures ReadValue(t', size, live[r], r) == ReadValue(t, size, live[r], r) && Consistent(t', size, live[r], r)
    {
      FramedRow(t, t', chunks, size, p, rowid, live[r], r);
    }
  }

  /** What the other rows and the vacant slots keep. */
  lemma Preserved(t: MetaTable, t': MetaTable, chunks: set<int>, size: nat, live: map<int, Pos>, p: Pos, rowid: int)
    requires MetaInv(t, chunks, size, live) && InRange(p, chunks, size)
    requires Frame(t, t', chunks, size, p, rowid) && Consistent(t', size, p, rowid)
    requires forall r | r in live && r != rowid :: live[r] != p
    requires rowid in live ==> live[rowid] == p
    ensures MetaInv(t', chunks, size, live[rowid := p]) && SameOthers(t, t', chunks, size, live, rowid)
  {
    var live' := live[rowid := p];
    PreservedRows(t, t', chunks, size, live, p, rowid);
    forall q | InRange(q, chunks, size) && Vacant(q, live') ensures CellAt(t', size, q) == ZeroCell(t.kind) {
      assert live'[rowid] != q;
      assert forall r | r in live :: live'[r] == live[r];
      assert Vacant(q, live);
    }
  }

  /** Deleting a live row clears its cell and its side row. */
  lemma DeleteValue(t: MetaTable, chunks: set<int>, size: nat, live: map<int, Pos>, rowid: int)
    requires MetaInv(t, chunks, size, live) && rowid in live
    ensures var t' := ClearValue(t, size, live[rowid], rowid);
            && MetaInv(t', chunks, size, live - {rowid}) && t'.kind == t.kind
            && SameOthers(t, t', chunks, size, live, rowid)
  {
    var p, live' := live[rowid], live - {rowid};
    var t' := ClearValue(t, size, p, rowid);
    ClearFrame(t, chunks, size, p, rowid);
    forall r | r in live'
      ensures ReadValue(t', size, live[r], r) == ReadValue(t, size, live[r], r) && Consistent(t', size, live[r], r)
    {
      FramedRow(t, t', chunks, size, p, rowid, live[r], r);
    }
    forall q | InRange(q, chunks, size) && Vacant(q, live') ensures CellAt(t', size, q) == ZeroCell(t.kind) {
      if q != p {
        forall r | r in live ensures live[r] != q { assert r == rowid || r in live'; }
        assert Vacant(q, live);
      }
    }
  }

  lemma ClearFrame(t: MetaTable, chunks: set<int>, size: nat, p: Pos, rowid: int)
    requires Shaped(t, chunks, size) && InRange(p, chunks, size) && Consistent(t, size, p, rowid)
    ensures var t' := ClearValue(t, size, p, rowid);
            Frame(t, t', chunks, size, p, rowid) && CellAt(t', size, p) == ZeroCell(t.kind) && rowid !in t'.texts
  {
    var t' := ClearValue(t, size, p, rowid);
    assert t'.blobs.Keys == chunks;
  }

  /** A new chunk is vacant and blank. */
  lemma NewChunk(t: MetaTable, chunks: set<int>, size: nat, live: map<int, Pos>, c: int)
    requires MetaInv(t, chunks, size, live) && c !in chunks && size % CHAR_BIT == 0
    ensures var t' := AddChunk(t, size, c);
            && MetaInv(t', chunks + {c}, size, live) && t'.kind == t.kind
            && forall r | r in live :: ReadValue(t', size, live[r], r) == ReadValue(t, size, live[r], r)
  {
    var t' := AddChunk(t, size, c);
    assert t'.blobs.Keys == chunks + {c};
    forall q | InRange(q, chunks, size) ensures CellAt(t', size, q) == CellAt(t, size, q) { }
    forall r | r in live
      ensures ReadValue(t', size, live[r], r) == ReadValue(t, size, live[r], r) && Consistent(t', size, live[r], r)
    {
      assert Consistent(t, size, live[r], r);
    }
  }
}
