/** The shadow tables of a vec0 table, the invariant that ties them together, and
    the plain map from rowid to row that they stand for. */
module Store {
  import opened Bitmap
  import opened Schema
  import opened VectorSlots
  import opened Metadata

  /** A row of _chunks. */
  datatype ChunkRow = ChunkRow(validity: seq<Byte>, rowids: seq<int>, partition: seq<SqlValue>)

  /** The tables. `vectors[i]` and `metadata[j]` are the per-column shadow tables,
      keyed by chunk id; `rowids` is _rowids. The two sequence numbers are the
      AUTOINCREMENT counters. */
  datatype Tables = Tables(
    chunks: map<int, ChunkRow>,
    rowids: map<int, Pos>,
    vectors: seq<map<int, seq<Byte>>>,
    metadata: seq<MetaTable>,
    chunkSeq: int,
    rowidSeq: int)

  /** One row as a user of the table sees it. */
  datatype Row = Row(partition: seq<SqlValue>, vectors: seq<seq<Byte>>, metadata: seq<SqlValue>)

  // ----- the invariant -----

  ghost predicate ChunkOk(s: TableSchema, c: ChunkRow) {
    CHAR_BIT * |c.validity| == |c.rowids| == s.chunkSize && |c.partition| == |s.partitions|
  }

  /** Set validity bits and entries of _rowids are in bijection, and the chunk's
      rowids entry names the row. */
  ghost predicate ChunksInv(s: TableSchema, chunks: map<int, ChunkRow>, live: map<int, Pos>) {
    && (forall c | c in chunks :: ChunkOk(s, chunks[c]))
    && Placed(live, chunks.Keys, s.chunkSize)
    && (forall r | r in live :: Names(s, chunks, live[r], r))
    && (forall c, o: nat | c in chunks && o < s.chunkSize && Bits(chunks[c].validity)[o] :: chunks[c].rowids[o] in live)
    && (forall c, o: nat | c in chunks && o < s.chunkSize && Bits(chunks[c].validity)[o] ::
          live[chunks[c].rowids[o]] == Pos(c, o))
  }

  ghost predicate Names(s: TableSchema, chunks: map<int, ChunkRow>, p: Pos, r: int)
    requires p.chunk in chunks && ChunkOk(s, chunks[p.chunk]) && p.offset < s.chunkSize
  {
    Bits(chunks[p.chunk].validity)[p.offset] && chunks[p.chunk].rowids[p.offset] == r
  }

  ghost predicate VectorsInv(c: VectorColumn, blobs: map<int, seq<Byte>>, chunks: set<int>, size: nat) {
    blobs.Keys == chunks && forall k | k in chunks :: IsBlob(blobs[k], c, size)
  }

  ghost predicate Inv(s: TableSchema, db: Tables) {
    && ValidSchema(s)
    && ChunksInv(s, db.chunks, db.rowids)
    && |db.vectors| == |s.vectors|
    && (forall i | 0 <= i < |s.vectors| :: VectorsInv(s.vectors[i], db.vectors[i], db.chunks.Keys, s.chunkSize))
    && |db.metadata| == |s.metadata|
    && (forall j | 0 <= j < |s.metadata| :: db.metadata[j].kind == s.metadata[j])
    && (forall j | 0 <= j < |s.metadata| :: MetaInv(db.metadata[j], db.chunks.Keys, s.chunkSize, db.rowids))
    && (forall c | c in db.chunks :: 0 < c <= db.chunkSeq)
    && (forall r | r in db.rowids :: r <= db.rowidSeq)
    && 0 <= db.chunkSeq
  }

  // ----- the meaning -----

  function VectorOf(s: TableSchema, db: Tables, i: nat, p: Pos): seq<Byte>
    requires i < |s.vectors| == |db.vectors| && p.chunk in db.vectors[i] && p.offset < s.chunkSize
    requires IsBlob(db.vectors[i][p.chunk], s.vectors[i], s.chunkSize)
  {
    ReadSlot(db.vectors[i][p.chunk], s.vectors[i], s.chunkSize, p.offset)
  }

  ghost function RowAt(s: TableSchema, db: Tables, r: int): (row: Row)
    requires Inv(s, db) && r in db.rowids
    ensures |row.vectors| == |s.vectors| && |row.metadata| == |s.metadata|
    ensures row.partition == db.chunks[db.rowids[r].chunk].partition
    ensures forall i | 0 <= i < |s.vectors| :: row.vectors[i] == VectorOf(s, db, i, db.rowids[r])
    ensures forall j | 0 <= j < |s.metadata| ::
      Some(row.metadata[j]) == ReadValue(db.metadata[j], s.chunkSize, db.rowids[r], r)
  {
    var p := db.rowids[r];
    assert forall j | 0 <= j < |s.metadata| :: Consistent(db.metadata[j], s.chunkSize, p, r);
    Row(db.chunks[p.chunk].partition,
        seq(|s.vectors|, i requires 0 <= i < |s.vectors| => VectorOf(s, db, i, p)),
        seq(|s.metadata|, j requires 0 <= j < |s.metadata| => ReadValue(db.metadata[j], s.chunkSize, p, r).value))
  }

  /** The plain map that the tables stand for. */
  ghost function Abs(s: TableSchema, db: Tables): (m: map<int, Row>)
    requires Inv(s, db)
    ensures m.Keys == db.rowids.Keys
    ensures forall r | r in m :: m[r] == RowAt(s, db, r)
  {
    map r | r in db.rowids :: RowAt(s, db, r)
  }

  lemma RowIs(s: TableSchema, db: Tables, r: int, row: Row)
    requires Inv(s, db) && r in db.rowids
    requires row.partition == db.chunks[db.rowids[r].chunk].partition
    requires |row.vectors| == |s.vectors| && |row.metadata| == |s.metadata|
    requires forall i | 0 <= i < |s.vectors| :: row.vectors[i] == VectorOf(s, db, i, db.rowids[r])
    requires forall j | 0 <= j < |s.metadata| ::
      Some(row.metadata[j]) == ReadValue(db.metadata[j], s.chunkSize, db.rowids[r], r)
    ensures RowAt(s, db, r) == row
  {
    var row' := RowAt(s, db, r);
    assert row'.vectors == row.vectors;
    forall j | 0 <= j < |s.metadata| ensures row'.metadata[j] == row.metadata[j] {
      assert Some(row'.metadata[j]) == Some(row.metadata[j]);
    }
    assert row'.metadata == row.metadata;
  }

  /** Two states give row r the same contents. */
  ghost predicate SameContents(s: TableSchema, db: Tables, db': Tables, r: int)
    requires Inv(s, db) && Inv(s, db') && r in db.rowids && r in db'.rowids
  {
    && db'.chunks[db'.rowids[r].chunk].partition == db.chunks[db.rowids[r].chunk].partition
    && (forall i | 0 <= i < |s.vectors| :: VectorOf(s, db', i, db'.rowids[r]) == VectorOf(s, db, i, db.rowids[r]))
    && (forall j | 0 <= j < |s.metadata| ::
          ReadValue(db'.metadata[j], s.chunkSize, db'.rowids[r], r) == ReadValue(db.metadata[j], s.chunkSize, db.rowids[r], r))
  }

  lemma SameRow(s: TableSchema, db: Tables, db': Tables, r: int)
    requires Inv(s, db) && Inv(s, db') && r in db.rowids && r in db'.rowids && SameContents(s, db, db', r)
    ensures RowAt(s, db', r) == RowAt(s, db, r)
  {
    RowIs(s, db', r, RowAt(s, db, r));
  }

  lemma SameRows(s: TableSchema, db: Tables, db': Tables, rs: set<int>)
    requires Inv(s, db) && Inv(s, db') && rs <= db.rowids.Keys && rs <= db'.rowids.Keys
    requires forall q | q in rs :: SameContents(s, db, db', q)
    ensures forall q | q in rs :: RowAt(s, db', q) == RowAt(s, db, q)
  {
    forall q | q in rs ensures RowAt(s, db', q) == RowAt(s, db, q) {
      SameRow(s, db, db', q);
    }
  }

  /** Equality of the abstract map, row by row. */
  lemma AbsIs(s: TableSchema, db: Tables, m: map<int, Row>)
    requires Inv(s, db) && m.Keys == db.rowids.Keys && forall q | q in m :: RowAt(s, db, q) == m[q]
    ensures Abs(s, db) == m
  {
  }

  // ----- a new chunk -----

  function BlankChunk(s: TableSchema, partition: seq<SqlValue>): ChunkRow
    requires s.chunkSize % CHAR_BIT == 0
  {
    ChunkRow(Zeros(s.chunkSize / CHAR_BIT), seq(s.chunkSize, _ => 0), partition)
  }

  function BlankVectors(s: TableSchema, c: VectorColumn): (r: seq<Byte>)
    ensures IsBlob(r, c, s.chunkSize)
  {
    seq(s.chunkSize * ByteSize(c.elementType, c.dimensions), _ => 0)
  }

  /** vec0_new_chunk. */
  function WithNewChunk(s: TableSchema, db: Tables, partition: seq<SqlValue>): Tables
    requires s.chunkSize % CHAR_BIT == 0 && |db.vectors| == |s.vectors|
  {
    var c := db.chunkSeq + 1;
    db.(chunks := db.chunks[c := BlankChunk(s, partition)],
        vectors := seq(|s.vectors|, i requires 0 <= i < |s.vectors| => db.vectors[i][c := BlankVectors(s, s.vectors[i])]),
        metadata := seq(|db.metadata|, j requires 0 <= j < |db.metadata| => AddChunk(db.metadata[j], s.chunkSize, c)),
        chunkSeq := c)
  }

  lemma NewChunkKeepsChunks(s: TableSchema, db: Tables, partition: seq<SqlValue>)
    requires Inv(s, db) && |partition| == |s.partitions|
    ensures ChunksInv(s, WithNewChunk(s, db, partition).chunks, db.rowids)
  {
    var c, chunks' := db.chunkSeq + 1, WithNewChunk(s, db, partition).chunks;
    assert c !in db.chunks && ChunkOk(s, chunks'[c]);
    forall r | r in db.rowids ensures Names(s, chunks', db.rowids[r], r) {
      assert Names(s, db.chunks, db.rowids[r], r);
    }
  }

  lemma NewChunkKeepsInv(s: TableSchema, db: Tables, partition: seq<SqlValue>)
    requires Inv(s, db) && |partition| == |s.partitions|
    ensures Inv(s, WithNewChunk(s, db, partition))
    ensures forall r | r in db.rowids :: SameContents(s, db, WithNewChunk(s, db, partition), r)
  {
    var c, db' := db.chunkSeq + 1, WithNewChunk(s, db, partition);
    NewChunkKeepsChunks(s, db, partition);
    assert db'.chunks.Keys == db.chunks.Keys + {c};
    forall j | 0 <= j < |s.metadata|
      ensures MetaInv(db'.metadata[j], db'.chunks.Keys, s.chunkSize, db.rowids) && db'.metadata[j].kind == s.metadata[j]
      ensures forall r | r in db.rowids ::
        ReadValue(db'.metadata[j], s.chunkSize, db.rowids[r], r) == ReadValue(db.metadata[j], s.chunkSize, db.rowids[r], r)
    {
      NewChunk(db.metadata[j], db.chunks.Keys, s.chunkSize, db.rowids, c);
    }
  }

  /** Adding a blank chunk changes no row. */
  lemma NewChunkKeepsRows(s: TableSchema, db: Tables, partition: seq<SqlValue>)
    requires Inv(s, db) && |partition| == |s.partitions|
    ensures Inv(s, WithNewChunk(s, db, partition))
    ensures Abs(s, WithNewChunk(s, db, partition)) == Abs(s, db)
  {
    NewChunkKeepsInv(s, db, partition);
    SameRows(s, db, WithNewChunk(s, db, partition), db.rowids.Keys);
    AbsIs(s, WithNewChunk(s, db, partition), Abs(s, db));
  }

  // ----- placing a row -----

  function WithVector(s: TableSchema, i: nat, blobs: map<int, seq<Byte>>, p: Pos, v: Vector): map<int, seq<Byte>>
    requires i < |s.vectors| && p.chunk in blobs && p.offset < s.chunkSize
    requires IsBlob(blobs[p.chunk], s.vectors[i], s.chunkSize) && ValidVector(v) && Fits(v, s.vectors[i])
  {
    blobs[p.chunk := WriteSlot(blobs[p.chunk], s.vectors[i], s.chunkSize, p.offset, v)]
  }

  /** Writing one slot of a vector column. */
  lemma VectorFrame(s: TableSchema, i: nat, blobs: map<int, seq<Byte>>, chunks: set<int>, p: Pos, v: Vector)
    requires i < |s.vectors| && VectorsInv(s.vectors[i], blobs, chunks, s.chunkSize) && InRange(p, chunks, s.chunkSize)
    requires ValidVector(v) && Fits(v, s.vectors[i])
    ensures var blobs' := WithVector(s, i, blobs, p, v);
            && VectorsInv(s.vectors[i], blobs', chunks, s.chunkSize)
            && forall q | InRange(q, chunks, s.chunkSize) ::
                 ReadSlot(blobs'[q.chunk], s.vectors[i], s.chunkSize, q.offset)
                 == if q == p then v.bytes else ReadSlot(blobs[q.chunk], s.vectors[i], s.chunkSize, q.offset)
  {
    var blobs' := WithVector(s, i, blobs, p, v);
    assert blobs'.Keys == chunks;
    forall q | InRange(q, chunks, s.chunkSize)
      ensures ReadSlot(blobs'[q.chunk], s.vectors[i], s.chunkSize, q.offset)
           == if q == p then v.bytes else ReadSlot(blobs[q.chunk], s.vectors[i], s.chunkSize, q.offset)
    {
      if q.chunk == p.chunk {
        ReadAfterWrite(blobs[p.chunk], s.vectors[i], s.chunkSize, p.offset, v, q.offset);
      }
    }
  }

  /** The vectors of an insert: one decoded vector for each column. */
  ghost predicate GoodVectors(s: TableSchema, vs: seq<Vector>) {
    |vs| == |s.vectors| && forall i | 0 <= i < |vs| :: ValidVector(vs[i]) && Fits(vs[i], s.vectors[i])
  }

  ghost predicate GoodMetadata(s: TableSchema, ms: seq<SqlValue>) {
    |ms| == |s.metadata| && forall j | 0 <= j < |ms| :: Accepts(s.metadata[j], ms[j])
  }

  /** The chunk row after a row moved into slot o: the validity bit and the rowid entry. */
  function WithOccupant(c: ChunkRow, o: nat, r: int): ChunkRow
    requires o < |c.rowids| == CHAR_BIT * |c.validity|
  {
    c.(validity := Put(c.validity, o, true), rowids := c.rowids[o := r])
  }

  lemma OccupantKeepsChunks(s: TableSchema, chunks: map<int, ChunkRow>, live: map<int, Pos>, p: Pos, r: int)
    requires ChunksInv(s, chunks, live) && InRange(p, chunks.Keys, s.chunkSize)
    requires r !in live && !Bits(chunks[p.chunk].validity)[p.offset]
    ensures Vacant(p, live)
    ensures ChunksInv(s, chunks[p.chunk := WithOccupant(chunks[p.chunk], p.offset, r)], live[r := p])
  {
    var chunks', live' := chunks[p.chunk := WithOccupant(chunks[p.chunk], p.offset, r)], live[r := p];
    forall q | q in live ensures live[q] != p { assert Names(s, chunks, live[q], q); }
    forall q | q in live' ensures Names(s, chunks', live'[q], q) {
      if q != r { assert Names(s, chunks, live[q], q); }
    }
    assert chunks'.Keys == chunks.Keys;
    forall c, o: nat | c in chunks' && o < s.chunkSize && Bits(chunks'[c].validity)[o]
      ensures chunks'[c].rowids[o] in live' && live'[chunks'[c].rowids[o]] == Pos(c, o)
    {
      if Pos(c, o) != p {
        assert Bits(chunks[c].validity)[o] && chunks'[c].rowids[o] == chunks[c].rowids[o];
      }
    }
  }

  /** `db'` is `db` with a new row `r` written into the free slot `p`. */
  ghost predicate Placing(s: TableSchema, db: Tables, db': Tables, r: int, p: Pos, vs: seq<Vector>, ms: seq<SqlValue>) {
    && Inv(s, db) && InRange(p, db.chunks.Keys, s.chunkSize) && r !in db.rowids
    && !Bits(db.chunks[p.chunk].validity)[p.offset]
    && GoodVectors(s, vs) && GoodMetadata(s, ms)
    && db'.chunks == db.chunks[p.chunk := WithOccupant(db.chunks[p.chunk], p.offset, r)]
    && db'.rowids == db.rowids[r := p]
    && |db'.vectors| == |s.vectors| && |db'.metadata| == |s.metadata|
    && (forall i | 0 <= i < |s.vectors| :: db'.vectors[i] == WithVector(s, i, db.vectors[i], p, vs[i]))
    && (forall j | 0 <= j < |s.metadata| ::
          WriteValue(db.metadata[j], s.chunkSize, p, r, ms[j], false) == Some(db'.metadata[j]))
    && db'.chunkSeq == db.chunkSeq && db.rowidSeq <= db'.rowidSeq && r <= db'.rowidSeq
  }

  function StoredRow(s: TableSchema, partition: seq<SqlValue>, vs: seq<Vector>, ms: seq<SqlValue>): (row: Row)
    requires |ms| == |s.metadata| && forall j | 0 <= j < |ms| :: Accepts(s.metadata[j], ms[j])
    ensures row.partition == partition && |row.vectors| == |vs| && |row.metadata| == |ms|
    ensures forall i | 0 <= i < |vs| :: row.vectors[i] == vs[i].bytes
    ensures forall j | 0 <= j < |ms| :: row.metadata[j] == Stored(s.metadata[j], ms[j])
  {
    Row(partition, seq(|vs|, i requires 0 <= i < |vs| => vs[i].bytes),
        seq(|ms|, j requires 0 <= j < |ms| => Stored(s.metadata[j], ms[j])))
  }

  lemma PlacingColumns(s: TableSchema, db: Tables, db': Tables, r: int, p: Pos, vs: seq<Vector>, ms: seq<SqlValue>)
    requires Placing(s, db, db', r, p, vs, ms)
    ensures Inv(s, db')
    ensures forall i | 0 <= i < |s.vectors| :: VectorOf(s, db', i, p) == vs[i].bytes
    ensures forall j | 0 <= j < |s.metadata| ::
      ReadValue(db'.metadata[j], s.chunkSize, p, r) == Some(Stored(s.metadata[j], ms[j]))
    ensures forall q | q in db.rowids :: SameContents(s, db, db', q)
  {
    OccupantKeepsChunks(s, db.chunks, db.rowids, p, r);
    assert db'.chunks.Keys == db.chunks.Keys;
    forall i | 0 <= i < |s.vectors|
      ensures VectorsInv(s.vectors[i], db'.vectors[i], db.chunks.Keys, s.chunkSize) && VectorOf(s, db', i, p) == vs[i].bytes
      ensures forall q | q in db.rowids :: VectorOf(s, db', i, db.rowids[q]) == VectorOf(s, db, i, db.rowids[q])
    {
      VectorFrame(s, i, db.vectors[i], db.chunks.Keys, p, vs[i]);
    }
    forall j | 0 <= j < |s.metadata|
      ensures MetaInv(db'.metadata[j], db.chunks.Keys, s.chunkSize, db'.rowids) && db'.metadata[j].kind == s.metadata[j]
      ensures ReadValue(db'.metadata[j], s.chunkSize, p, r) == Some(Stored(s.metadata[j], ms[j]))
      ensures forall q | q in db.rowids ::
        ReadValue(db'.metadata[j], s.chunkSize, db.rowids[q], q) == ReadValue(db.metadata[j], s.chunkSize, db.rowids[q], q)
    {
      InsertValue(db.metadata[j], db.chunks.Keys, s.chunkSize, db.rowids, p, r, ms[j]);
    }
  }

  lemma PlacingRows(s: TableSchema, db: Tables, db': Tables, r: int, p: Pos, vs: seq<Vector>, ms: seq<SqlValue>)
    requires Placing(s, db, db', r, p, vs, ms)
    ensures Inv(s, db')
    ensures forall q | q in db.rowids :: RowAt(s, db', q) == RowAt(s, db, q)
    ensures RowAt(s, db', r) == StoredRow(s, db.chunks[p.chunk].partition, vs, ms)
  {
    PlacingColumns(s, db, db', r, p, vs, ms);
    SameRows(s, db, db', db.rowids.Keys);
    RowIs(s, db', r, StoredRow(s, db.chunks[p.chunk].partition, vs, ms));
  }

  /** An insert adds exactly one entry to the map. */
  lemma PlacingAddsRow(s: TableSchema, db: Tables, db': Tables, r: int, p: Pos, vs: seq<Vector>, ms: seq<SqlValue>)
    requires Placing(s, db, db', r, p, vs, ms)
    ensures Inv(s, db')
    ensures Abs(s, db') == Abs(s, db)[r := StoredRow(s, db.chunks[p.chunk].partition, vs, ms)]
  {
    PlacingRows(s, db, db', r, p, vs, ms);
    AbsIs(s, db', Abs(s, db)[r := StoredRow(s, db.chunks[p.chunk].partition, vs, ms)]);
  }

  // ----- removing a row -----

  /** The chunk row after slot o was given up: only the validity bit changes, the
      old rowid stays behind. */
  function WithoutOccupant(c: ChunkRow, o: nat): ChunkRow
    requires o < CHAR_BIT * |c.validity|
  {
    c.(validity := Put(c.validity, o, false))
  }

  lemma VacatedKeepsChunks(s: TableSchema, chunks: map<int, ChunkRow>, live: map<int, Pos>, r: int)
    requires ChunksInv(s, chunks, live) && r in live
    ensures var p := live[r];
            ChunksInv(s, chunks[p.chunk := WithoutOccupant(chunks[p.chunk], p.offset)], live - {r})
  {
    var p := live[r];
    var chunks', live' := chunks[p.chunk := WithoutOccupant(chunks[p.chunk], p.offset)], live - {r};
    assert Names(s, chunks, p, r) && chunks'.Keys == chunks.Keys;
    forall q | q in live' ensures Names(s, chunks', live'[q], q) {
      assert Names(s, chunks, live[q], q) && live[q] != p;
    }
    forall c, o: nat | c in chunks' && o < s.chunkSize && Bits(chunks'[c].validity)[o]
      ensures chunks'[c].rowids[o] in live' && live'[chunks'[c].rowids[o]] == Pos(c, o)
    {
      assert Pos(c, o) != p && Bits(chunks[c].validity)[o];
    }
  }

  /** `db'` is `db` after its row `r` was deleted; the vectors stay as they are. */
  ghost predicate Removing(s: TableSchema, db: Tables, db': Tables, r: int) {
    && Inv(s, db) && r in db.rowids
    && var p := db.rowids[r];
    && db'.chunks == db.chunks[p.chunk := WithoutOccupant(db.chunks[p.chunk], p.offset)]
    && db'.rowids == db.rowids - {r} && db'.vectors == db.vectors
    && |db'.metadata| == |s.metadata|
    && (forall j | 0 <= j < |s.metadata| :: db'.metadata[j] == ClearValue(db.metadata[j], s.chunkSize, p, r))
    && db'.chunkSeq == db.chunkSeq && db'.rowidSeq == db.rowidSeq
  }

  lemma RemovingKeepsInv(s: TableSchema, db: Tables, db': Tables, r: int)
    requires Removing(s, db, db', r)
    ensures Inv(s, db')
    ensures forall q | q in db'.rowids :: SameContents(s, db, db', q)
  {
    VacatedKeepsChunks(s, db.chunks, db.rowids, r);
    assert db'.chunks.Keys == db.chunks.Keys;
    forall j | 0 <= j < |s.metadata|
      ensures MetaInv(db'.metadata[j], db.chunks.Keys, s.chunkSize, db'.rowids) && db'.metadata[j].kind == s.metadata[j]
      ensures forall q | q in db'.rowids ::
        ReadValue(db'.metadata[j], s.chunkSize, db.rowids[q], q) == ReadValue(db.metadata[j], s.chunkSize, db.rowids[q], q)
    {
      DeleteValue(db.metadata[j], db.chunks.Keys, s.chunkSize, db.rowids, r);
    }
  }

  /** A delete removes exactly one entry, although it leaves the row's bytes behind. */
  lemma RemovingDropsRow(s: TableSchema, db: Tables, db': Tables, r: int)
    requires Removing(s, db, db', r)
    ensures Inv(s, db') && Abs(s, db') == Abs(s, db) - {r}
  {
    RemovingKeepsInv(s, db, db', r);
    SameRows(s, db, db', db'.rowids.Keys);
    var m := Abs(s, db) - {r};
    assert m.Keys == db'.rowids.Keys;
    AbsIs(s, db', m);
  }

  // ----- updating a row -----

  /** The new contents of a row: columns without a new value stay. */
  function UpdatedRow(s: TableSchema, row: Row, vs: seq<Option<Vector>>, ms: seq<Option<SqlValue>>): (r: Row)
    requires |row.vectors| == |vs| && |row.metadata| == |ms| == |s.metadata|
    requires forall j | 0 <= j < |ms| && ms[j].Some? :: Accepts(s.metadata[j], ms[j].value)
    ensures r.partition == row.partition && |r.vectors| == |vs| && |r.metadata| == |ms|
    ensures forall i | 0 <= i < |vs| :: r.vectors[i] == if vs[i].Some? then vs[i].value.bytes else row.vectors[i]
    ensures forall j | 0 <= j < |ms| ::
      r.metadata[j] == if ms[j].Some? then Stored(s.metadata[j], ms[j].value) else row.metadata[j]
  {
    row.(vectors := seq(|vs|, i requires 0 <= i < |vs| => if vs[i].Some? then vs[i].value.bytes else row.vectors[i]),
         metadata := seq(|ms|, j requires 0 <= j < |ms| =>
           if ms[j].Some? then Stored(s.metadata[j], ms[j].value) else row.metadata[j]))
  }

  ghost predicate GoodUpdate(s: TableSchema, vs: seq<Option<Vector>>, ms: seq<Option<SqlValue>>) {
    && |vs| == |s.vectors| && |ms| == |s.metadata|
    && (forall i | 0 <= i < |vs| && vs[i].Some? :: ValidVector(vs[i].value) && Fits(vs[i].value, s.vectors[i]))
    && (forall j | 0 <= j < |ms| && ms[j].Some? :: Accepts(s.metadata[j], ms[j].value))
  }

  /** `db'` is `db` with new values written over some columns of row `r`. */
  ghost predicate Rewriting(s: TableSchema, db: Tables, db': Tables, r: int,
                            vs: seq<Option<Vector>>, ms: seq<Option<SqlValue>>) {
    && Inv(s, db) && r in db.rowids && GoodUpdate(s, vs, ms)
    && db'.chunks == db.chunks && db'.rowids == db.rowids
    && |db'.vectors| == |s.vectors| && |db'.metadata| == |s.metadata|
    && (forall i | 0 <= i < |s.vectors| :: db'.vectors[i] ==
          if vs[i].Some? then WithVector(s, i, db.vectors[i], db.rowids[r], vs[i].value) else db.vectors[i])
    && (forall j | 0 <= j < |s.metadata| :: Some(db'.metadata[j]) ==
          if ms[j].Some? then WriteValue(db.metadata[j], s.chunkSize, db.rowids[r], r, ms[j].value, true)
          else Some(db.metadata[j]))
    && db'.chunkSeq == db.chunkSeq && db'.rowidSeq == db.rowidSeq
  }

  lemma RewritingColumns(s: TableSchema, db: Tables, db': Tables, r: int, vs: seq<Option<Vector>>, ms: seq<Option<SqlValue>>)
    requires Rewriting(s, db, db', r, vs, ms)
    ensures Inv(s, db')
    ensures forall i | 0 <= i < |s.vectors| ::
      VectorOf(s, db', i, db.rowids[r])
        == if vs[i].Some? then vs[i].value.bytes else VectorOf(s, db, i, db.rowids[r])
    ensures forall j | 0 <= j < |s.metadata| ::
      ReadValue(db'.metadata[j], s.chunkSize, db.rowids[r], r)
        == if ms[j].Some? then Some(Stored(s.metadata[j], ms[j].value))
           else ReadValue(db.metadata[j], s.chunkSize, db.rowids[r], r)
    ensures forall q | q in db.rowids && q != r :: SameContents(s, db, db', q)
  {
    var p := db.rowids[r];
    forall i | 0 <= i < |s.vectors|
      ensures VectorsInv(s.vectors[i], db'.vectors[i], db.chunks.Keys, s.chunkSize)
      ensures VectorOf(s, db', i, p) == if vs[i].Some? then vs[i].value.bytes else VectorOf(s, db, i, p)
      ensures forall q | q in db.rowids && q != r :: VectorOf(s, db', i, db.rowids[q]) == VectorOf(s, db, i, db.rowids[q])
    {
      if vs[i].Some? { VectorFrame(s, i, db.vectors[i], db.chunks.Keys, p, vs[i].value); }
    }
    forall j | 0 <= j < |s.metadata|
      ensures MetaInv(db'.metadata[j], db.chunks.Keys, s.chunkSize, db'.rowids) && db'.metadata[j].kind == s.metadata[j]
      ensures ReadValue(db'.metadata[j], s.chunkSize, p, r) ==
        if ms[j].Some? then Some(Stored(s.metadata[j], ms[j].value)) else ReadValue(db.metadata[j], s.chunkSize, p, r)
      ensures forall q | q in db.rowids && q != r ::
        ReadValue(db'.metadata[j], s.chunkSize, db.rowids[q], q) == ReadValue(db.metadata[j], s.chunkSize, db.rowids[q], q)
    {
      if ms[j].Some? { UpdateValue(db.metadata[j], db.chunks.Keys, s.chunkSize, db.rowids, r, ms[j].value); }
    }
  }

  /** An update replaces exactly one entry. */
  lemma RewritingReplacesRow(s: TableSchema, db: Tables, db': Tables, r: int,
                             vs: seq<Option<Vector>>, ms: seq<Option<SqlValue>>)
    requires Rewriting(s, db, db', r, vs, ms)
    ensures Inv(s, db')
    ensures Abs(s, db') == Abs(s, db)[r := UpdatedRow(s, RowAt(s, db, r), vs, ms)]
  {
    RewritingColumns(s, db, db', r, vs, ms);
    SameRows(s, db, db', db.rowids.Keys - {r});
    RowIs(s, db', r, UpdatedRow(s, RowAt(s, db, r), vs, ms));
    AbsIs(s, db', Abs(s, db)[r := UpdatedRow(s, RowAt(s, db, r), vs, ms)]);
  }
}
