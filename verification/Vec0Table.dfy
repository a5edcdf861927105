/** The vec0 virtual table: statements over the shadow tables, each refining one
    step of the plain map. */
module Vec0 {
  import opened Bitmap
  import opened Schema
  import opened VectorSlots
  import opened Metadata
  import opened Store
  import opened MapModel
  import opened Allocator
  import Sets

  class Vec0Table {
    const schema: TableSchema
    var db: Tables
    /** How many inserts ever succeeded, by partition key. */
    ghost var inserted: map<seq<SqlValue>, nat>

    ghost predicate Valid()
      reads this
    {
      Inv(schema, db) && AllocInv(schema, db.chunks, inserted)
    }

    ghost function State(): (st: TableState)
      requires Valid()
      reads this
      ensures RowsFit(schema, st)
    {
      TableState(Abs(schema, db), db.rowidSeq, inserted)
    }

    constructor (schema: TableSchema)
      requires ValidSchema(schema)
      ensures Valid() && this.schema == schema && State() == TableState(map[], 0, map[])
    {
      this.schema := schema;
      db := Tables(map[], map[], seq(|schema.vectors|, _ => map[]),
                   seq(|schema.metadata|, j requires 0 <= j < |schema.metadata| => MetaTable(schema.metadata[j], map[], map[])),
                   0, 0);
      inserted := map[];
    }

    // ----- insert -----

    /** vec0Update_InsertRowidStep: claims the rowid; its position columns are still NULL,
        which read as 0. */
    method InsertRowidStep(id: SqlValue) returns (r: Option<int>)
      modifies this`db
      ensures r == RowidFor(old(db.rowids.Keys), old(db.rowidSeq), id)
      ensures r.None? ==> db == old(db)
      ensures r.Some? ==> db == old(db).(rowids := old(db.rowids)[r.value := Pos(0, 0)],
                                         rowidSeq := Max(r.value, old(db.rowidSeq)))
    {
      if id.Integer? {
        if id.i in db.rowids { return None; }
        r := Some(id.i);
      } else if !id.Null? {
        return None;
      } else {
        if db.rowidSeq >= MAX_ROWID { return None; }
        r := Some(db.rowidSeq + 1);
      }
      db := db.(rowids := db.rowids[r.value := Pos(0, 0)], rowidSeq := Max(r.value, db.rowidSeq));
    }

    /** vec0_get_latest_chunk_rowid: `SELECT max(rowid)` over the chunks of the partition. */
    method LatestChunk(key: seq<SqlValue>) returns (r: Option<int>)
      ensures r.Some? ==> IsLatest(db.chunks, key, r.value)
      ensures r.None? ==> forall c :: c !in ChunksOf(db.chunks, key)
    {
      r := None;
      var todo := db.chunks.Keys;
      while todo != {}
        invariant todo <= db.chunks.Keys
        invariant r.Some? ==> r.value in ChunksOf(db.chunks, key)
        invariant forall c | c in ChunksOf(db.chunks, key) :: c in todo || (r.Some? && c <= r.value)
        decreases todo
      {
        ghost var some := Sets.Pick(todo);
        var c :| c in todo;
        todo := todo - {c};
        if PartitionMatches(db.chunks[c].partition, key) && (r.None? || c > r.value) {
          r := Some(c);
        }
      }
    }

    /** vec0Update_InsertNextAvailableStep: the least clear slot of the newest chunk of the
        partition, or slot 0 of a new chunk when that chunk is full or none exists. */
    method InsertNextAvailableStep(key: seq<SqlValue>) returns (chunk: int, offset: nat)
      requires ValidSchema(schema) && |db.vectors| == |schema.vectors|
      requires forall c | c in db.chunks :: ChunkOk(schema, db.chunks[c]) && c <= db.chunkSeq
      modifies this`db
      ensures NextSlot(schema, old(db), key, db, chunk, offset)
    {
      var latest := LatestChunk(key);
      if latest.Some? {
        chunk := latest.value;
        var o := FirstClear(db.chunks[chunk].validity);
        if o != -1 {
          offset := o;
          return;
        }
      }
      db := WithNewChunk(schema, db, key);
      chunk, offset := db.chunkSeq, 0;
    }

    /** vec0Update_InsertWriteFinalStep: validity bit, vectors, rowid entry, position. */
    method InsertWriteFinalStep(chunk: int, offset: nat, rowid: int, vectors: seq<Vector>)
      requires GoodVectors(schema, vectors) && |db.vectors| == |schema.vectors|
      requires chunk in db.chunks && ChunkOk(schema, db.chunks[chunk]) && offset < schema.chunkSize
      requires forall i | 0 <= i < |schema.vectors| ::
        chunk in db.vectors[i] && IsBlob(db.vectors[i][chunk], schema.vectors[i], schema.chunkSize)
      modifies this`db
      ensures |db.vectors| == |schema.vectors|
      ensures forall i | 0 <= i < |schema.vectors| ::
        db.vectors[i] == WithVector(schema, i, old(db.vectors[i]), Pos(chunk, offset), vectors[i])
      ensures db == old(db).(
        chunks := old(db.chunks)[chunk := WithOccupant(old(db.chunks[chunk]), offset, rowid)],
        vectors := db.vectors,
        rowids := old(db.rowids)[rowid := Pos(chunk, offset)])
    {
      ghost var before := db;
      var row := db.chunks[chunk];
      db := db.(chunks := db.chunks[chunk := row.(validity := Put(row.validity, offset, true))]);
      for i := 0 to |schema.vectors|
        invariant |db.vectors| == |schema.vectors|
        invariant forall q | 0 <= q < i ::
          db.vectors[q] == WithVector(schema, q, before.vectors[q], Pos(chunk, offset), vectors[q])
        invariant forall q | i <= q < |schema.vectors| :: db.vectors[q] == before.vectors[q]
        invariant db == before.(chunks := before.chunks[chunk := row.(validity := Put(row.validity, offset, true))],
                                vectors := db.vectors)
      {
        db := db.(vectors := db.vectors[i := WithVector(schema, i, db.vectors[i], Pos(chunk, offset), vectors[i])]);
      }
      var marked := db.chunks[chunk];
      db := db.(chunks := db.chunks[chunk := marked.(rowids := marked.rowids[offset := rowid])]);
      db := db.(rowids := db.rowids[rowid := Pos(chunk, offset)]);
    }

    /** Step 4 of an insert: the metadata columns in order, stopping at the first error. */
    method WriteMetadata(p: Pos, rowid: int, values: seq<SqlValue>) returns (ok: bool)
      requires |values| == |db.metadata|
      requires p.offset < schema.chunkSize && forall j | 0 <= j < |db.metadata| ::
        p.chunk in db.metadata[j].blobs && HasShape(db.metadata[j].blobs[p.chunk], db.metadata[j].kind, schema.chunkSize)
      modifies this`db
      ensures ok <==> forall j | 0 <= j < |values| ::
        WriteValue(old(db.metadata[j]), schema.chunkSize, p, rowid, values[j], false).Some?
      ensures ok ==> db == old(db).(metadata := db.metadata) && |db.metadata| == |values|
      ensures ok ==> forall j | 0 <= j < |values| ::
        WriteValue(old(db.metadata[j]), schema.chunkSize, p, rowid, values[j], false) == Some(db.metadata[j])
    {
      ghost var before := db;
      for j := 0 to |values|
        invariant db == before.(metadata := db.metadata) && |db.metadata| == |values|
        invariant forall q | 0 <= q < j ::
          WriteValue(before.metadata[q], schema.chunkSize, p, rowid, values[q], false) == Some(db.metadata[q])
        invariant forall q | j <= q < |values| :: db.metadata[q] == before.metadata[q]
      {
        var written := WriteValue(db.metadata[j], schema.chunkSize, p, rowid, values[j], false);
        if written.None? { return false; }
        db := db.(metadata := db.metadata[j := written.value]);
      }
      return true;
    }

    /** The checks in front of an insert: partition types, vectors, hidden columns. */
    method CheckArguments(stmt: Statement) returns (vectors: Option<seq<Vector>>)
      requires stmt.InsertRow? && WellFormed(schema, stmt)
      ensures vectors.Some? <==> ArgumentsOk(schema, stmt)
      ensures vectors.Some? ==> (forall i | 0 <= i < |stmt.vectors| :: stmt.vectors[i].Decoded?)
      ensures vectors.Some? ==> vectors.value == Vectors(stmt.vectors) && GoodVectors(schema, vectors.value)
    {
      for i := 0 to |stmt.partition|
        invariant forall q | 0 <= q < i :: stmt.partition[q].Null? || HasType(stmt.partition[q], schema.partitions[q])
      {
        if !stmt.partition[i].Null? && !HasType(stmt.partition[i], schema.partitions[i]) { return None; }
      }
      var vs := [];
      for i := 0 to |stmt.vectors|
        invariant |vs| == i && forall q | 0 <= q < i ::
          VectorOk(stmt.vectors[q], schema.vectors[q]) && vs[q] == stmt.vectors[q].v
      {
        if !stmt.vectors[i].Decoded? { return None; }
        if !Fits(stmt.vectors[i].v, schema.vectors[i]) { return None; }
        vs := vs + [stmt.vectors[i].v];
      }
      assert vs == Vectors(stmt.vectors);
      if !stmt.distance.Null? || !stmt.k.Null? { return None; }
      return Some(vs);
    }

    /** Steps 3 and 4 of an insert: write the vectors, the rowid and the metadata. */
    method WriteRow(p: Pos, rowid: int, vectors: seq<Vector>, metadata: seq<SqlValue>) returns (ok: bool)
      requires Writable(schema, db, p) && GoodVectors(schema, vectors) && |metadata| == |schema.metadata|
      modifies this`db
      ensures ok <==> forall j | 0 <= j < |metadata| ::
        WriteValue(old(db.metadata[j]), schema.chunkSize, p, rowid, metadata[j], false).Some?
      ensures ok ==> Wrote(schema, old(db), db, rowid, p, vectors, metadata)
    {
      InsertWriteFinalStep(p.chunk, p.offset, rowid, vectors);
      ok := WriteMetadata(p, rowid, metadata);
    }

    /** Steps 2 to 4 of an insert whose rowid is claimed. */
    method FillSlot(rowid: int, key: seq<SqlValue>, vectors: seq<Vector>, metadata: seq<SqlValue>, ghost before: Tables)
      returns (ok: bool, ghost p: Pos, ghost base: Tables)
      requires Inv(schema, before) && rowid !in before.rowids && |key| == |schema.partitions|
      requires db == before.(rowids := before.rowids[rowid := Pos(0, 0)], rowidSeq := Max(rowid, before.rowidSeq))
      requires GoodVectors(schema, vectors) && |metadata| == |schema.metadata|
      modifies this`db
      ensures ok <==> GoodMetadata(schema, metadata)
      ensures Provides(schema, before, key, p, base)
      ensures ok ==> Placing(schema, base, db, rowid, p, vectors, metadata)
      ensures ok ==> db.rowidSeq == Max(rowid, before.rowidSeq)
    {
      ghost var claimed := db;
      var chunk, offset := InsertNextAvailableStep(key);
      p := Pos(chunk, offset);
      base := SlotFound(schema, before, claimed, key, db, p);
      SlotReady(schema, base, p, rowid, metadata);
      ghost var found := db;
      ok := WriteRow(Pos(chunk, offset), rowid, vectors, metadata);
      if ok {
        WrotePlaces(schema, base, found, db, rowid, p, vectors, metadata);
      }
    }

    /** vec0Update_Insert. On failure the tables may be half written. */
    method TryInsert(stmt: Statement) returns (r: Option<int>, ghost p: Pos, ghost base: Tables)
      requires Valid() && stmt.InsertRow? && WellFormed(schema, stmt)
      modifies this`db
      ensures r.Some? <==> InsertAccepted(schema, old(State()), stmt)
      ensures r.Some? ==> r == RowidFor(old(db.rowids.Keys), old(db.rowidSeq), stmt.id)
      ensures r.Some? ==> Provides(schema, old(db), stmt.partition, p, base)
      ensures r.Some? ==> (forall i | 0 <= i < |stmt.vectors| :: stmt.vectors[i].Decoded?)
      ensures r.Some? ==> Placing(schema, base, db, r.value, p, Vectors(stmt.vectors), stmt.metadata)
      ensures r.Some? ==> db.rowidSeq == Max(r.value, old(db.rowidSeq))
    {
      p, base := Pos(0, 0), db;
      var vectors := CheckArguments(stmt);
      if vectors.None? { return None, p, base; }
      ghost var before := db;
      r := InsertRowidStep(stmt.id);
      if r.None? { return; }
      var ok: bool;
      ok, p, base := FillSlot(r.value, stmt.partition, vectors.value, stmt.metadata, before);
      if !ok { r := None; }
    }

    /** An INSERT statement: SQLite rolls a failed statement back. */
    method Insert(stmt: Statement) returns (r: Option<int>)
      requires Valid() && stmt.InsertRow? && WellFormed(schema, stmt)
      modifies this
      ensures Valid()
      ensures (State(), r) == Apply(schema, old(State()), stmt)
      ensures r.None? ==> db == old(db)
    {
      var saved := db;
      ghost var p: Pos, base: Tables;
      r, p, base := TryInsert(stmt);
      if r.None? {
        db := saved;
        return;
      }
      InsertAllocates(schema, saved, base, db, inserted, stmt.partition, r.value, p);
      inserted := Bump(inserted, stmt.partition);
      PlacingAddsRow(schema, base, db, r.value, p, Vectors(stmt.vectors), stmt.metadata);
    }

    // ----- delete -----

    /** vec0Update_Delete_ClearValidity. The test in front looks at this bit and all
        higher bits of the byte. */
    method ClearValidity(chunk: int, offset: nat) returns (ok: bool)
      requires chunk in db.chunks && offset < CHAR_BIT * |db.chunks[chunk].validity|
      modifies this`db
      ensures ok <==> exists i: nat ::
        offset % CHAR_BIT <= i < CHAR_BIT && BitOf(old(db.chunks[chunk].validity)[offset / CHAR_BIT], i)
      ensures db == if ok
        then old(db).(chunks := old(db.chunks)[chunk := WithoutOccupant(old(db.chunks[chunk]), offset)])
        else old(db)
    {
      var row := db.chunks[chunk];
      var bx := row.validity[offset / CHAR_BIT];
      ShiftNonZero(bx, offset % CHAR_BIT);
      ok := bx >> (offset % CHAR_BIT) != 0;
      if ok {
        db := db.(chunks := db.chunks[chunk := WithoutOccupant(row, offset)]);
      }
    }

    /** vec0Update_Delete. */
    method TryDelete(rowid: int) returns (ok: bool)
      requires Valid()
      modifies this`db
      ensures ok <==> rowid in old(db.rowids)
      ensures ok ==> Removing(schema, old(db), db, rowid)
    {
      if rowid !in db.rowids { return false; }
      ghost var before := db;
      var p := db.rowids[rowid];
      LiveSlot(schema, db, rowid);
      ok := ClearValidity(p.chunk, p.offset);
      db := db.(rowids := db.rowids - {rowid});
      for j := 0 to |db.metadata|
        invariant ok && |db.metadata| == |schema.metadata|
        invariant db == before.(chunks := before.chunks[p.chunk := WithoutOccupant(before.chunks[p.chunk], p.offset)],
                                rowids := before.rowids - {rowid}, metadata := db.metadata)
        invariant forall q | 0 <= q < j ::
          db.metadata[q] == ClearValue(before.metadata[q], schema.chunkSize, p, rowid)
        invariant forall q | j <= q < |db.metadata| :: db.metadata[q] == before.metadata[q]
      {
        db := db.(metadata := db.metadata[j := ClearValue(db.metadata[j], schema.chunkSize, p, rowid)]);
      }
    }

    method Delete(stmt: Statement) returns (r: Option<int>)
      requires Valid() && stmt.DeleteRow?
      modifies this
      ensures Valid()
      ensures (State(), r) == Apply(schema, old(State()), stmt)
      ensures r.None? ==> db == old(db)
    {
      var saved := db;
      var ok := TryDelete(stmt.rowid);
      if !ok {
        db := saved;
        return None;
      }
      RemovingDropsRow(schema, saved, db, stmt.rowid);
      ghost var p := saved.rowids[stmt.rowid];
      DeleteKeepsAlloc(schema, saved.chunks, inserted, p.chunk, p.offset);
      return Some(stmt.rowid);
    }

    // ----- update -----

    method UpdateMetadata(p: Pos, rowid: int, changes: seq<Option<SqlValue>>) returns (ok: bool)
      requires Writable(schema, db, p) && |changes| == |schema.metadata|
      modifies this`db
      ensures ok <==> forall j | 0 <= j < |changes| && changes[j].Some? ::
        WriteValue(old(db.metadata[j]), schema.chunkSize, p, rowid, changes[j].value, true).Some?
      ensures ok ==> db == old(db).(metadata := db.metadata) && |db.metadata| == |changes|
      ensures ok ==> forall j | 0 <= j < |changes| ::
        Some(db.metadata[j]) == Changed(old(db.metadata[j]), schema.chunkSize, p, rowid, changes[j])
    {
      ghost var before := db;
      for j := 0 to |changes|
        invariant db == before.(metadata := db.metadata) && |db.metadata| == |changes|
        invariant forall q | 0 <= q < j ::
          Some(db.metadata[q]) == Changed(before.metadata[q], schema.chunkSize, p, rowid, changes[q])
        invariant forall q | j <= q < |changes| :: db.metadata[q] == before.metadata[q]
      {
        if changes[j].None? { continue; }
        var written := WriteValue(db.metadata[j], schema.chunkSize, p, rowid, changes[j].value, true);
        if written.None? { return false; }
        db := db.(metadata := db.metadata[j := written.value]);
      }
      return true;
    }

    method UpdateVectors(p: Pos, vectors: seq<VectorArg>) returns (ok: bool)
      requires |vectors| == |schema.vectors| == |db.vectors| && p.offset < schema.chunkSize
      requires forall i | 0 <= i < |schema.vectors| ::
        p.chunk in db.vectors[i] && IsBlob(db.vectors[i][p.chunk], schema.vectors[i], schema.chunkSize)
      requires forall i | 0 <= i < |vectors| && vectors[i].Decoded? :: ValidVector(vectors[i].v)
      modifies this`db
      ensures ok <==> forall i | 0 <= i < |vectors| :: vectors[i].NullVector? || VectorOk(vectors[i], schema.vectors[i])
      ensures ok ==> db == old(db).(vectors := db.vectors) && |db.vectors| == |vectors|
      ensures ok ==> forall i | 0 <= i < |vectors| ::
        db.vectors[i]
          == if vectors[i].Decoded? then WithVector(schema, i, old(db.vectors[i]), p, vectors[i].v) else old(db.vectors[i])
    {
      ghost var before := db;
      for i := 0 to |vectors|
        invariant db == before.(vectors := db.vectors) && |db.vectors| == |vectors|
        invariant forall q | 0 <= q < i :: vectors[q].NullVector? || VectorOk(vectors[q], schema.vectors[q])
        invariant forall q | 0 <= q < i ::
          db.vectors[q]
            == if vectors[q].Decoded? then WithVector(schema, q, before.vectors[q], p, vectors[q].v) else before.vectors[q]
        invariant forall q | i <= q < |vectors| :: db.vectors[q] == before.vectors[q]
      {
        if vectors[i].NullVector? { continue; }
        if vectors[i].Malformed? || !Fits(vectors[i].v, schema.vectors[i]) { return false; }
        db := db.(vectors := db.vectors[i := WithVector(schema, i, db.vectors[i], p, vectors[i].v)]);
      }
      return true;
    }

    /** vec0Update_Update. */
    method TryUpdate(stmt: Statement) returns (ok: bool)
      requires Valid() && stmt.UpdateRow? && WellFormed(schema, stmt)
      modifies this`db
      ensures ok <==> UpdateAccepted(schema, old(State()), stmt)
      ensures ok ==> Rewriting(schema, old(db), db, stmt.rowid, NewVectors(stmt.vectors), stmt.changes)
    {
      if stmt.rowid !in db.rowids { return false; }
      var p := db.rowids[stmt.rowid];
      for i := 0 to |stmt.partitionChanged|
        invariant forall q | 0 <= q < i :: !stmt.partitionChanged[q]
      {
        if stmt.partitionChanged[i] { return false; }
      }
      LiveSlot(schema, db, stmt.rowid);
      LiveChanges(schema, db, stmt.rowid, stmt.changes);
      ok := UpdateMetadata(p, stmt.rowid, stmt.changes);
      if !ok { return; }
      ok := UpdateVectors(p, stmt.vectors);
    }

    method Update(stmt: Statement) returns (r: Option<int>)
      requires Valid() && stmt.UpdateRow? && WellFormed(schema, stmt)
      modifies this
      ensures Valid()
      ensures (State(), r) == Apply(schema, old(State()), stmt)
      ensures r.None? ==> db == old(db)
    {
      var saved := db;
      var ok := TryUpdate(stmt);
      if !ok {
        db := saved;
        return None;
      }
      RewritingReplacesRow(schema, saved, db, stmt.rowid, NewVectors(stmt.vectors), stmt.changes);
      return Some(stmt.rowid);
    }

    // ----- runs -----

    /** vec0Update: dispatch on the kind of statement. */
    method Execute(stmt: Statement) returns (r: Option<int>)
      requires Valid() && WellFormed(schema, stmt)
      modifies this
      ensures Valid()
      ensures (State(), r) == Apply(schema, old(State()), stmt)
      ensures r.None? ==> db == old(db)
    {
      match stmt
      case InsertRow(_, _, _, _, _, _) => r := Insert(stmt);
      case DeleteRow(_) => r := Delete(stmt);
      case UpdateRow(_, _, _, _, _) => r := Update(stmt);
    }

    /** After any sequence of statements the tables stand for the map that the same
        sequence produces on its own. */
    method ExecuteAll(stmts: seq<Statement>) returns (rs: seq<Option<int>>)
      requires Valid() && forall i | 0 <= i < |stmts| :: WellFormed(schema, stmts[i])
      modifies this
      ensures Valid()
      ensures (State(), rs) == Run(schema, old(State()), stmts)
    {
      rs := [];
      ghost var start := State();
      for i := 0 to |stmts|
        invariant Valid() && (State(), rs) == Run(schema, start, stmts[..i])
      {
        RunNext(schema, start, stmts, i);
        var r := Execute(stmts[i]);
        rs := rs + [r];
      }
      assert stmts[..|stmts|] == stmts;
    }
  }

  function Changed(t: MetaTable, size: nat, p: Pos, rowid: int, change: Option<SqlValue>): Option<MetaTable>
    requires p.chunk in t.blobs && HasShape(t.blobs[p.chunk], t.kind, size) && p.offset < size
  {
    if change.Some? then WriteValue(t, size, p, rowid, change.value, true) else Some(t)
  }

  /** A live row's slot is marked and its blobs have the right sizes. */
  lemma LiveSlot(s: TableSchema, db: Tables, rowid: int)
    requires Inv(s, db) && rowid in db.rowids
    ensures Writable(s, db, db.rowids[rowid])
    ensures var p := db.rowids[rowid];
            BitOf(db.chunks[p.chunk].validity[p.offset / CHAR_BIT], p.offset % CHAR_BIT)
  {
    var p := db.rowids[rowid];
    assert Names(s, db.chunks, p, rowid);
    assert Bits(db.chunks[p.chunk].validity)[p.offset];
  }

  lemma LiveChanges(s: TableSchema, db: Tables, rowid: int, changes: seq<Option<SqlValue>>)
    requires Inv(s, db) && rowid in db.rowids && |changes| == |s.metadata| && Writable(s, db, db.rowids[rowid])
    ensures forall j | 0 <= j < |changes| && changes[j].Some? ::
      WriteValue(db.metadata[j], s.chunkSize, db.rowids[rowid], rowid, changes[j].value, true).Some?
      <==> Accepts(s.metadata[j], changes[j].value)
  {
    forall j | 0 <= j < |changes| && changes[j].Some?
      ensures WriteValue(db.metadata[j], s.chunkSize, db.rowids[rowid], rowid, changes[j].value, true).Some?
        <==> Accepts(s.metadata[j], changes[j].value)
    {
      UpdateValue(db.metadata[j], db.chunks.Keys, s.chunkSize, db.rowids, rowid, changes[j].value);
    }
  }

  /** The slot is the first one of a new chunk. */
  lemma NewSlot(s: TableSchema, before: Tables, base: Tables, key: seq<SqlValue>, r: int, p: Pos)
    requires Inv(s, before) && |key| == |s.partitions| && NextSlot(s, before, key, base, p.chunk, p.offset)
    requires !(exists c :: IsLatest(before.chunks, key, c) && !Full(before.chunks[c]))
    ensures p.chunk == before.chunkSeq + 1 && p.offset == 0
    ensures base.chunks == before.chunks[p.chunk := BlankChunk(s, key)]
  {
  }

  lemma InsertAllocates(s: TableSchema, before: Tables, base: Tables, db: Tables, inserted: map<seq<SqlValue>, nat>,
                        key: seq<SqlValue>, r: int, p: Pos)
    requires Inv(s, before) && |key| == |s.partitions| && AllocInv(s, before.chunks, inserted)
    requires NextSlot(s, before, key, base, p.chunk, p.offset) && p.chunk in base.chunks
    requires ChunkOk(s, base.chunks[p.chunk]) && p.offset < s.chunkSize
    requires db.chunks == base.chunks[p.chunk := WithOccupant(base.chunks[p.chunk], p.offset, r)]
    ensures forall c | c in db.chunks :: ChunkOk(s, db.chunks[c])
    ensures AllocInv(s, db.chunks, Bump(inserted, key))
  {
    if exists c :: IsLatest(before.chunks, key, c) && !Full(before.chunks[c]) {
      InsertKeepsAlloc(s, before.chunks, inserted, key, p.chunk, p.offset, r);
    } else {
      NewSlot(s, before, base, key, r, p);
      NewChunkKeepsAlloc(s, before.chunks, inserted, key, p.chunk, r);
      assert db.chunks == before.chunks[p.chunk := WithOccupant(BlankChunk(s, key), 0, r)];
    }
  }

  predicate ArgumentsOk(s: TableSchema, stmt: Statement)
    requires stmt.InsertRow? && |stmt.partition| == |s.partitions| && |stmt.vectors| == |s.vectors|
  {
    && PartitionOk(s, stmt.partition)
    && (forall i | 0 <= i < |stmt.vectors| :: VectorOk(stmt.vectors[i], s.vectors[i]))
    && stmt.distance.Null? && stmt.k.Null?
  }

  /** The outcome of the search for a slot. */
  ghost predicate NextSlot(s: TableSchema, db: Tables, key: seq<SqlValue>, db': Tables, chunk: int, offset: nat)
    requires ValidSchema(s) && |db.vectors| == |s.vectors|
    requires forall c | c in db.chunks :: ChunkOk(s, db.chunks[c])
  {
    if exists c :: IsLatest(db.chunks, key, c) && !Full(db.chunks[c]) then
      && db' == db && IsLatest(db.chunks, key, chunk)
      && ChunkOk(s, db.chunks[chunk]) && offset < s.chunkSize
      && !Bits(db.chunks[chunk].validity)[offset]
      && forall o | 0 <= o < offset :: Bits(db.chunks[chunk].validity)[o]
    else
      db' == WithNewChunk(s, db, key) && chunk == db.chunkSeq + 1 && offset == 0
  }

  /** `base` is `before` with a free slot `p` provided for the partition: unchanged when
      the newest chunk has room, with a new chunk otherwise. No row is affected. */
  ghost predicate Provides(s: TableSchema, before: Tables, key: seq<SqlValue>, p: Pos, base: Tables)
    requires Inv(s, before)
  {
    && NextSlot(s, before, key, base, p.chunk, p.offset)
    && Inv(s, base) && Abs(s, base) == Abs(s, before) && base.rowids == before.rowids && base.rowidSeq == before.rowidSeq
    && InRange(p, base.chunks.Keys, s.chunkSize) && !Bits(base.chunks[p.chunk].validity)[p.offset]
    && base.chunks[p.chunk].partition == key
  }

  /** The blobs around a slot have the sizes the writers expect. */
  ghost predicate Writable(s: TableSchema, db: Tables, p: Pos) {
    && p.offset < s.chunkSize && p.chunk in db.chunks && ChunkOk(s, db.chunks[p.chunk])
    && |db.vectors| == |s.vectors| && |db.metadata| == |s.metadata|
    && (forall i | 0 <= i < |s.vectors| ::
          p.chunk in db.vectors[i] && IsBlob(db.vectors[i][p.chunk], s.vectors[i], s.chunkSize))
    && (forall j | 0 <= j < |s.metadata| ::
          p.chunk in db.metadata[j].blobs && HasShape(db.metadata[j].blobs[p.chunk], db.metadata[j].kind, s.chunkSize))
  }

  /** What writing a row changes. */
  ghost predicate Wrote(s: TableSchema, db: Tables, db': Tables, r: int, p: Pos, vs: seq<Vector>, ms: seq<SqlValue>)
    requires Writable(s, db, p) && GoodVectors(s, vs) && |ms| == |s.metadata|
  {
    && db'.chunks == db.chunks[p.chunk := WithOccupant(db.chunks[p.chunk], p.offset, r)]
    && db'.rowids == db.rowids[r := p]
    && |db'.vectors| == |s.vectors| && |db'.metadata| == |s.metadata|
    && (forall i | 0 <= i < |s.vectors| :: db'.vectors[i] == WithVector(s, i, db.vectors[i], p, vs[i]))
    && (forall j | 0 <= j < |s.metadata| ::
          WriteValue(db.metadata[j], s.chunkSize, p, r, ms[j], false) == Some(db'.metadata[j]))
    && db'.chunkSeq == db.chunkSeq && db'.rowidSeq == db.rowidSeq
  }

  /** A free slot can take any row whose values are acceptable. */
  lemma SlotReady(s: TableSchema, base: Tables, p: Pos, rowid: int, metadata: seq<SqlValue>)
    requires Inv(s, base) && InRange(p, base.chunks.Keys, s.chunkSize) && !Bits(base.chunks[p.chunk].validity)[p.offset]
    requires rowid !in base.rowids && |metadata| == |s.metadata|
    ensures Writable(s, base, p)
    ensures forall j | 0 <= j < |s.metadata| ::
      WriteValue(base.metadata[j], s.chunkSize, p, rowid, metadata[j], false).Some? <==> Accepts(s.metadata[j], metadata[j])
  {
    OccupantKeepsChunks(s, base.chunks, base.rowids, p, rowid);
    forall j | 0 <= j < |s.metadata|
      ensures p.chunk in base.metadata[j].blobs
        && HasShape(base.metadata[j].blobs[p.chunk], base.metadata[j].kind, s.chunkSize)
      ensures WriteValue(base.metadata[j], s.chunkSize, p, rowid, metadata[j], false).Some?
        <==> Accepts(s.metadata[j], metadata[j])
    {
      InsertValue(base.metadata[j], base.chunks.Keys, s.chunkSize, base.rowids, p, rowid, metadata[j]);
    }
  }

  lemma WrotePlaces(s: TableSchema, base: Tables, found: Tables, db: Tables, r: int, p: Pos,
                    vs: seq<Vector>, ms: seq<SqlValue>)
    requires Inv(s, base) && InRange(p, base.chunks.Keys, s.chunkSize) && !Bits(base.chunks[p.chunk].validity)[p.offset]
    requires r !in base.rowids && Writable(s, base, p)
    requires found == base.(rowids := base.rowids[r := Pos(0, 0)], rowidSeq := Max(r, base.rowidSeq))
    requires GoodVectors(s, vs) && |ms| == |s.metadata| && Wrote(s, found, db, r, p, vs, ms)
    requires forall j | 0 <= j < |s.metadata| ::
      WriteValue(base.metadata[j], s.chunkSize, p, r, ms[j], false).Some? <==> Accepts(s.metadata[j], ms[j])
    ensures Placing(s, base, db, r, p, vs, ms)
  {
    assert db.rowids == base.rowids[r := p];
  }

  /** Only chunks and chunk numbers matter to the search for a slot. */
  lemma ClaimKeepsSlot(s: TableSchema, before: Tables, claimed: Tables, key: seq<SqlValue>, found: Tables, p: Pos)
    requires Inv(s, before) && |key| == |s.partitions|
    requires claimed == before.(rowids := claimed.rowids, rowidSeq := claimed.rowidSeq)
    requires NextSlot(s, claimed, key, found, p.chunk, p.offset)
    ensures var base := found.(rowids := before.rowids, rowidSeq := before.rowidSeq);
            && NextSlot(s, before, key, base, p.chunk, p.offset)
            && (base == before || base == WithNewChunk(s, before, key))
  {
    ClaimedNewChunk(s, before, claimed, key);
  }

  /** Claiming the rowid first and finding the slot afterwards is the same as
      finding the slot in the old state. */
  lemma SlotFound(s: TableSchema, before: Tables, claimed: Tables, key: seq<SqlValue>, found: Tables, p: Pos)
    returns (base: Tables)
    requires Inv(s, before) && |key| == |s.partitions|
    requires claimed == before.(rowids := claimed.rowids, rowidSeq := claimed.rowidSeq)
    requires NextSlot(s, claimed, key, found, p.chunk, p.offset)
    ensures Provides(s, before, key, p, base)
    ensures found == base.(rowids := claimed.rowids, rowidSeq := claimed.rowidSeq)
  {
    base := found.(rowids := before.rowids, rowidSeq := before.rowidSeq);
    ClaimKeepsSlot(s, before, claimed, key, found, p);
    NewChunkKeepsRows(s, before, key);
    assert found.rowids == claimed.rowids && found.rowidSeq == claimed.rowidSeq;
  }

  lemma ClaimedNewChunk(s: TableSchema, before: Tables, claimed: Tables, key: seq<SqlValue>)
    requires s.chunkSize % 8 == 0 && |before.vectors| == |s.vectors|
    requires claimed == before.(rowids := claimed.rowids, rowidSeq := claimed.rowidSeq)
    ensures WithNewChunk(s, claimed, key)
      == WithNewChunk(s, before, key).(rowids := claimed.rowids, rowidSeq := claimed.rowidSeq)
  {
  }
}
