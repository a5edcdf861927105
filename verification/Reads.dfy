/** Point reads and full scans. */
module Reads {
  import opened Schema
  import opened VectorSlots
  import opened Metadata
  import opened Store
  import Sets

  method ReadVectors(s: TableSchema, db: Tables, p: Pos) returns (vectors: seq<seq<bv8>>)
    requires |db.vectors| == |s.vectors| && p.offset < s.chunkSize
    requires forall i | 0 <= i < |s.vectors| ::
      p.chunk in db.vectors[i] && IsBlob(db.vectors[i][p.chunk], s.vectors[i], s.chunkSize)
    ensures |vectors| == |s.vectors| && forall i | 0 <= i < |s.vectors| :: vectors[i] == VectorOf(s, db, i, p)
  {
    vectors := [];
    for i := 0 to |s.vectors|
      invariant |vectors| == i && forall q | 0 <= q < i :: vectors[q] == VectorOf(s, db, q, p)
    {
      vectors := vectors + [VectorOf(s, db, i, p)];
    }
  }

  method ReadMetadata(s: TableSchema, db: Tables, p: Pos, rowid: int) returns (values: seq<SqlValue>)
    requires |db.metadata| == |s.metadata| && p.offset < s.chunkSize
    requires forall j | 0 <= j < |s.metadata| ::
      p.chunk in db.metadata[j].blobs && HasShape(db.metadata[j].blobs[p.chunk], db.metadata[j].kind, s.chunkSize)
    requires forall j | 0 <= j < |s.metadata| :: ReadValue(db.metadata[j], s.chunkSize, p, rowid).Some?
    ensures |values| == |s.metadata|
    ensures forall j | 0 <= j < |s.metadata| :: Some(values[j]) == ReadValue(db.metadata[j], s.chunkSize, p, rowid)
  {
    values := [];
    for j := 0 to |s.metadata|
      invariant |values| == j
      invariant forall q | 0 <= q < j :: Some(values[q]) == ReadValue(db.metadata[q], s.chunkSize, p, rowid)
    {
      values := values + [ReadValue(db.metadata[j], s.chunkSize, p, rowid).value];
    }
  }

  lemma LiveRowReadable(s: TableSchema, db: Tables, rowid: int)
    requires Inv(s, db) && rowid in db.rowids
    ensures var p := db.rowids[rowid];
            && p.offset < s.chunkSize
            && (forall i | 0 <= i < |s.vectors| ::
                  p.chunk in db.vectors[i] && IsBlob(db.vectors[i][p.chunk], s.vectors[i], s.chunkSize))
            && (forall j | 0 <= j < |s.metadata| ::
                  p.chunk in db.metadata[j].blobs
                  && HasShape(db.metadata[j].blobs[p.chunk], db.metadata[j].kind, s.chunkSize)
                  && ReadValue(db.metadata[j], s.chunkSize, p, rowid).Some?)
  {
    forall j | 0 <= j < |s.metadata| ensures Consistent(db.metadata[j], s.chunkSize, db.rowids[rowid], rowid) { }
  }

  /** vec0Filter_point and vec0Column_point: every column of one row; None when there is
      no such row. */
  method PointRead(s: TableSchema, db: Tables, rowid: int) returns (row: Option<Row>)
    requires Inv(s, db)
    ensures row == if rowid in Abs(s, db) then Some(Abs(s, db)[rowid]) else None
  {
    if rowid !in db.rowids { return None; }
    var p := db.rowids[rowid];
    LiveRowReadable(s, db, rowid);
    var vectors := ReadVectors(s, db, p);
    var metadata := ReadMetadata(s, db, p, rowid);
    var found := Row(db.chunks[p.chunk].partition, vectors, metadata);
    RowIs(s, db, rowid, found);
    return Some(found);
  }

  /** The order of `ORDER BY chunk_id, chunk_offset`. */
  predicate PosBefore(p: Pos, q: Pos) {
    p.chunk < q.chunk || (p.chunk == q.chunk && p.offset < q.offset)
  }

  /** What the rowid statement of a full scan yields. */
  ghost predicate IsScanOrder(live: map<int, Pos>, order: seq<int>) {
    && (forall i | 0 <= i < |order| :: order[i] in live)
    && (forall r | r in live :: r in order)
    && forall i, j | 0 <= i < j < |order| :: PosBefore(live[order[i]], live[order[j]])
  }

  lemma PrependFirst(live: map<int, Pos>, r: int, others: map<int, Pos>, rest: seq<int>)
    requires r in live && others == (map q | q in live && q != r :: live[q]) && IsScanOrder(others, rest)
    requires forall q | q in live && q != r :: PosBefore(live[r], live[q])
    ensures IsScanOrder(live, [r] + rest)
  {
    var order := [r] + rest;
    forall q | q in live ensures q in order { assert q == r || q in others; }
    forall i | 0 < i < |order| ensures order[i] in others { assert order[i] == rest[i - 1]; }
    forall i, j | 0 <= i < j < |order| ensures PosBefore(live[order[i]], live[order[j]]) {
      assert order[j] in others;
      if i > 0 { assert PosBefore(others[rest[i - 1]], others[rest[j - 1]]); }
    }
  }

  /** Rows in distinct places have a scan order. */
  lemma ScanOrderExists(live: map<int, Pos>) returns (order: seq<int>)
    requires forall r, q | r in live && q in live && live[r] == live[q] :: r == q
    ensures IsScanOrder(live, order)
    decreases |live|
  {
    if live.Keys == {} {
      order := [];
    } else {
      var r := FirstRow(live, live.Keys);
      var others := map q | q in live && q != r :: live[q];
      assert others.Keys == live.Keys - {r};
      var rest := ScanOrderExists(others);
      PrependFirst(live, r, others, rest);
      order := [r] + rest;
    }
  }

  lemma FirstRow(live: map<int, Pos>, rs: set<int>) returns (r: int)
    requires rs != {} && rs <= live.Keys
    requires forall r, q | r in live && q in live && live[r] == live[q] :: r == q
    ensures r in rs && forall q | q in rs && q != r :: PosBefore(live[r], live[q])
  {
    r := Sets.Pick(rs);
    if rs - {r} == {} {
      assert rs == {r};
    } else {
      var z := FirstRow(live, rs - {r});
      forall q | q in rs && q != r && q != z ensures PosBefore(live[z], live[q]) { assert q in rs - {r}; }
      if PosBefore(live[z], live[r]) {
        r := z;
      }
    }
  }

  /** vec0Filter_fullscan: the rows of the map in scan order. */
  method FullScan(s: TableSchema, db: Tables, order: seq<int>) returns (rows: seq<(int, Row)>)
    requires Inv(s, db) && IsScanOrder(db.rowids, order)
    ensures |rows| == |order|
    ensures forall i | 0 <= i < |rows| ::
      rows[i].0 == order[i] && order[i] in Abs(s, db) && rows[i].1 == Abs(s, db)[order[i]]
  {
    rows := [];
    ghost var all := Abs(s, db);
    for i := 0 to |order|
      invariant |rows| == i && forall j | 0 <= j < i :: rows[j].0 == order[j] && rows[j].1 == all[order[j]]
    {
      var row := PointRead(s, db, order[i]);
      rows := rows + [(order[i], row.value)];
    }
  }

  /** A scan order names every row once and nothing else, the older chunk first, and in a chunk the
      lower offset. */
  lemma ScanOrderOnce(live: map<int, Pos>, order: seq<int>)
    requires IsScanOrder(live, order)
    ensures |order| == |live|
    ensures forall i, j | 0 <= i < j < |order| :: order[i] != order[j]
    ensures forall r :: r in live <==> exists i :: 0 <= i < |order| && order[i] == r
    ensures forall i, j | 0 <= i < j < |order| ::
      var p, q := live[order[i]], live[order[j]];
      p.chunk < q.chunk || (p.chunk == q.chunk && p.offset < q.offset)
  {
    Sets.CardSeq(order);
    var keys := set x | x in order;
    forall r ensures r in keys <==> r in live { }
    assert keys == live.Keys;
  }
}
