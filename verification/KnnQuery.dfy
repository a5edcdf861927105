/** The KNN query over the shadow tables: the candidates of each chunk and the scan that
    keeps the k best. */
module KnnQuery {
  import opened Bitmap
  import opened Schema
  import opened VectorSlots
  import opened Metadata
  import opened Store
  import opened Filters
  import opened Operands
  import opened TopK
  import RowidIn

  const K_MAX := 4096

  datatype PartitionFilter = PartitionFilter(column: nat, op: Op, value: SqlValue)
  datatype MetadataFilter = MetadataFilter(column: nat, op: Op, rhs: Rhs)

  /** The constraints of a query: the vector column, k, `rowid in`, and the filters. */
  datatype Query = Query(
    column: nat,
    k: int,
    rowids: Option<seq<Operand>>,
    partitions: seq<PartitionFilter>,
    filters: seq<MetadataFilter>)

  predicate FilterOk(s: TableSchema, f: MetadataFilter) {
    f.column < |s.metadata| && Supported(s.metadata[f.column], f.op, f.rhs)
  }

  /** The right-hand side as the column's code compares with it. */
  function Arg(s: TableSchema, f: MetadataFilter): (arg: Target)
    requires FilterOk(s, f)
    ensures Admissible(s.metadata[f.column], f.op, arg)
  {
    SupportedIsAdmissible(s.metadata[f.column], f.op, f.rhs);
    Convert(s.metadata[f.column], f.rhs)
  }

  ghost predicate QueryOk(s: TableSchema, q: Query) {
    && q.column < |s.vectors|
    && (forall i | 0 <= i < |q.partitions| :: q.partitions[i].column < |s.partitions|)
    && (forall i | 0 <= i < |q.filters| :: FilterOk(s, q.filters[i]))
  }

  // ----- partition constraints -----

  predicate PartitionHolds(f: PartitionFilter, partition: seq<SqlValue>) {
    f.column < |partition| && SqlTrue(f.op, partition[f.column], f.value)
  }

  predicate PartitionsHold(q: Query, partition: seq<SqlValue>) {
    forall i | 0 <= i < |q.partitions| :: PartitionHolds(q.partitions[i], partition)
  }

  /** The result of `select chunk_id ... where partitionNN op ?`: the chunks that pass,
      each once, in whatever order SQLite visits them. */
  ghost predicate IsVisit(db: Tables, q: Query, visit: seq<int>) {
    && (forall c :: c in visit <==> c in db.chunks && PartitionsHold(q, db.chunks[c].partition))
    && (forall i, j | 0 <= i < j < |visit| :: visit[i] != visit[j])
  }

  // ----- the filters, row by row -----

  function SideOf(t: MetaTable, rowid: int): Option<seq<Byte>> {
    if rowid in t.texts then Some(t.texts[rowid]) else None
  }

  predicate RowidOk(q: Query, rowid: int) {
    q.rowids.None? || RowidIn.Listed(Ints(q.rowids.value), rowid)
  }

  predicate FilterHolds(f: MetadataFilter, row: Row)
    requires f.column < |row.metadata|
  {
    SqlHolds(f.op, f.rhs, row.metadata[f.column])
  }

  /** A row of the map as SQL judges it. */
  ghost predicate SqlMatches(q: Query, rowid: int, row: Row)
    requires forall i | 0 <= i < |q.filters| :: q.filters[i].column < |row.metadata|
  {
    && PartitionsHold(q, row.partition) && (q.rowids.None? || SqlIn(Integer(rowid), q.rowids.value))
    && forall i | 0 <= i < |q.filters| :: FilterHolds(q.filters[i], row)
  }

  /** A row of the map as the query's code judges it. */
  ghost predicate RowMatches(s: TableSchema, q: Query, rowid: int, row: Row)
    requires QueryOk(s, q) && |row.metadata| == |s.metadata|
    requires forall j | 0 <= j < |s.metadata| :: Accepts(s.metadata[j], row.metadata[j])
  {
    && PartitionsHold(q, row.partition) && RowidOk(q, rowid)
    && forall i | 0 <= i < |q.filters| :: FilterResult(s, q.filters[i], row) == Some(true)
  }

  ghost function FilterResult(s: TableSchema, f: MetadataFilter, row: Row): Option<bool>
    requires FilterOk(s, f) && |row.metadata| == |s.metadata| && Accepts(s.metadata[f.column], row.metadata[f.column])
  {
    var v := row.metadata[f.column];
    CellMatches(f.op, Arg(s, f), CellFor(s.metadata[f.column], v), SideRow(v))
  }

  /** A row that makes the whole query fail. */
  ghost predicate RowFails(s: TableSchema, q: Query, row: Row)
    requires QueryOk(s, q) && |row.metadata| == |s.metadata|
  {
    PartitionsHold(q, row.partition)
    && exists i :: 0 <= i < |q.filters| && Unreadable(q.filters[i].op, row.metadata[q.filters[i].column])
  }

  // ----- the filters, slot by slot -----

  ghost function SlotResult(s: TableSchema, db: Tables, f: MetadataFilter, c: int, o: nat): Option<bool>
    requires Inv(s, db) && FilterOk(s, f) && c in db.chunks && o < s.chunkSize
  {
    CellMatches(f.op, Arg(s, f), CellAt(db.metadata[f.column], s.chunkSize, Pos(c, o)),
                SideOf(db.metadata[f.column], db.chunks[c].rowids[o]))
  }

  ghost predicate SlotMatches(s: TableSchema, db: Tables, q: Query, c: int, o: nat)
    requires Inv(s, db) && QueryOk(s, q) && c in db.chunks && o < s.chunkSize
  {
    && Bits(db.chunks[c].validity)[o] && RowidOk(q, db.chunks[c].rowids[o])
    && forall i | 0 <= i < |q.filters| :: SlotResult(s, db, q.filters[i], c, o) == Some(true)
  }

  /** One filter can be decided in every slot of a chunk. */
  ghost predicate FilterReadable(s: TableSchema, db: Tables, f: MetadataFilter, c: int)
    requires Inv(s, db) && FilterOk(s, f) && c in db.chunks
  {
    forall o: nat | o < s.chunkSize :: SlotResult(s, db, f, c, o).Some?
  }

  ghost predicate ChunkReadable(s: TableSchema, db: Tables, q: Query, c: int)
    requires Inv(s, db) && QueryOk(s, q) && c in db.chunks
  {
    forall i | 0 <= i < |q.filters| :: FilterReadable(s, db, q.filters[i], c)
  }

  /** One metadata constraint over a whole chunk, vec0_set_metadata_filter_bitmap. */
  method FilterBitmap(s: TableSchema, db: Tables, f: MetadataFilter, c: int, bm: array<Byte>) returns (ok: bool)
    requires Inv(s, db) && FilterOk(s, f) && c in db.chunks
    requires CHAR_BIT * bm.Length == s.chunkSize && Bits(bm[..]) == seq(s.chunkSize, _ => false)
    modifies bm
    ensures ok <==> FilterReadable(s, db, f, c)
    ensures ok ==> forall o: nat | o < s.chunkSize :: Some(Bits(bm[..])[o]) == SlotResult(s, db, f, c, o)
  {
    var t, rowids, arg := db.metadata[f.column], db.chunks[c].rowids, Arg(s, f);
    ghost var bits := Bits(bm[..]);
    for o := 0 to s.chunkSize
      invariant bits == Bits(bm[..])
      invariant forall p: nat | p < o :: Some(bits[p]) == SlotResult(s, db, f, c, p)
    {
      var m := CellMatches(f.op, arg, CellAt(t, s.chunkSize, Pos(c, o)), SideOf(t, rowids[o]));
      assert m == SlotResult(s, db, f, c, o);
      if m.None? { return false; }
      BitmapSet(bm, o, m.value);
      bits := bits[o := m.value];
    }
    return true;
  }

  /** The `rowid in (...)` bitmap of a chunk. */
  method RowidBitmap(validity: seq<Byte>, rowids: seq<int>, list: seq<int>, bm: array<Byte>)
    requires bm.Length == |validity| && |rowids| == CHAR_BIT * bm.Length
    requires Bits(bm[..]) == seq(|rowids|, _ => false)
    modifies bm
    ensures forall o | 0 <= o < |rowids| ::
      Bits(bm[..])[o] == (Bits(validity)[o] && RowidIn.Listed(list, rowids[o]))
  {
    ghost var bits := Bits(bm[..]);
    for o := 0 to |rowids|
      invariant bits == Bits(bm[..])
      invariant forall p | 0 <= p < o :: bits[p] == (Bits(validity)[p] && RowidIn.Listed(list, rowids[p]))
      invariant forall p | o <= p < |rowids| :: !bits[p]
    {
      if !Bits(validity)[o] { continue; }
      BitmapSet(bm, o, RowidIn.Listed(list, rowids[o]));
      bits := bits[o := RowidIn.Listed(list, rowids[o])];
    }
  }

  /** Slot o passes validity, the rowid list and the first n filters. */
  ghost predicate PassesFirst(s: TableSchema, db: Tables, q: Query, c: int, o: nat, n: nat)
    requires Inv(s, db) && QueryOk(s, q) && c in db.chunks && o < s.chunkSize && n <= |q.filters|
  {
    && Bits(db.chunks[c].validity)[o] && RowidOk(q, db.chunks[c].rowids[o])
    && forall i | 0 <= i < n :: SlotResult(s, db, q.filters[i], c, o) == Some(true)
  }

  /** The bits say which slots pass validity, the rowid list and the first n filters. */
  ghost predicate BitsPass(s: TableSchema, db: Tables, q: Query, c: int, n: nat, bits: seq<bool>)
    requires Inv(s, db) && QueryOk(s, q) && c in db.chunks && n <= |q.filters|
  {
    |bits| == s.chunkSize && forall o: nat | o < s.chunkSize :: bits[o] == PassesFirst(s, db, q, c, o, n)
  }

  /** Validity and, when given, the rowid list. */
  method StartCandidates(s: TableSchema, db: Tables, q: Query, c: int, bufs: KnnBuffers)
    requires Inv(s, db) && QueryOk(s, q) && c in db.chunks
    requires bufs.Shape() && CHAR_BIT * bufs.bytes == s.chunkSize
    modifies bufs.b, bufs.bmRowids
    ensures BitsPass(s, db, q, c, 0, Bits(bufs.b[..]))
  {
    var validity, rowids := db.chunks[c].validity, db.chunks[c].rowids;
    BitmapCopy(bufs.b, validity);
    if q.rowids.Some? {
      BitmapClear(bufs.bmRowids);
      RowidBitmap(validity, rowids, Ints(q.rowids.value), bufs.bmRowids);
      BitmapAndInplace(bufs.b, bufs.bmRowids);
    }
  }

  lemma PassesOneMore(s: TableSchema, db: Tables, q: Query, c: int, o: nat, i: nat)
    requires Inv(s, db) && QueryOk(s, q) && c in db.chunks && o < s.chunkSize && i < |q.filters|
    ensures PassesFirst(s, db, q, c, o, i + 1)
      <==> PassesFirst(s, db, q, c, o, i) && SlotResult(s, db, q.filters[i], c, o) == Some(true)
  {
  }

  lemma PassesNext(s: TableSchema, db: Tables, q: Query, c: int, i: nat, bits: seq<bool>, passed: seq<bool>)
    requires Inv(s, db) && QueryOk(s, q) && c in db.chunks && i < |q.filters|
    requires |bits| == |passed| == s.chunkSize
    requires forall o: nat | o < s.chunkSize :: bits[o] == PassesFirst(s, db, q, c, o, i)
    requires forall o: nat | o < s.chunkSize :: SlotResult(s, db, q.filters[i], c, o) == Some(passed[o])
    ensures forall o: nat | o < s.chunkSize :: (bits[o] && passed[o]) == PassesFirst(s, db, q, c, o, i + 1)
  {
    forall o: nat | o < s.chunkSize
      ensures (bits[o] && passed[o]) == PassesFirst(s, db, q, c, o, i + 1)
    {
      PassesOneMore(s, db, q, c, o, i);
    }
  }

  /** One more metadata constraint. */
  method AddFilter(s: TableSchema, db: Tables, q: Query, c: int, bufs: KnnBuffers, i: nat, ghost bits: seq<bool>)
    returns (ok: bool)
    requires Inv(s, db) && QueryOk(s, q) && c in db.chunks && i < |q.filters|
    requires bufs.Shape() && CHAR_BIT * bufs.bytes == s.chunkSize && bits == Bits(bufs.b[..])
    requires BitsPass(s, db, q, c, i, bits)
    modifies bufs.b, bufs.bmMetadata
    ensures ok <==> FilterReadable(s, db, q.filters[i], c)
    ensures ok ==> BitsPass(s, db, q, c, i + 1, Bits(bufs.b[..]))
  {
    BitmapClear(bufs.bmMetadata);
    ok := FilterBitmap(s, db, q.filters[i], c, bufs.bmMetadata);
    if ok {
      ghost var passed := Bits(bufs.bmMetadata[..]);
      assert bits == Bits(bufs.b[..]);
      BitmapAndInplace(bufs.b, bufs.bmMetadata);
      PassesNext(s, db, q, c, i, bits, passed);
    }
  }

  /** The first n filters can be decided all over the chunk. */
  ghost predicate ReadableTo(s: TableSchema, db: Tables, q: Query, c: int, n: nat)
    requires Inv(s, db) && QueryOk(s, q) && c in db.chunks && n <= |q.filters|
  {
    forall i | 0 <= i < n :: FilterReadable(s, db, q.filters[i], c)
  }

  lemma ReadableNext(s: TableSchema, db: Tables, q: Query, c: int, n: nat)
    requires Inv(s, db) && QueryOk(s, q) && c in db.chunks && n < |q.filters|
    requires ReadableTo(s, db, q, c, n) && FilterReadable(s, db, q.filters[n], c)
    ensures ReadableTo(s, db, q, c, n + 1)
  {
  }

  /** The candidate bitmap of a chunk: validity, then rowids, then each metadata constraint. */
  method Candidates(s: TableSchema, db: Tables, q: Query, c: int, bufs: KnnBuffers) returns (ok: bool)
    requires Inv(s, db) && QueryOk(s, q) && c in db.chunks
    requires bufs.Shape() && CHAR_BIT * bufs.bytes == s.chunkSize
    modifies bufs.b, bufs.bmRowids, bufs.bmMetadata
    ensures ok <==> ChunkReadable(s, db, q, c)
    ensures ok ==> forall o: nat | o < s.chunkSize :: Bits(bufs.b[..])[o] == SlotMatches(s, db, q, c, o)
  {
    StartCandidates(s, db, q, c, bufs);
    for i := 0 to |q.filters|
      invariant BitsPass(s, db, q, c, i, Bits(bufs.b[..]))
      invariant ReadableTo(s, db, q, c, i)
    {
      ok := AddFilter(s, db, q, c, bufs, i, Bits(bufs.b[..]));
      if !ok { return; }
      ReadableNext(s, db, q, c, i);
    }
    ok := true;
  }

  ghost function DistanceAt(s: TableSchema, db: Tables, q: Query, metric: seq<Byte> -> int, c: int, o: nat): int
    requires Inv(s, db) && QueryOk(s, q) && c in db.chunks && o < s.chunkSize
  {
    metric(VectorOf(s, db, q.column, Pos(c, o)))
  }

  /** The distance loop: only candidates are measured. */
  method Distances(s: TableSchema, db: Tables, q: Query, metric: seq<Byte> -> int, c: int, bufs: KnnBuffers,
                   ghost bits: seq<bool>)
    requires Inv(s, db) && QueryOk(s, q) && c in db.chunks
    requires bufs.Shape() && CHAR_BIT * bufs.bytes == s.chunkSize && bits == Bits(bufs.b[..])
    modifies bufs.chunkDistances
    ensures forall o: nat | o < s.chunkSize && bits[o] ::
      bufs.chunkDistances[o] == DistanceAt(s, db, q, metric, c, o)
  {
    var blob, b := db.vectors[q.column][c], bufs.b[..];
    for o := 0 to s.chunkSize
      invariant forall p: nat | p < o && bits[p] :: bufs.chunkDistances[p] == DistanceAt(s, db, q, metric, c, p)
    {
      if !Get(b, o) {
        bufs.chunkDistances[o] := 0;
        continue;
      }
      bufs.chunkDistances[o] := metric(ReadSlot(blob, s.vectors[q.column], s.chunkSize, o));
    }
  }

  /** The candidate slot at offset o of the n-th visited chunk. */
  ghost function SlotAt(s: TableSchema, db: Tables, q: Query, metric: seq<Byte> -> int, visit: seq<int>, n: nat, o: nat): Slot
    requires Inv(s, db) && QueryOk(s, q) && n < |visit| && visit[n] in db.chunks && o < s.chunkSize
  {
    Slot(DistanceAt(s, db, q, metric, visit[n], o), n, o, db.chunks[visit[n]].rowids[o])
  }

  /** x is a candidate of one of the first n visited chunks. */
  ghost predicate IsCandidate(s: TableSchema, db: Tables, q: Query, metric: seq<Byte> -> int, visit: seq<int>, n: nat, x: Slot)
    requires Inv(s, db) && QueryOk(s, q) && n <= |visit| && forall c | c in visit :: c in db.chunks
  {
    && 0 <= x.chunk < n && 0 <= x.offset < s.chunkSize
    && SlotMatches(s, db, q, visit[x.chunk], x.offset)
    && x == SlotAt(s, db, q, metric, visit, x.chunk, x.offset)
  }

  /** `seen` are the candidates of the first n visited chunks. */
  ghost predicate SeenFirst(s: TableSchema, db: Tables, q: Query, metric: seq<Byte> -> int, visit: seq<int>, n: nat,
                            seen: set<Slot>)
    requires Inv(s, db) && QueryOk(s, q) && n <= |visit| && forall c | c in visit :: c in db.chunks
  {
    forall x :: x in seen <==> IsCandidate(s, db, q, metric, visit, n, x)
  }

  lemma NextChunk(s: TableSchema, db: Tables, q: Query, metric: seq<Byte> -> int, visit: seq<int>, n: nat,
                  seen: set<Slot>, d: seq<int>, cand: seq<bool>, rowids: seq<int>)
    requires Inv(s, db) && QueryOk(s, q) && n < |visit| && forall c | c in visit :: c in db.chunks
    requires SeenFirst(s, db, q, metric, visit, n, seen)
    requires |d| == |cand| == |rowids| == s.chunkSize && rowids == db.chunks[visit[n]].rowids
    requires forall o: nat | o < s.chunkSize :: cand[o] == SlotMatches(s, db, q, visit[n], o)
    requires forall o: nat | o < s.chunkSize && cand[o] :: d[o] == DistanceAt(s, db, q, metric, visit[n], o)
    ensures SeenFirst(s, db, q, metric, visit, n + 1, seen + ChunkSlots(n, d, cand, rowids))
  {
    forall x ensures x in ChunkSlots(n, d, cand, rowids)
                 <==> x.chunk == n && IsCandidate(s, db, q, metric, visit, n + 1, x)
    {
      if x.chunk == n && IsCandidate(s, db, q, metric, visit, n + 1, x) {
        assert cand[x.offset] && x == Slot(d[x.offset], n, x.offset, rowids[x.offset]);
      }
    }
  }

  /** One turn of the scan. */
  method ScanChunk(s: TableSchema, db: Tables, q: Query, metric: seq<Byte> -> int, visit: seq<int>, n: nat,
                   bufs: KnnBuffers, ghost seen: set<Slot>)
    returns (ok: bool, ghost seen': set<Slot>)
    requires Inv(s, db) && QueryOk(s, q) && n < |visit| && forall c | c in visit :: c in db.chunks
    requires bufs.Valid() && bufs.k == q.k && CHAR_BIT * bufs.bytes == s.chunkSize && IsTopK(bufs.top, seen, q.k)
    requires SeenFirst(s, db, q, metric, visit, n, seen)
    modifies bufs, bufs.IntBuffers(), bufs.BitBuffers()
    ensures ok <==> ChunkReadable(s, db, q, visit[n])
    ensures ok ==> bufs.Valid() && IsTopK(bufs.top, seen', q.k)
    ensures ok ==> SeenFirst(s, db, q, metric, visit, n + 1, seen')
  {
    seen' := seen;
    var c := visit[n];
    ok := Candidates(s, db, q, c, bufs);
    if !ok { return; }
    ghost var cand := Bits(bufs.b[..]);
    Distances(s, db, q, metric, c, bufs, cand);
    ghost var d := bufs.chunkDistances[..];
    assert cand == Bits(bufs.b[..]);
    var rowids := db.chunks[c].rowids;
    NextChunk(s, db, q, metric, visit, n, seen, d, cand, rowids);
    bufs.FoldChunk(rowids, d, cand, seen, n);
    seen' := seen + ChunkSlots(n, d, cand, rowids);
  }

  /** The first n visited chunks are readable. */
  ghost predicate VisitReadable(s: TableSchema, db: Tables, q: Query, visit: seq<int>, n: nat)
    requires Inv(s, db) && QueryOk(s, q) && n <= |visit| && forall c | c in visit :: c in db.chunks
  {
    forall j | 0 <= j < n :: ChunkReadable(s, db, q, visit[j])
  }

  lemma VisitNext(s: TableSchema, db: Tables, q: Query, visit: seq<int>, n: nat)
    requires Inv(s, db) && QueryOk(s, q) && n < |visit| && forall c | c in visit :: c in db.chunks
    requires VisitReadable(s, db, q, visit, n) && ChunkReadable(s, db, q, visit[n])
    ensures VisitReadable(s, db, q, visit, n + 1)
  {
  }

  /** The loop over the visited chunks. */
  method ScanEach(s: TableSchema, db: Tables, q: Query, metric: seq<Byte> -> int, visit: seq<int>, bufs: KnnBuffers)
    returns (ok: bool, ghost seen: set<Slot>)
    requires Inv(s, db) && QueryOk(s, q) && forall c | c in visit :: c in db.chunks
    requires bufs.Valid() && bufs.top == [] && bufs.k == q.k && CHAR_BIT * bufs.bytes == s.chunkSize
    modifies bufs, bufs.IntBuffers(), bufs.BitBuffers()
    ensures ok <==> VisitReadable(s, db, q, visit, |visit|)
    ensures ok ==> bufs.Valid() && IsTopK(bufs.top, seen, q.k) && SeenFirst(s, db, q, metric, visit, |visit|, seen)
  {
    seen := {};
    for n := 0 to |visit|
      invariant bufs.Valid() && IsTopK(bufs.top, seen, q.k)
      invariant SeenFirst(s, db, q, metric, visit, n, seen)
      invariant VisitReadable(s, db, q, visit, n)
    {
      ok, seen := ScanChunk(s, db, q, metric, visit, n, bufs, seen);
      if !ok { return; }
      VisitNext(s, db, q, visit, n);
    }
    ok := true;
  }

  /** vec0Filter_knn_chunks_iter: scan the visited chunks, keeping the k best. */
  method ScanChunks(s: TableSchema, db: Tables, q: Query, metric: seq<Byte> -> int, visit: seq<int>)
    returns (hits: Option<seq<Hit>>, ghost top: seq<Slot>, ghost seen: set<Slot>)
    requires Inv(s, db) && QueryOk(s, q) && 0 < q.k && forall c | c in visit :: c in db.chunks
    ensures hits.Some? <==> VisitReadable(s, db, q, visit, |visit|)
    ensures hits.Some? ==> hits.value == Hits(top) && IsTopK(top, seen, q.k)
    ensures hits.Some? ==> SeenFirst(s, db, q, metric, visit, |visit|, seen)
  {
    var bufs := new KnnBuffers(q.k, s.chunkSize / CHAR_BIT);
    var ok: bool;
    ok, seen := ScanEach(s, db, q, metric, visit, bufs);
    top := bufs.top;
    if !ok { return None, top, seen; }
    var out := bufs.Result();
    hits := Some(out);
  }
}
