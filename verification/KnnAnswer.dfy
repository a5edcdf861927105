/** The KNN query answers for the map: its result is the brute-force top-k over the
    rows that pass the constraints. */
module KnnAnswer {
  import opened Bitmap
  import opened Schema
  import opened VectorSlots
  import opened Metadata
  import opened Store
  import opened Filters
  import opened Operands
  import opened TopK
  import opened KnnQuery
  import RowidIn

  ghost predicate TypedRow(s: TableSchema, row: Row) {
    && |row.metadata| == |s.metadata| && |row.vectors| == |s.vectors|
    && forall j | 0 <= j < |s.metadata| ::
         Accepts(s.metadata[j], row.metadata[j]) && Stored(s.metadata[j], row.metadata[j]) == row.metadata[j]
  }

  ghost predicate TypedRows(s: TableSchema, rows: map<int, Row>) {
    forall r | r in rows :: TypedRow(s, rows[r])
  }

  /** The rows that pass every constraint. */
  ghost function Matching(s: TableSchema, q: Query, rows: map<int, Row>): set<int>
    requires QueryOk(s, q) && TypedRows(s, rows)
  {
    set r | r in rows && RowMatches(s, q, r, rows[r])
  }

  ghost function RowDistance(s: TableSchema, q: Query, metric: seq<Byte> -> int, row: Row): int
    requires QueryOk(s, q) && TypedRow(s, row)
  {
    metric(row.vectors[q.column])
  }

  ghost function DistanceMap(rows: map<int, Row>, column: nat, metric: seq<Byte> -> int): (d: map<int, int>)
    requires forall r | r in rows :: column < |rows[r].vectors|
    ensures d.Keys == rows.Keys && forall r | r in rows :: d[r] == metric(rows[r].vectors[column])
  {
    map r | r in rows :: metric(rows[r].vectors[column])
  }

  /** `hits` is a top-k of the rows wanted: in order of distance, no row twice, and every row
      left out is at least as far as all that are in. */
  ghost predicate IsTopKOf(hits: seq<Hit>, k: int, wanted: set<int>, distances: map<int, int>)
    requires wanted <= distances.Keys
  {
    && |hits| <= k
    && (forall i, j | 0 <= i < j < |hits| :: hits[i].distance <= hits[j].distance && hits[i].rowid != hits[j].rowid)
    && (forall i | 0 <= i < |hits| :: hits[i].rowid in wanted && hits[i].distance == distances[hits[i].rowid])
    && (forall r | r in wanted :: Returned(hits, r)
          || (|hits| == k && forall i | 0 <= i < |hits| :: hits[i].distance <= distances[r]))
  }

  /** `hits` is a top-k of the matching rows. */
  ghost predicate IsBruteForceTopK(hits: seq<Hit>, s: TableSchema, q: Query, metric: seq<Byte> -> int, rows: map<int, Row>)
    requires QueryOk(s, q) && TypedRows(s, rows)
  {
    IsTopKOf(hits, q.k, Matching(s, q, rows), DistanceMap(rows, q.column, metric))
  }

  ghost predicate Returned(hits: seq<Hit>, r: int) {
    exists i :: 0 <= i < |hits| && hits[i].rowid == r
  }

  lemma RowTyped(s: TableSchema, db: Tables, r: int, j: nat)
    requires Inv(s, db) && r in db.rowids && j < |s.metadata|
    ensures Accepts(s.metadata[j], RowAt(s, db, r).metadata[j])
    ensures Stored(s.metadata[j], RowAt(s, db, r).metadata[j]) == RowAt(s, db, r).metadata[j]
  {
    assert Consistent(db.metadata[j], s.chunkSize, db.rowids[r], r);
  }

  lemma RowsTyped(s: TableSchema, db: Tables)
    requires Inv(s, db)
    ensures TypedRows(s, Abs(s, db))
  {
    forall r, j: nat | r in db.rowids && j < |s.metadata|
      ensures Accepts(s.metadata[j], RowAt(s, db, r).metadata[j])
      ensures Stored(s.metadata[j], RowAt(s, db, r).metadata[j]) == RowAt(s, db, r).metadata[j]
    {
      RowTyped(s, db, r, j);
    }
  }

  /** The row in an occupied slot. */
  lemma OccupiedSlot(s: TableSchema, db: Tables, c: int, o: nat) returns (r: int)
    requires Inv(s, db) && c in db.chunks && o < s.chunkSize && Bits(db.chunks[c].validity)[o]
    ensures r == db.chunks[c].rowids[o] && r in db.rowids && db.rowids[r] == Pos(c, o)
  {
    r := db.chunks[c].rowids[o];
  }

  lemma LiveRowSlot(s: TableSchema, db: Tables, r: int)
    requires Inv(s, db) && r in db.rowids
    ensures var p := db.rowids[r];
            && p.chunk in db.chunks && p.offset < s.chunkSize
            && Bits(db.chunks[p.chunk].validity)[p.offset] && db.chunks[p.chunk].rowids[p.offset] == r
  {
    assert Names(s, db.chunks, db.rowids[r], r);
  }

  /** A filter sees the same in the slot as in the row. */
  lemma SlotResultIsRowResult(s: TableSchema, db: Tables, f: MetadataFilter, r: int)
    requires Inv(s, db) && r in db.rowids && FilterOk(s, f)
    requires TypedRow(s, RowAt(s, db, r))
    ensures var p := db.rowids[r];
            && p.chunk in db.chunks && p.offset < s.chunkSize
            && SlotResult(s, db, f, p.chunk, p.offset) == FilterResult(s, f, RowAt(s, db, r))
  {
    LiveRowSlot(s, db, r);
    var p, t := db.rowids[r], db.metadata[f.column];
    assert Consistent(t, s.chunkSize, p, r);
    var v := RowAt(s, db, r).metadata[f.column];
    assert Some(v) == ReadValue(t, s.chunkSize, p, r);
    assert SideOf(t, r) == SideRow(v);
  }

  lemma SlotMatchesRow(s: TableSchema, db: Tables, q: Query, r: int)
    requires Inv(s, db) && QueryOk(s, q) && r in db.rowids && TypedRow(s, RowAt(s, db, r))
    ensures var p := db.rowids[r];
            && p.chunk in db.chunks && p.offset < s.chunkSize
            && (SlotMatches(s, db, q, p.chunk, p.offset) && PartitionsHold(q, db.chunks[p.chunk].partition)
                <==> RowMatches(s, q, r, RowAt(s, db, r)))
  {
    LiveRowSlot(s, db, r);
    forall i | 0 <= i < |q.filters|
      ensures SlotResult(s, db, q.filters[i], db.rowids[r].chunk, db.rowids[r].offset)
           == FilterResult(s, q.filters[i], RowAt(s, db, r))
    {
      SlotResultIsRowResult(s, db, q.filters[i], r);
    }
  }

  /** A vacant slot is readable under every filter. */
  lemma VacantSlotReadable(s: TableSchema, db: Tables, f: MetadataFilter, c: int, o: nat)
    requires Inv(s, db) && c in db.chunks && o < s.chunkSize && !Bits(db.chunks[c].validity)[o]
    requires FilterOk(s, f)
    ensures SlotResult(s, db, f, c, o).Some?
  {
    forall r | r in db.rowids ensures db.rowids[r] != Pos(c, o) { LiveRowSlot(s, db, r); }
    assert MetaInv(db.metadata[f.column], db.chunks.Keys, s.chunkSize, db.rowids);
    assert Vacant(Pos(c, o), db.rowids);
    VacantCellReadable(s.metadata[f.column], f.op, Arg(s, f), SideOf(db.metadata[f.column], db.chunks[c].rowids[o]));
  }

  /** The query fails exactly when some row it visits makes it fail. */
  lemma ReadableIffNoRowFails(s: TableSchema, db: Tables, q: Query, visit: seq<int>)
    requires Inv(s, db) && QueryOk(s, q) && IsVisit(db, q, visit) && TypedRows(s, Abs(s, db))
    ensures (forall c | c in visit :: ChunkReadable(s, db, q, c))
      <==> (forall r | r in Abs(s, db) :: !RowFails(s, q, Abs(s, db)[r]))
  {
    if forall c | c in visit :: ChunkReadable(s, db, q, c) {
      forall r | r in db.rowids ensures !RowFails(s, q, RowAt(s, db, r)) {
        RowReadable(s, db, q, visit, r);
      }
    }
    if forall r | r in Abs(s, db) :: !RowFails(s, q, Abs(s, db)[r]) {
      forall c, i | c in visit && 0 <= i < |q.filters| ensures FilterReadable(s, db, q.filters[i], c) {
        forall o: nat | o < s.chunkSize ensures SlotResult(s, db, q.filters[i], c, o).Some? {
          SlotReadable(s, db, q, c, i, o);
        }
      }
    }
  }

  lemma RowReadable(s: TableSchema, db: Tables, q: Query, visit: seq<int>, r: int)
    requires Inv(s, db) && QueryOk(s, q) && IsVisit(db, q, visit)
    requires r in db.rowids && TypedRow(s, RowAt(s, db, r))
    requires forall c | c in visit :: ChunkReadable(s, db, q, c)
    ensures !RowFails(s, q, RowAt(s, db, r))
  {
    LiveRowSlot(s, db, r);
    var p, row := db.rowids[r], RowAt(s, db, r);
    if PartitionsHold(q, row.partition) {
      assert p.chunk in visit && ChunkReadable(s, db, q, p.chunk);
      forall i | 0 <= i < |q.filters| ensures !Unreadable(q.filters[i].op, row.metadata[q.filters[i].column]) {
        var f := q.filters[i];
        assert FilterReadable(s, db, q.filters[i], p.chunk);
        assert SlotResult(s, db, q.filters[i], p.chunk, p.offset).Some?;
        SlotResultIsRowResult(s, db, f, r);
        CellReadable(s.metadata[f.column], f.op, Arg(s, f), row.metadata[f.column]);
      }
    }
  }

  lemma SlotReadable(s: TableSchema, db: Tables, q: Query, c: int, i: nat, o: nat)
    requires Inv(s, db) && QueryOk(s, q) && TypedRows(s, Abs(s, db))
    requires c in db.chunks && PartitionsHold(q, db.chunks[c].partition) && i < |q.filters| && o < s.chunkSize
    requires forall r | r in Abs(s, db) :: !RowFails(s, q, Abs(s, db)[r])
    ensures SlotResult(s, db, q.filters[i], c, o).Some?
  {
    var f := q.filters[i];
    if Bits(db.chunks[c].validity)[o] {
      var r := OccupiedSlot(s, db, c, o);
      var row := RowAt(s, db, r);
      assert Abs(s, db)[r] == row && !RowFails(s, q, row);
      SlotResultIsRowResult(s, db, f, r);
      CellReadable(s.metadata[f.column], f.op, Arg(s, f), row.metadata[f.column]);
    } else {
      VacantSlotReadable(s, db, f, c, o);
    }
  }

  /** Candidate slots and matching rows correspond one to one. */
  lemma CandidateIsMatch(s: TableSchema, db: Tables, q: Query, metric: seq<Byte> -> int, visit: seq<int>, x: Slot)
    requires Inv(s, db) && QueryOk(s, q) && IsVisit(db, q, visit) && TypedRows(s, Abs(s, db))
    requires IsCandidate(s, db, q, metric, visit, |visit|, x)
    ensures x.rowid in Matching(s, q, Abs(s, db)) && db.rowids[x.rowid] == Pos(visit[x.chunk], x.offset)
    ensures x.distance == RowDistance(s, q, metric, Abs(s, db)[x.rowid])
  {
    assert visit[x.chunk] in visit;
    var r := OccupiedSlot(s, db, visit[x.chunk], x.offset);
    assert Abs(s, db)[r] == RowAt(s, db, r) && TypedRow(s, RowAt(s, db, r));
    SlotMatchesRow(s, db, q, r);
  }

  lemma MatchIsCandidate(s: TableSchema, db: Tables, q: Query, metric: seq<Byte> -> int, visit: seq<int>, r: int)
    returns (x: Slot)
    requires Inv(s, db) && QueryOk(s, q) && IsVisit(db, q, visit) && TypedRows(s, Abs(s, db))
    requires r in Matching(s, q, Abs(s, db))
    ensures IsCandidate(s, db, q, metric, visit, |visit|, x) && x.rowid == r
  {
    assert Abs(s, db)[r] == RowAt(s, db, r) && TypedRow(s, RowAt(s, db, r));
    SlotMatchesRow(s, db, q, r);
    LiveRowSlot(s, db, r);
    var p := db.rowids[r];
    assert p.chunk in visit;
    var n :| 0 <= n < |visit| && visit[n] == p.chunk;
    x := SlotAt(s, db, q, metric, visit, n, p.offset);
  }

  /** What the scan has established when the last chunk is done. */
  ghost predicate Scanned(s: TableSchema, db: Tables, q: Query, metric: seq<Byte> -> int, visit: seq<int>,
                          top: seq<Slot>, seen: set<Slot>) {
    && Inv(s, db) && QueryOk(s, q) && IsVisit(db, q, visit) && TypedRows(s, Abs(s, db)) && 0 < q.k
    && IsTopK(top, seen, q.k)
    && forall x :: x in seen <==> IsCandidate(s, db, q, metric, visit, |visit|, x)
  }

  lemma TopOrder(s: TableSchema, db: Tables, q: Query, metric: seq<Byte> -> int, visit: seq<int>,
                 top: seq<Slot>, seen: set<Slot>, i: nat, j: nat)
    requires Scanned(s, db, q, metric, visit, top, seen) && i < j < |top|
    ensures top[i].distance <= top[j].distance && top[i].rowid != top[j].rowid
  {
    assert Before(top[i], top[j]) && top[i] in top && top[j] in top;
    CandidateIsMatch(s, db, q, metric, visit, top[i]);
    CandidateIsMatch(s, db, q, metric, visit, top[j]);
  }

  lemma TopComplete(s: TableSchema, db: Tables, q: Query, metric: seq<Byte> -> int, visit: seq<int>,
                    top: seq<Slot>, seen: set<Slot>, r: int)
    requires Scanned(s, db, q, metric, visit, top, seen) && r in Matching(s, q, Abs(s, db))
    ensures Returned(Hits(top), r)
      || (|top| == q.k && forall i | 0 <= i < |top| :: top[i].distance <= RowDistance(s, q, metric, Abs(s, db)[r]))
  {
    var x := MatchIsCandidate(s, db, q, metric, visit, r);
    CandidateIsMatch(s, db, q, metric, visit, x);
    if x in top {
      var i :| 0 <= i < |top| && top[i] == x;
      assert Hits(top)[i].rowid == r;
    } else {
      assert AllBefore(top, x);
    }
  }

  lemma ScanIsBruteForce(s: TableSchema, db: Tables, q: Query, metric: seq<Byte> -> int, visit: seq<int>,
                         top: seq<Slot>, seen: set<Slot>)
    requires Scanned(s, db, q, metric, visit, top, seen)
    ensures IsBruteForceTopK(Hits(top), s, q, metric, Abs(s, db))
  {
    var hits := Hits(top);
    forall i | 0 <= i < |hits|
      ensures hits[i].rowid in Matching(s, q, Abs(s, db))
        && hits[i].distance == RowDistance(s, q, metric, Abs(s, db)[hits[i].rowid])
    {
      assert top[i] in top;
      CandidateIsMatch(s, db, q, metric, visit, top[i]);
    }
    forall i, j | 0 <= i < j < |hits| ensures hits[i].distance <= hits[j].distance && hits[i].rowid != hits[j].rowid {
      TopOrder(s, db, q, metric, visit, top, seen, i, j);
    }
    forall r | r in Matching(s, q, Abs(s, db))
      ensures Returned(hits, r) || (|hits| == q.k
        && forall i | 0 <= i < |hits| :: hits[i].distance <= RowDistance(s, q, metric, Abs(s, db)[r]))
    {
      TopComplete(s, db, q, metric, visit, top, seen, r);
    }
  }

  /** The running list after the scan is the front of the sorted candidates. */
  lemma ScanIsSortedPrefix(s: TableSchema, db: Tables, q: Query, metric: seq<Byte> -> int, visit: seq<int>,
                           top: seq<Slot>, seen: set<Slot>)
    returns (full: seq<Slot>)
    requires Scanned(s, db, q, metric, visit, top, seen)
    ensures top == full[..if q.k < |full| then q.k else |full|]
    ensures forall x :: x in full <==> IsCandidate(s, db, q, metric, visit, |visit|, x)
    ensures forall i, j | 0 <= i < j < |full| ::
      || full[i].distance < full[j].distance
      || (full[i].distance == full[j].distance && full[i].chunk < full[j].chunk)
      || (full[i].distance == full[j].distance && full[i].chunk == full[j].chunk && full[i].offset > full[j].offset)
  {
    full := SortExists(seen);
    TopKIsSortThenTake(top, seen, q.k, full);
  }

  /** The query vector was decoded and has the type and the length of its column. */
  predicate QueryVectorOk(s: TableSchema, q: Query, query: Option<Vector>) {
    q.column < |s.vectors| && query.Some? && Fits(query.value, s.vectors[q.column])
  }

  /** The distance from the query vector. */
  function MetricOf(query: Vector, distance: (Vector, seq<Byte>) -> int): seq<Byte> -> int {
    b => distance(query, b)
  }

  /** vec0Filter_knn. It fails for a query vector that does not fit, for a bad k or when a
      visited row is unreadable; otherwise it returns the brute-force answer over the map. */
  method Knn(s: TableSchema, db: Tables, q: Query, query: Option<Vector>, distance: (Vector, seq<Byte>) -> int,
             visit: seq<int>)
    returns (hits: Option<seq<Hit>>)
    requires Inv(s, db) && QueryOk(s, q) && IsVisit(db, q, visit)
    ensures TypedRows(s, Abs(s, db))
    ensures hits.Some? <==>
      && query.Some? && query.value.elementType == s.vectors[q.column].elementType
      && query.value.dimensions == s.vectors[q.column].dimensions && 0 <= q.k <= 4096
      && (q.k == 0 || forall r | r in Abs(s, db) :: !RowFails(s, q, Abs(s, db)[r]))
    ensures hits.Some? ==> IsBruteForceTopK(hits.value, s, q, MetricOf(query.value, distance), Abs(s, db))
    ensures hits.Some? ==> forall i | 0 <= i < |hits.value| ::
      && hits.value[i].rowid in Abs(s, db)
      && hits.value[i].distance == distance(query.value, Abs(s, db)[hits.value[i].rowid].vectors[q.column])
  {
    RowsTyped(s, db);
    if query.None? || query.value.elementType != s.vectors[q.column].elementType { return None; }
    if query.value.dimensions != s.vectors[q.column].dimensions { return None; }
    if q.k < 0 || q.k > K_MAX { return None; }
    if q.k == 0 { return Some([]); }
    ghost var top: seq<Slot>, seen: set<Slot>;
    var metric := MetricOf(query.value, distance);
    hits, top, seen := ScanChunks(s, db, q, metric, visit);
    ReadableIffNoRowFails(s, db, q, visit);
    if hits.Some? {
      ScanIsBruteForce(s, db, q, metric, visit, top, seen);
    }
  }

  // ----- against SQL's own reading of the constraints -----

  /** Every operand keeps its promises, and every integer has 64 bits. */
  ghost predicate SqlValues(s: TableSchema, q: Query, rowid: int, row: Row)
    requires QueryOk(s, q) && TypedRow(s, row)
  {
    && INT64_MIN <= rowid <= INT64_MAX
    && (q.rowids.Some? ==> ValidRhs(Many(q.rowids.value)))
    && (forall i | 0 <= i < |q.filters| :: ValidRhs(q.filters[i].rhs))
    && forall j | 0 <= j < |s.metadata| :: IsStored(s.metadata[j], row.metadata[j])
  }

  /** On NUL-free texts one constraint is decided as SQL does, exactly under this condition. */
  ghost predicate FilterExact(s: TableSchema, f: MetadataFilter, row: Row)
    requires FilterOk(s, f) && TypedRow(s, row)
  {
    var kind, v := s.metadata[f.column], row.metadata[f.column];
    !Unreadable(f.op, v) && (Misjudged(f.op, Arg(s, f), v) <==> Distorted(kind, f.op, f.rhs, v))
  }

  ghost predicate NulFreeFilter(s: TableSchema, f: MetadataFilter, row: Row)
    requires FilterOk(s, f) && TypedRow(s, row)
  {
    NulFreeValue(row.metadata[f.column]) && NulFreeTarget(Arg(s, f))
  }

  lemma FilterAsSql(s: TableSchema, f: MetadataFilter, row: Row)
    requires FilterOk(s, f) && TypedRow(s, row) && ValidRhs(f.rhs) && NulFreeFilter(s, f, row)
    requires IsStored(s.metadata[f.column], row.metadata[f.column])
    ensures FilterResult(s, f, row) == Some(FilterHolds(f, row)) <==> FilterExact(s, f, row)
  {
    CellMatchesSql(s.metadata[f.column], f.op, f.rhs, row.metadata[f.column]);
  }

  /** The rowid list is decided as SQL does: all differences fit in 32 bits, and no entry
      was cut to the rowid. */
  ghost predicate RowidExact(q: Query, rowid: int) {
    q.rowids.Some? ==>
      RowidIn.Narrow(Ints(q.rowids.value), rowid) && !DistortedList(IntegerKind, q.rowids.value, Integer(rowid))
  }

  lemma RowidAsSql(q: Query, rowid: int)
    requires INT64_MIN <= rowid <= INT64_MAX && (q.rowids.Some? ==> ValidRhs(Many(q.rowids.value)))
    requires RowidExact(q, rowid)
    ensures RowidOk(q, rowid) <==> q.rowids.None? || SqlIn(Integer(rowid), q.rowids.value)
  {
    if q.rowids.Some? {
      var xs := q.rowids.value;
      RowidIn.ListedIsMembership(Ints(xs), rowid);
      ImageListed(IntegerKind, xs, Integer(rowid));
      ConvertedIsSql(IntegerKind, IN, Many(xs), Integer(rowid));
    }
  }

  /** None of the exceptional families is present in this row. */
  ghost predicate Unexceptional(s: TableSchema, q: Query, rowid: int, row: Row)
    requires QueryOk(s, q) && TypedRow(s, row)
  {
    && SqlValues(s, q, rowid, row) && RowidExact(q, rowid)
    && forall i | 0 <= i < |q.filters| :: NulFreeFilter(s, q.filters[i], row) && FilterExact(s, q.filters[i], row)
  }

  /** Away from the exceptional families the code filters as SQL would. */
  lemma MatchesAsSql(s: TableSchema, q: Query, rowid: int, row: Row)
    requires QueryOk(s, q) && TypedRow(s, row) && Unexceptional(s, q, rowid, row)
    ensures RowMatches(s, q, rowid, row) <==> SqlMatches(q, rowid, row)
  {
    RowidAsSql(q, rowid);
    forall i | 0 <= i < |q.filters|
      ensures FilterResult(s, q.filters[i], row) == Some(FilterHolds(q.filters[i], row))
    {
      FilterAsSql(s, q.filters[i], row);
    }
  }

  /** Over a table without exceptional rows nothing fails, and the rows considered are those that
      SQL selects by the constraints of the query. */
  lemma MatchingAsSql(s: TableSchema, q: Query, rows: map<int, Row>)
    requires QueryOk(s, q) && TypedRows(s, rows)
    requires forall r | r in rows :: Unexceptional(s, q, r, rows[r])
    ensures forall r | r in rows :: r in Matching(s, q, rows) <==> SqlMatches(q, r, rows[r])
    ensures forall r | r in rows :: !RowFails(s, q, rows[r])
  {
    forall r | r in rows
      ensures r in Matching(s, q, rows) <==> SqlMatches(q, r, rows[r])
      ensures !RowFails(s, q, rows[r])
    {
      MatchesAsSql(s, q, r, rows[r]);
      assert forall i | 0 <= i < |q.filters| :: FilterExact(s, q.filters[i], rows[r]);
    }
  }
}
