/** Two accepted queries whose answer is not the top-k of their WHERE clause. */
module WhereExamples {
  import opened Schema
  import opened Store
  import opened Filters
  import opened Operands
  import opened Columns
  import opened QueryPlan
  import opened KnnQuery
  import opened TopK
  import opened PlanQuery
  import opened TopRows
  import opened WhereClause
  import KnnAnswer

  const QUERY := Vector(Int8, 1, [0])
  const MATCHED := One(Operand(Blob([0]), 0, 0.0, [0], Some(QUERY)))
  const ONE := Operand(Integer(1), 1, 1.0, [49], None)
  const TWO := Operand(Integer(2), 2, 2.0, [50], None)
  const FIVE := Operand(Integer(5), 5, 5.0, [53], None)

  /** The distance of one-byte vectors from 0. */
  function FromZero(query: Vector, b: seq<bv8>): int {
    if |b| == 1 then b[0] as int else 0
  }

  /** A run is what the plan promises. */
  lemma RunIsPlanned(w: Request, s: TableSchema, rows: map<int, Row>, omitted: set<nat>, run: Run)
    requires Answerable(w, s, rows, omitted) && KnnAnswer.TypedRows(s, rows) && IsScan(w, omitted, run.rhs)
    requires QueryOk(s, run.q) && run.q.column == ToIdx(w.layout, w.cs[w.terms.match_].column) && run.q.k == KOf(w)
    requires Answers(s, rows, run.q, w.values[w.terms.match_].x.asVector, FromZero, Some(run.hits))
    requires forall r | r in rows :: KnnAnswer.Unexceptional(s, run.q, r, rows[r])
    requires forall r | r in rows :: SqlMatches(run.q, r, rows[r]) <==> r in PassedRows(w, rows, omitted, run.rhs)
    ensures Ran(w, s, rows, omitted, FromZero, run)
  {
    assert !Looped(w, w.terms.match_) && !Looped(w, KTermOf(w.terms));
  }

  // ----- v match ? and k = 1 and rowid = 5 -----

  const ROWID_REQUEST := Request(
    Layout([VectorKind], [0]),
    [Constraint(true, 1, CMatch, false), Constraint(true, 3, CEq, false), Constraint(true, COLUMN_ID, CEq, false)],
    [],
    Terms(0, -1, 2, 1, -1, false),
    [MATCHED, One(ONE), One(FIVE)],
    (j, hit, row) => false)
  const ROWID_SCHEMA := TableSchema(8, [VectorColumn.VectorColumn(Int8, 1)], [], [])
  const ROWID_ROWS: map<int, Row> := map[5 := Row([], [[3]], []), 6 := Row([], [[1]], [])]
  const ROWID_RUN := Run(ROWID_REQUEST.values, Query(0, 1, None, [], []), [Hit(1, 6)])

  lemma RowidAccepted()
    ensures OneOfEach(ROWID_REQUEST.layout, ROWID_REQUEST.cs) && QueryAccepted(ROWID_REQUEST, ROWID_SCHEMA)
  {
    forall k ensures Count(ROWID_REQUEST.layout.kinds, k) == if k == VectorKind then 1 else 0 { }
  }

  lemma RowidShapes()
    ensures AsWritten(ROWID_REQUEST) && KOf(ROWID_REQUEST) == 1
    ensures Carried(ROWID_REQUEST.layout, ROWID_REQUEST.cs, {0, 1}, ROWID_REQUEST.terms)
  {
  }

  lemma RowidDistances()
    ensures Measurable(ROWID_REQUEST, ROWID_ROWS)
    ensures RowDistances(ROWID_REQUEST, ROWID_ROWS, FromZero) == map[5 := 3, 6 := 1]
  {
    assert FromZero(QUERY, [3]) == 3 && FromZero(QUERY, [1]) == 1;
    var d := RowDistances(ROWID_REQUEST, ROWID_ROWS, FromZero);
    assert d.Keys == {5, 6};
    assert d[5] == KnnAnswer.MetricOf(QUERY, FromZero)([3]) && d[6] == KnnAnswer.MetricOf(QUERY, FromZero)([1]);
  }

  lemma RowidAnswerable()
    ensures Answerable(ROWID_REQUEST, ROWID_SCHEMA, ROWID_ROWS, {0, 1})
  {
    RowidAccepted();
    RowidShapes();
    RowidDistances();
    forall k ensures Count(ROWID_REQUEST.layout.kinds, k) == if k == VectorKind then 1 else 0 { }
  }

  lemma RowidTyped()
    ensures KnnAnswer.TypedRows(ROWID_SCHEMA, ROWID_ROWS) && QueryOk(ROWID_SCHEMA, ROWID_RUN.q)
    ensures forall r | r in ROWID_ROWS :: KnnAnswer.Unexceptional(ROWID_SCHEMA, ROWID_RUN.q, r, ROWID_ROWS[r])
    ensures forall r | r in ROWID_ROWS :: SqlMatches(ROWID_RUN.q, r, ROWID_ROWS[r])
    ensures forall r | r in ROWID_ROWS :: !RowFails(ROWID_SCHEMA, ROWID_RUN.q, ROWID_ROWS[r])
    ensures KnnAnswer.Matching(ROWID_SCHEMA, ROWID_RUN.q, ROWID_ROWS) == {5, 6}
  {
  }

  lemma RowidTop()
    ensures KnnAnswer.IsTopKOf(ROWID_RUN.hits, 1, {5, 6}, map[5 := 3, 6 := 1])
  {
    assert KnnAnswer.Returned(ROWID_RUN.hits, 6) by { assert ROWID_RUN.hits[0].rowid == 6; }
  }

  lemma RowidAnswers()
    ensures KnnAnswer.TypedRows(ROWID_SCHEMA, ROWID_ROWS) && QueryOk(ROWID_SCHEMA, ROWID_RUN.q)
    ensures Answers(ROWID_SCHEMA, ROWID_ROWS, ROWID_RUN.q, Some(QUERY), FromZero, Some(ROWID_RUN.hits))
  {
    RowidTyped();
    RowidTop();
    RowidDistances();
  }

  lemma RowidOmitted()
    ensures PassedRows(ROWID_REQUEST, ROWID_ROWS, {0, 1}, ROWID_RUN.rhs) == {5, 6}
    ensures IsScan(ROWID_REQUEST, {0, 1}, ROWID_RUN.rhs)
  {
  }

  lemma RowidRan()
    ensures Ran(ROWID_REQUEST, ROWID_SCHEMA, ROWID_ROWS, {0, 1}, FromZero, ROWID_RUN)
  {
    RowidAnswerable();
    RowidShapes();
    RowidTyped();
    RowidAnswers();
    RowidOmitted();
    RunIsPlanned(ROWID_REQUEST, ROWID_SCHEMA, ROWID_ROWS, {0, 1}, ROWID_RUN);
  }

  lemma RowidWhere()
    ensures Measurable(ROWID_REQUEST, ROWID_ROWS) && WhereRows(ROWID_REQUEST, ROWID_ROWS, FromZero) == {5}
    ensures 5 in ScanRows(ROWID_REQUEST, ROWID_ROWS, FromZero, {0, 1}, ROWID_RUN.rhs)
  {
    RowidDistances();
    RowidOmitted();
    assert InWhere(ROWID_REQUEST, 2) && forall j: nat | InWhere(ROWID_REQUEST, j) :: j == 2;
    assert forall hit, row :: Meets(ROWID_REQUEST, 2, hit, row) <==> hit.rowid == 5;
  }

  /** The query is accepted and row 5 satisfies its WHERE clause. Row 6 is nearer: nothing comes
      back. */
  lemma RowidExample()
    ensures OneOfEach(ROWID_REQUEST.layout, ROWID_REQUEST.cs)
    ensures Answerable(ROWID_REQUEST, ROWID_SCHEMA, ROWID_ROWS, {0, 1})
    ensures Ran(ROWID_REQUEST, ROWID_SCHEMA, ROWID_ROWS, {0, 1}, FromZero, ROWID_RUN)
    ensures WhereRows(ROWID_REQUEST, ROWID_ROWS, FromZero) == {5}
    ensures Seen(ROWID_REQUEST, ROWID_ROWS, {0, 1}, ROWID_RUN.hits) == []
    ensures !KnnAnswer.IsTopKOf([], 1, {5}, map[5 := 3, 6 := 1])
  {
    RowidAccepted();
    RowidAnswerable();
    RowidRan();
    RowidWhere();
    RowidHidden();
    assert !KnnAnswer.Returned([], 5);
  }

  lemma RowidHidden()
    ensures Seen(ROWID_REQUEST, ROWID_ROWS, {0, 1}, ROWID_RUN.hits) == []
  {
    RowidAnswerable();
    RowidShapes();
    RowidDistances();
    RowidRan();
    RowidWhere();
    RowidOmitted();
    assert 6 in Nearer({5, 6}, map[5 := 3, 6 := 1], 5);
    assert |Nearer({5, 6}, map[5 := 3, 6 := 1], 5)| >= 1;
    RowidEquals(ROWID_REQUEST, ROWID_SCHEMA, ROWID_ROWS, {0, 1}, FromZero, ROWID_RUN, 2, 5);
  }

  // ----- v match ? and k = 1 and p in (1, 2) -----

  const LIST_REQUEST := Request(
    Layout([VectorKind, PartitionKind], [0, 0]),
    [Constraint(true, 1, CMatch, false), Constraint(true, 4, CEq, false), Constraint(true, 2, CEq, true)],
    [],
    Terms(0, -1, -1, 1, -1, false),
    [MATCHED, One(ONE), Many([ONE, TWO])],
    (j, hit, row) => false)
  const LIST_SCHEMA := TableSchema(8, [VectorColumn.VectorColumn(Int8, 1)], [IntegerType], [])
  const LIST_ROWS: map<int, Row> := map[1 := Row([Integer(1)], [[1]], []), 2 := Row([Integer(2)], [[3]], [])]

  /** The scan for one of the two values. */
  function ListRun(x: Operand): Run
    requires x == ONE || x == TWO
  {
    Run([MATCHED, One(ONE), One(x)], Query(0, 1, None, [PartitionFilter(0, EQ, x.v)], []),
        [if x == ONE then Hit(1, 1) else Hit(3, 2)])
  }

  const LIST_RUNS := [ListRun(ONE), ListRun(TWO)]

  lemma ListKinds()
    ensures forall k :: Count(LIST_REQUEST.layout.kinds, k) == if k == VectorKind || k == PartitionKind then 1 else 0
    ensures Columns.Valid(LIST_REQUEST.layout)
  {
    var kinds := LIST_REQUEST.layout.kinds;
    assert kinds[..0] == [] && kinds[..1] == [VectorKind];
  }

  lemma ListAccepted()
    ensures OneOfEach(LIST_REQUEST.layout, LIST_REQUEST.cs) && QueryAccepted(LIST_REQUEST, LIST_SCHEMA)
  {
    ListKinds();
  }

  lemma ListShapes()
    ensures AsWritten(LIST_REQUEST) && KOf(LIST_REQUEST) == 1 && Covered(LIST_REQUEST)
    ensures Carried(LIST_REQUEST.layout, LIST_REQUEST.cs, {0, 1, 2}, LIST_REQUEST.terms)
  {
  }

  lemma ListDistances()
    ensures Measurable(LIST_REQUEST, LIST_ROWS)
    ensures RowDistances(LIST_REQUEST, LIST_ROWS, FromZero) == map[1 := 1, 2 := 3]
  {
    assert FromZero(QUERY, [1]) == 1 && FromZero(QUERY, [3]) == 3;
    var d := RowDistances(LIST_REQUEST, LIST_ROWS, FromZero);
    assert d.Keys == {1, 2};
    assert d[1] == KnnAnswer.MetricOf(QUERY, FromZero)([1]) && d[2] == KnnAnswer.MetricOf(QUERY, FromZero)([3]);
  }

  lemma ListAnswerable()
    ensures Answerable(LIST_REQUEST, LIST_SCHEMA, LIST_ROWS, {0, 1, 2})
  {
    ListAccepted();
    ListShapes();
    ListDistances();
    ListKinds();
  }

  lemma ListMatches(x: Operand, r: int)
    requires (x == ONE || x == TWO) && r in LIST_ROWS
    ensures PartitionsHold(ListRun(x).q, LIST_ROWS[r].partition) <==> r == x.v.i
  {
    assert PartitionHolds(ListRun(x).q.partitions[0], LIST_ROWS[r].partition) <==> r == x.v.i;
  }

  lemma ListTyped(x: Operand)
    requires x == ONE || x == TWO
    ensures KnnAnswer.TypedRows(LIST_SCHEMA, LIST_ROWS) && QueryOk(LIST_SCHEMA, ListRun(x).q)
    ensures forall r | r in LIST_ROWS :: KnnAnswer.Unexceptional(LIST_SCHEMA, ListRun(x).q, r, LIST_ROWS[r])
    ensures forall r | r in LIST_ROWS :: SqlMatches(ListRun(x).q, r, LIST_ROWS[r]) <==> r == x.v.i
    ensures forall r | r in LIST_ROWS :: RowMatches(LIST_SCHEMA, ListRun(x).q, r, LIST_ROWS[r]) <==> r == x.v.i
    ensures forall r | r in LIST_ROWS :: !RowFails(LIST_SCHEMA, ListRun(x).q, LIST_ROWS[r])
  {
    forall r | r in LIST_ROWS ensures PartitionsHold(ListRun(x).q, LIST_ROWS[r].partition) <==> r == x.v.i {
      ListMatches(x, r);
    }
  }

  lemma ListTop(x: Operand)
    requires x == ONE || x == TWO
    ensures KnnAnswer.IsTopKOf(ListRun(x).hits, 1, {x.v.i}, map[1 := 1, 2 := 3])
  {
    assert ListRun(x).hits[0].rowid == x.v.i;
  }

  lemma ListAnswers(x: Operand)
    requires x == ONE || x == TWO
    ensures KnnAnswer.TypedRows(LIST_SCHEMA, LIST_ROWS) && QueryOk(LIST_SCHEMA, ListRun(x).q)
    ensures Answers(LIST_SCHEMA, LIST_ROWS, ListRun(x).q, Some(QUERY), FromZero, Some(ListRun(x).hits))
  {
    ListTyped(x);
    ListTop(x);
    ListDistances();
  }

  lemma ListOmitted(x: Operand)
    requires x == ONE || x == TWO
    ensures PassedRows(LIST_REQUEST, LIST_ROWS, {0, 1, 2}, ListRun(x).rhs) == {x.v.i}
    ensures IsScan(LIST_REQUEST, {0, 1, 2}, ListRun(x).rhs)
  {
    var l, cs, rhs := LIST_REQUEST.layout, LIST_REQUEST.cs, ListRun(x).rhs;
    forall r | r in LIST_ROWS ensures AllOmitted(l, cs, {0, 1, 2}, rhs, r, LIST_ROWS[r]) <==> r == x.v.i {
      assert Satisfies(l, cs[2], rhs[2], r, LIST_ROWS[r]) <==> r == x.v.i;
    }
  }

  lemma ListRan(x: Operand)
    requires x == ONE || x == TWO
    ensures Ran(LIST_REQUEST, LIST_SCHEMA, LIST_ROWS, {0, 1, 2}, FromZero, ListRun(x))
  {
    ListAnswerable();
    ListShapes();
    ListTyped(x);
    ListAnswers(x);
    ListOmitted(x);
    RunIsPlanned(LIST_REQUEST, LIST_SCHEMA, LIST_ROWS, {0, 1, 2}, ListRun(x));
  }

  lemma ListScans()
    ensures AllScans(LIST_REQUEST, {0, 1, 2}, LIST_RUNS)
  {
    ListOmitted(ONE);
    ListOmitted(TWO);
    assert Apart(LIST_REQUEST, {0, 1, 2}, LIST_RUNS[0].rhs, LIST_RUNS[1].rhs) by {
      assert Looped(LIST_REQUEST, 2);
    }
    forall rhs | IsScan(LIST_REQUEST, {0, 1, 2}, rhs)
      ensures exists i :: 0 <= i < |LIST_RUNS| && LIST_RUNS[i].rhs == rhs
    {
      assert rhs[0] == MATCHED && rhs[1] == One(ONE) && Looped(LIST_REQUEST, 2);
      assert rhs == [MATCHED, One(ONE), rhs[2]];
      assert LIST_RUNS[0].rhs == rhs || LIST_RUNS[1].rhs == rhs;
    }
  }

  lemma ListSeenOf(x: Operand)
    requires x == ONE || x == TWO
    ensures Seen(LIST_REQUEST, LIST_ROWS, {0, 1, 2}, ListRun(x).hits) == ListRun(x).hits
  {
    ListAnswerable();
    ListShapes();
    ListRan(x);
    NothingRechecked(LIST_REQUEST, LIST_SCHEMA, LIST_ROWS, {0, 1, 2}, FromZero, ListRun(x));
  }

  /** What the user sees: one hit for each partition. */
  lemma ListSeen()
    ensures IsMerged([Hit(1, 1), Hit(3, 2)], SeenOfScans(LIST_REQUEST, LIST_ROWS, {0, 1, 2}, LIST_RUNS))
  {
    var parts := SeenOfScans(LIST_REQUEST, LIST_ROWS, {0, 1, 2}, LIST_RUNS);
    ListSeenOf(ONE);
    ListSeenOf(TWO);
    TwoParts(parts, [Hit(1, 1)], [Hit(3, 2)]);
  }

  lemma TwoParts(parts: seq<seq<Hit>>, a: seq<Hit>, b: seq<Hit>)
    requires parts == [a, b]
    ensures Together(parts) == a + b
  {
    assert parts[..1] == [a] && [a][..0] == [];
    assert Together([a]) == a;
  }

  lemma ListWhere()
    ensures Measurable(LIST_REQUEST, LIST_ROWS) && WhereRows(LIST_REQUEST, LIST_ROWS, FromZero) == {1, 2}
  {
    ListDistances();
    assert InWhere(LIST_REQUEST, 2) && forall j: nat | InWhere(LIST_REQUEST, j) :: j == 2;
    forall r | r in LIST_ROWS ensures forall d :: Meets(LIST_REQUEST, 2, Hit(d, r), LIST_ROWS[r]) {
      assert SqlTrue(EQ, Integer(r), [ONE, TWO][r - 1].v);
    }
  }

  /** The query is accepted with k = 1. Both scans find a row, and the user sees two. */
  lemma ListExample()
    ensures OneOfEach(LIST_REQUEST.layout, LIST_REQUEST.cs) && KOf(LIST_REQUEST) == 1
    ensures Answerable(LIST_REQUEST, LIST_SCHEMA, LIST_ROWS, {0, 1, 2})
    ensures AllScans(LIST_REQUEST, {0, 1, 2}, LIST_RUNS)
    ensures Ran(LIST_REQUEST, LIST_SCHEMA, LIST_ROWS, {0, 1, 2}, FromZero, LIST_RUNS[0])
    ensures Ran(LIST_REQUEST, LIST_SCHEMA, LIST_ROWS, {0, 1, 2}, FromZero, LIST_RUNS[1])
    ensures WhereRows(LIST_REQUEST, LIST_ROWS, FromZero) == {1, 2}
    ensures IsMerged([Hit(1, 1), Hit(3, 2)], SeenOfScans(LIST_REQUEST, LIST_ROWS, {0, 1, 2}, LIST_RUNS))
    ensures !KnnAnswer.IsTopKOf([Hit(1, 1), Hit(3, 2)], 1, {1, 2}, map[1 := 1, 2 := 3])
  {
    ListAccepted();
    ListShapes();
    ListAnswerable();
    ListScans();
    ListRan(ONE);
    ListRan(TWO);
    ListWhere();
    ListSeen();
  }
}
