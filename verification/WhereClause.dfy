/** The query as the user wrote it. SQLite runs the plan once for each value of a list that the
    table did not ask for, and tests the constraints the table did not take over on what comes
    back. When that is the top-k of the WHERE clause, and when it is not. */
module WhereClause {
  import opened Schema
  import opened Store
  import opened Filters
  import opened Operands
  import opened Columns
  import opened QueryPlan
  import opened KnnQuery
  import opened TopK
  import opened PlanQuery
  import opened TopRows
  import KnnAnswer

  /** A KNN query: its constraints, the terms found among them, their right-hand sides with every
      list in full, and SQLite's verdict on the constraints that only SQLite can judge. */
  datatype Request = Request(
    layout: Layout,
    cs: seq<Constraint>,
    orderBy: seq<OrderBy>,
    terms: Terms,
    values: seq<Rhs>,
    other: (nat, Hit, Row) -> bool)

  /** The constraints of the WHERE clause: all but MATCH and the one that gives k. OFFSET is no
      part of it, SQLite skips the first rows of the answer. */
  predicate InWhere(w: Request, j: nat) {
    j < |w.cs| && j != w.terms.match_ && j != KTermOf(w.terms) && !Windowing(w.cs[j])
  }

  /** A comparison of the rowid, or of a partition or metadata column. */
  predicate IsPlain(l: Layout, c: Constraint) {
    && c.usable && OpOf(c).Some?
    && (c.column == COLUMN_ID || IsKind(l, c.column, PartitionKind) || IsKind(l, c.column, MetadataKind))
  }

  ghost predicate Meets(w: Request, j: nat, hit: Hit, row: Row)
    requires |w.layout.kinds| == |w.layout.idxs| && j < |w.cs| == |w.values|
  {
    if IsPlain(w.layout, w.cs[j]) then Satisfies(w.layout, w.cs[j], w.values[j], hit.rowid, row)
    else w.other(j, hit, row)
  }

  ghost predicate Where(w: Request, hit: Hit, row: Row)
    requires |w.layout.kinds| == |w.layout.idxs| && |w.cs| == |w.values|
  {
    forall j: nat | InWhere(w, j) :: Meets(w, j, hit, row)
  }

  /** The part that SQLite tests on each row that comes back. */
  ghost predicate Rechecked(w: Request, omitted: set<nat>, hit: Hit, row: Row)
    requires |w.layout.kinds| == |w.layout.idxs| && |w.cs| == |w.values|
  {
    forall j: nat | InWhere(w, j) && j !in omitted :: Meets(w, j, hit, row)
  }

  /** The table decides the whole WHERE clause. */
  predicate Covered(w: Request) {
    forall j | 0 <= j < |w.cs| && InWhere(w, j) :: TakenOver(w.layout, w.cs[j])
  }

  /** The distance of every row from the query vector. */
  ghost function RowDistances(w: Request, rows: map<int, Row>, distance: (Vector, seq<bv8>) -> int): (d: map<int, int>)
    requires Measurable(w, rows)
    ensures d.Keys == rows.Keys
  {
    var m := w.terms.match_;
    KnnAnswer.DistanceMap(rows, ToIdx(w.layout, w.cs[m].column),
      KnnAnswer.MetricOf(w.values[m].x.asVector.value, distance))
  }

  /** There is a query vector, and every row has a vector in its column. */
  ghost predicate Measurable(w: Request, rows: map<int, Row>) {
    var m := w.terms.match_;
    && |w.layout.kinds| == |w.layout.idxs| && 0 <= m < |w.cs| == |w.values|
    && IsKind(w.layout, w.cs[m].column, VectorKind) && w.values[m].One? && w.values[m].x.asVector.Some?
    && forall r | r in rows :: ToIdx(w.layout, w.cs[m].column) < |rows[r].vectors|
  }

  /** The query was accepted. */
  ghost predicate QueryAccepted(w: Request, s: TableSchema) {
    && Agree(w.layout, s) && Scanned(w.layout, w.cs, |w.cs|, w.terms) && FixedOk(w.layout, w.cs, w.terms)
    && KnnAccepted(w.layout, s.metadata, w.cs, w.orderBy, w.terms)
  }

  /** A list stands behind every `in` and nowhere else, and k is a single value. */
  ghost predicate AsWritten(w: Request) {
    && |w.values| == |w.cs| && (forall j: nat | j < |w.cs| :: w.values[j].Many? <==> w.cs[j].op == CEq && w.cs[j].isIn)
    && 0 <= KTermOf(w.terms) < |w.cs| && w.values[KTermOf(w.terms)].One?
  }

  function KOf(w: Request): int
    requires 0 <= KTermOf(w.terms) < |w.values| && w.values[KTermOf(w.terms)].One?
  {
    w.values[KTermOf(w.terms)].x.asInt
  }

  /** A request that the table answers, given its rows and the constraints taken over. */
  ghost predicate Answerable(w: Request, s: TableSchema, rows: map<int, Row>, omitted: set<nat>) {
    && QueryAccepted(w, s) && AsWritten(w) && Carried(w.layout, w.cs, omitted, w.terms)
    && Measurable(w, rows) && 0 <= KOf(w) && forall r | r in rows :: Shape(w.layout, rows[r])
  }

  // ----- scans -----

  /** SQLite hands over the values of this list one by one. */
  predicate Looped(w: Request, j: nat)
    requires j < |w.cs| == |w.values|
  {
    w.values[j].Many? && !WantsList(w.layout, w.cs[j])
  }

  /** What is never handed over. */
  const UNUSED := Operand(Null, 0, 0.0, [], None)

  /** One value of each list that the table did not ask for, and everything else as it is. */
  ghost predicate IsScan(w: Request, omitted: set<nat>, rhs: seq<Rhs>)
    requires |w.cs| == |w.values|
  {
    && |rhs| == |w.values|
    && forall j: nat | j < |w.values| ::
         if !Looped(w, j) then rhs[j] == w.values[j]
         else if j in omitted then rhs[j].One? && rhs[j].x in w.values[j].xs
         else rhs[j] == One(UNUSED)
  }

  /** What a scan hands over is what RunQuery asks for. */
  lemma ScanListsAsWanted(w: Request, omitted: set<nat>, rhs: seq<Rhs>)
    requires AsWritten(w) && IsScan(w, omitted, rhs)
    ensures ListsAsWanted(w.layout, w.cs, rhs)
  {
    forall j | 0 <= j < |rhs| ensures rhs[j].Many? <==> WantsList(w.layout, w.cs[j]) {
      assert Looped(w, j) || rhs[j] == w.values[j];
    }
  }

  /** The scans differ in a value that both pass on. */
  ghost predicate Apart(w: Request, omitted: set<nat>, a: seq<Rhs>, b: seq<Rhs>)
    requires |w.cs| == |w.values| == |a| == |b|
  {
    exists j: nat :: j < |w.cs| && j in omitted && Looped(w, j) && a[j].One? && b[j].One?
      && !SqlTrue(EQ, a[j].x.v, b[j].x.v)
  }

  /** One run of the plan, with its arguments and its hits. */
  datatype Run = Run(rhs: seq<Rhs>, q: Query, hits: seq<Hit>)

  /** The run did what RunQuery promises, over a table without exceptional rows. */
  ghost predicate Ran(w: Request, s: TableSchema, rows: map<int, Row>, omitted: set<nat>,
                      distance: (Vector, seq<bv8>) -> int, run: Run) {
    && Agree(w.layout, s) && KnnAnswer.TypedRows(s, rows) && |w.cs| == |w.values| && IsScan(w, omitted, run.rhs)
    && AnswersPlan(w.layout, s, rows, w.cs, omitted, w.terms, run.rhs, run.q, distance, Some(run.hits))
    && forall r | r in rows :: KnnAnswer.Unexceptional(s, run.q, r, rows[r])
  }

  /** An answer of RunQuery to a scan is such a run of an answerable request. */
  lemma AnswerIsRun(w: Request, s: TableSchema, rows: map<int, Row>, omitted: set<nat>,
                    distance: (Vector, seq<bv8>) -> int, run: Run)
    requires Agree(w.layout, s) && KnnAnswer.TypedRows(s, rows) && AsWritten(w) && IsScan(w, omitted, run.rhs)
    requires Scanned(w.layout, w.cs, |w.cs|, w.terms) && KnnAccepted(w.layout, s.metadata, w.cs, w.orderBy, w.terms)
    requires Carried(w.layout, w.cs, omitted, w.terms)
    requires AnswersPlan(w.layout, s, rows, w.cs, omitted, w.terms, run.rhs, run.q, distance, Some(run.hits))
    requires forall r | r in rows :: Shape(w.layout, rows[r]) && KnnAnswer.Unexceptional(s, run.q, r, rows[r])
    ensures Answerable(w, s, rows, omitted) && Ran(w, s, rows, omitted, distance, run)
  {
    assert !Looped(w, w.terms.match_) && !Looped(w, KTermOf(w.terms));
  }

  /** All scans, each once. */
  ghost predicate AllScans(w: Request, omitted: set<nat>, runs: seq<Run>)
    requires |w.cs| == |w.values|
  {
    && (forall i | 0 <= i < |runs| :: IsScan(w, omitted, runs[i].rhs))
    && (forall rhs | IsScan(w, omitted, rhs) :: exists i :: 0 <= i < |runs| && runs[i].rhs == rhs)
    && forall i, j | 0 <= i < j < |runs| :: Apart(w, omitted, runs[i].rhs, runs[j].rhs)
  }

  // ----- the rows -----

  ghost function WhereRows(w: Request, rows: map<int, Row>, distance: (Vector, seq<bv8>) -> int): set<int>
    requires Measurable(w, rows)
  {
    set r | r in rows && Where(w, Hit(RowDistances(w, rows, distance)[r], r), rows[r])
  }

  /** The rows that one scan can find. */
  ghost function PassedRows(w: Request, rows: map<int, Row>, omitted: set<nat>, rhs: seq<Rhs>): set<int>
    requires |w.layout.kinds| == |w.layout.idxs| && |rhs| == |w.cs|
  {
    OmittedRows(w.layout, w.cs, omitted, rhs, rows)
  }

  /** Those of them that satisfy the rest. */
  ghost function ScanRows(w: Request, rows: map<int, Row>, distance: (Vector, seq<bv8>) -> int, omitted: set<nat>,
                          rhs: seq<Rhs>): set<int>
    requires Measurable(w, rows) && |rhs| == |w.cs|
  {
    set r | r in PassedRows(w, rows, omitted, rhs)
      && Rechecked(w, omitted, Hit(RowDistances(w, rows, distance)[r], r), rows[r])
  }

  /** SQLite's test. */
  ghost function Recheck(w: Request, rows: map<int, Row>, omitted: set<nat>): Hit -> bool
    requires |w.layout.kinds| == |w.layout.idxs| && |w.cs| == |w.values|
  {
    (h: Hit) => h.rowid in rows && Rechecked(w, omitted, h, rows[h.rowid])
  }

  /** What the user sees of one scan. */
  ghost function Seen(w: Request, rows: map<int, Row>, omitted: set<nat>, hits: seq<Hit>): seq<Hit>
    requires |w.layout.kinds| == |w.layout.idxs| && |w.cs| == |w.values|
  {
    Kept(hits, Recheck(w, rows, omitted))
  }

  // ----- one scan -----

  lemma RunIsTopK(w: Request, s: TableSchema, rows: map<int, Row>, omitted: set<nat>,
                  distance: (Vector, seq<bv8>) -> int, run: Run)
    requires Answerable(w, s, rows, omitted) && Ran(w, s, rows, omitted, distance, run)
    ensures KnnAnswer.IsTopKOf(run.hits, KOf(w), PassedRows(w, rows, omitted, run.rhs), RowDistances(w, rows, distance))
  {
    PlanAsSql(w.layout, s, rows, w.cs, omitted, w.terms, run.rhs, run.q, distance, Some(run.hits));
    assert !Looped(w, w.terms.match_) && !Looped(w, KTermOf(w.terms));
  }

  /** What the user sees of a scan: of the nearest k rows that satisfy the constraints taken over,
      those that satisfy the rest. This is the top-k of the rows that satisfy both exactly when
      none of the k is dropped or all rows that satisfy both are among the k. */
  lemma ScanAsSql(w: Request, s: TableSchema, rows: map<int, Row>, omitted: set<nat>,
                  distance: (Vector, seq<bv8>) -> int, run: Run)
    requires Answerable(w, s, rows, omitted) && Ran(w, s, rows, omitted, distance, run)
    ensures var seen, wanted := Seen(w, rows, omitted, run.hits), ScanRows(w, rows, distance, omitted, run.rhs);
            && (forall r :: KnnAnswer.Returned(seen, r) <==> r in wanted && KnnAnswer.Returned(run.hits, r))
            && (KnnAnswer.IsTopKOf(seen, KOf(w), wanted, RowDistances(w, rows, distance))
                <==> seen == run.hits || forall r | r in wanted :: KnnAnswer.Returned(run.hits, r))
  {
    RunIsTopK(w, s, rows, omitted, distance, run);
    var keep, d := Recheck(w, rows, omitted), RowDistances(w, rows, distance);
    var passed, wanted := PassedRows(w, rows, omitted, run.rhs), ScanRows(w, rows, distance, omitted, run.rhs);
    forall x | x in passed ensures x in wanted <==> keep(Hit(d[x], x)) { }
    forall r ensures KnnAnswer.Returned(Kept(run.hits, keep), r) <==> r in wanted && KnnAnswer.Returned(run.hits, r) {
      KeptRows(run.hits, KOf(w), passed, wanted, d, keep, r);
    }
    KeptIsTopK(run.hits, KOf(w), passed, wanted, d, keep);
  }

  // ----- the WHERE clause is the part omitted and the part tested again -----

  /** MATCH and the constraint that gives k are no part of the WHERE clause, all else that is
      omitted is. */
  lemma OmittedInWhere(w: Request, s: TableSchema, omitted: set<nat>, j: nat)
    requires QueryAccepted(w, s) && Carried(w.layout, w.cs, omitted, w.terms) && j < |w.cs| && j in omitted
    ensures Selects(w.layout, w.cs[j]) <==> InWhere(w, j)
    ensures InWhere(w, j) ==> IsPlain(w.layout, w.cs[j])
  {
    var l, c := w.layout, w.cs[j];
    if IsPartition(l, c) { HelpersInvert(l, c.column, c.column, PartitionKind); }
    if IsMetadata(l, c) {
      HelpersInvert(l, c.column, c.column, MetadataKind);
      assert MetadataAdmitted(l, s.metadata, c);
    }
  }

  lemma WhereSplits(w: Request, s: TableSchema, omitted: set<nat>, hit: Hit, row: Row)
    requires QueryAccepted(w, s) && AsWritten(w) && Carried(w.layout, w.cs, omitted, w.terms)
    ensures Where(w, hit, row) <==>
      AllOmitted(w.layout, w.cs, omitted, w.values, hit.rowid, row) && Rechecked(w, omitted, hit, row)
  {
    forall j: nat | j < |w.cs| && j in omitted
      ensures Selects(w.layout, w.cs[j]) <==> InWhere(w, j)
      ensures InWhere(w, j) ==> (Meets(w, j, hit, row) <==> Satisfies(w.layout, w.cs[j], w.values[j], hit.rowid, row))
    {
      OmittedInWhere(w, s, omitted, j);
    }
  }

  /** Without lists to loop over there is one scan. */
  lemma OneScan(w: Request, s: TableSchema, rows: map<int, Row>, omitted: set<nat>,
                distance: (Vector, seq<bv8>) -> int, rhs: seq<Rhs>)
    requires Answerable(w, s, rows, omitted) && IsScan(w, omitted, rhs)
    requires forall j: nat | j < |w.cs| :: !Looped(w, j)
    ensures rhs == w.values && ScanRows(w, rows, distance, omitted, rhs) == WhereRows(w, rows, distance)
  {
    var d := RowDistances(w, rows, distance);
    forall r | r in rows
      ensures r in ScanRows(w, rows, distance, omitted, w.values) <==> r in WhereRows(w, rows, distance)
    {
      WhereSplits(w, s, omitted, Hit(d[r], r), rows[r]);
    }
  }

  /** Nothing is left to test. */
  lemma NothingRechecked(w: Request, s: TableSchema, rows: map<int, Row>, omitted: set<nat>,
                         distance: (Vector, seq<bv8>) -> int, run: Run)
    requires Answerable(w, s, rows, omitted) && Ran(w, s, rows, omitted, distance, run) && Covered(w)
    ensures Seen(w, rows, omitted, run.hits) == run.hits
    ensures ScanRows(w, rows, distance, omitted, run.rhs) == PassedRows(w, rows, omitted, run.rhs)
  {
    RunIsTopK(w, s, rows, omitted, distance, run);
    forall h, row ensures Rechecked(w, omitted, h, row) { }
    KeptAll(run.hits, Recheck(w, rows, omitted));
  }

  /** When every constraint of the WHERE clause is `rowid in`, a comparison of a partition column
      or a metadata constraint, and no partition column has a list, the user sees the top-k of
      the rows that satisfy the WHERE clause. */
  lemma CoveredAsSql(w: Request, s: TableSchema, rows: map<int, Row>, omitted: set<nat>,
                     distance: (Vector, seq<bv8>) -> int, run: Run)
    requires Answerable(w, s, rows, omitted) && Ran(w, s, rows, omitted, distance, run) && Covered(w)
    requires forall j: nat | j < |w.cs| :: w.values[j].Many? ==> !IsPartition(w.layout, w.cs[j])
    ensures KnnAnswer.IsTopKOf(Seen(w, rows, omitted, run.hits), KOf(w), WhereRows(w, rows, distance),
                               RowDistances(w, rows, distance))
  {
    forall j: nat | j < |w.cs| ensures !Looped(w, j) {
      if w.values[j].Many? {
        if InWhere(w, j) { assert TakenOver(w.layout, w.cs[j]); }
      }
    }
    CoveredScan(w, s, rows, omitted, distance, run);
    OneScan(w, s, rows, omitted, distance, run.rhs);
  }

  // ----- rows lost because nearer ones were dropped -----

  /** No two rows are equally far. */
  ghost predicate NoTies(rows: set<int>, d: map<int, int>)
    requires rows <= d.Keys
  {
    forall a, b | a in rows && b in rows && a != b :: d[a] != d[b]
  }

  /** Fewer than k of the rows that one scan can find are nearer. */
  ghost predicate AmongNearest(w: Request, rows: map<int, Row>, omitted: set<nat>,
                               distance: (Vector, seq<bv8>) -> int, rhs: seq<Rhs>, r: int)
    requires Measurable(w, rows) && 0 <= KTermOf(w.terms) < |w.values| && w.values[KTermOf(w.terms)].One?
    requires |rhs| == |w.cs| && r in rows
  {
    |Nearer(PassedRows(w, rows, omitted, rhs), RowDistances(w, rows, distance), r)| < KOf(w)
  }

  lemma ReturnedIffNearest(w: Request, s: TableSchema, rows: map<int, Row>, omitted: set<nat>,
                           distance: (Vector, seq<bv8>) -> int, run: Run, r: int)
    requires Answerable(w, s, rows, omitted) && Ran(w, s, rows, omitted, distance, run)
    requires r in PassedRows(w, rows, omitted, run.rhs)
    ensures KnnAnswer.Returned(run.hits, r) ==> AmongNearest(w, rows, omitted, distance, run.rhs, r)
    ensures NoTies(PassedRows(w, rows, omitted, run.rhs), RowDistances(w, rows, distance)) ==>
      (KnnAnswer.Returned(run.hits, r) <==> AmongNearest(w, rows, omitted, distance, run.rhs, r))
  {
    RunIsTopK(w, s, rows, omitted, distance, run);
    var passed, d := PassedRows(w, rows, omitted, run.rhs), RowDistances(w, rows, distance);
    ReturnedByRank(run.hits, KOf(w), passed, d, r);
    if NoTies(passed, d) { assert NoFarther(passed, d, r) == Nearer(passed, d, r); }
  }

  /** The same in terms of the rows. Without ties the answer is right exactly when all of the
      nearest k rows of the scan satisfy the rest, or all rows that satisfy it are among them. */
  lemma ScanExactIff(w: Request, s: TableSchema, rows: map<int, Row>, omitted: set<nat>,
                     distance: (Vector, seq<bv8>) -> int, run: Run)
    requires Answerable(w, s, rows, omitted) && Ran(w, s, rows, omitted, distance, run)
    requires NoTies(PassedRows(w, rows, omitted, run.rhs), RowDistances(w, rows, distance))
    ensures var passed, wanted :=
              PassedRows(w, rows, omitted, run.rhs), ScanRows(w, rows, distance, omitted, run.rhs);
            KnnAnswer.IsTopKOf(Seen(w, rows, omitted, run.hits), KOf(w), wanted, RowDistances(w, rows, distance)) <==>
              || (forall r | r in passed && AmongNearest(w, rows, omitted, distance, run.rhs, r) :: r in wanted)
              || (forall r | r in wanted :: AmongNearest(w, rows, omitted, distance, run.rhs, r))
  {
    var passed, wanted := PassedRows(w, rows, omitted, run.rhs), ScanRows(w, rows, distance, omitted, run.rhs);
    ScanAsSql(w, s, rows, omitted, distance, run);
    RunIsTopK(w, s, rows, omitted, distance, run);
    forall r | r in passed
      ensures KnnAnswer.Returned(run.hits, r) <==> AmongNearest(w, rows, omitted, distance, run.rhs, r)
    {
      ReturnedIffNearest(w, s, rows, omitted, distance, run, r);
    }
    NoneDropped(run.hits, Recheck(w, rows, omitted), KOf(w), passed, wanted, RowDistances(w, rows, distance));
  }

  /** With `rowid = x` besides: the row comes back when fewer than k rows are no farther, and
      nothing comes back when k rows are nearer. */
  lemma RowidEquals(w: Request, s: TableSchema, rows: map<int, Row>, omitted: set<nat>,
                    distance: (Vector, seq<bv8>) -> int, run: Run, j: nat, x: int)
    requires Answerable(w, s, rows, omitted) && Ran(w, s, rows, omitted, distance, run)
    requires j < |w.cs| && IsRowid(w.cs[j]) && w.values[j].One? && w.values[j].x.v == Integer(x)
    requires x in ScanRows(w, rows, distance, omitted, run.rhs)
    ensures var passed, d := PassedRows(w, rows, omitted, run.rhs), RowDistances(w, rows, distance);
            var seen := Seen(w, rows, omitted, run.hits);
            && (|NoFarther(passed, d, x)| < KOf(w) ==> seen == [Hit(d[x], x)])
            && (|Nearer(passed, d, x)| >= KOf(w) ==> seen == [])
  {
    var passed, d := PassedRows(w, rows, omitted, run.rhs), RowDistances(w, rows, distance);
    RunIsTopK(w, s, rows, omitted, distance, run);
    RowidDecides(w, s, rows, omitted, distance, run.rhs, j, x);
    ReturnedByRank(run.hits, KOf(w), passed, d, x);
    OnlyHit(run.hits, KOf(w), passed, x, d, Recheck(w, rows, omitted));
  }

  lemma RowidDecides(w: Request, s: TableSchema, rows: map<int, Row>, omitted: set<nat>,
                     distance: (Vector, seq<bv8>) -> int, rhs: seq<Rhs>, j: nat, x: int)
    requires Answerable(w, s, rows, omitted) && |rhs| == |w.cs| && x in ScanRows(w, rows, distance, omitted, rhs)
    requires j < |w.cs| && IsRowid(w.cs[j]) && w.values[j].One? && w.values[j].x.v == Integer(x)
    ensures var d := RowDistances(w, rows, distance);
      forall r | r in PassedRows(w, rows, omitted, rhs) :: r == x <==> Recheck(w, rows, omitted)(Hit(d[r], r))
  {
    var d := RowDistances(w, rows, distance);
    forall r | r in PassedRows(w, rows, omitted, rhs) && Recheck(w, rows, omitted)(Hit(d[r], r)) ensures r == x {
      OnlyRowid(w, s, omitted, j, x, Hit(d[r], r), rows[r]);
    }
  }

  /** `rowid = x` is not taken over. */
  lemma OnlyRowid(w: Request, s: TableSchema, omitted: set<nat>, j: nat, x: int, hit: Hit, row: Row)
    requires QueryAccepted(w, s) && AsWritten(w) && Carried(w.layout, w.cs, omitted, w.terms)
    requires j < |w.cs| && IsRowid(w.cs[j]) && w.values[j].One? && w.values[j].x.v == Integer(x)
    requires Rechecked(w, omitted, hit, row)
    ensures j !in omitted && hit.rowid == x
  {
    assert InWhere(w, j) && IsPlain(w.layout, w.cs[j]);
    assert Meets(w, j, hit, row);
  }

  // ----- several scans -----

  lemma EqualToBoth(v: SqlValue, a: SqlValue, b: SqlValue)
    requires SqlTrue(EQ, v, a) && SqlTrue(EQ, v, b)
    ensures SqlTrue(EQ, a, b)
  {
  }

  /** What a scan passes on for constraint j, when it can find this row. */
  ghost function ValueFor(w: Request, omitted: set<nat>, j: nat, rowid: int, row: Row): (r: Rhs)
    requires |w.layout.kinds| == |w.layout.idxs| && j < |w.cs| == |w.values|
    requires j in omitted && Looped(w, j) ==> Satisfies(w.layout, w.cs[j], w.values[j], rowid, row)
  {
    if !Looped(w, j) then w.values[j]
    else if j !in omitted then One(UNUSED)
    else
      var v, xs := PlanQuery.ValueOf(w.layout, w.cs[j].column, rowid, row), w.values[j].xs;
      var i :| 0 <= i < |xs| && SqlTrue(EQ, v, xs[i].v);
      One(xs[i])
  }

  /** A row that satisfies the WHERE clause is found by some scan. */
  lemma SomeScan(w: Request, s: TableSchema, omitted: set<nat>, rowid: int, row: Row) returns (rhs: seq<Rhs>)
    requires QueryAccepted(w, s) && AsWritten(w) && Carried(w.layout, w.cs, omitted, w.terms)
    requires AllOmitted(w.layout, w.cs, omitted, w.values, rowid, row)
    ensures IsScan(w, omitted, rhs) && AllOmitted(w.layout, w.cs, omitted, rhs, rowid, row)
  {
    forall j: nat | j < |w.cs| && j in omitted && Looped(w, j)
      ensures Satisfies(w.layout, w.cs[j], w.values[j], rowid, row)
    {
      assert Selects(w.layout, w.cs[j]) by {
        LoopedIsPartition(w, s, omitted, j);
        HelpersInvert(w.layout, w.cs[j].column, w.cs[j].column, PartitionKind);
      }
    }
    rhs := seq(|w.values|, j requires 0 <= j < |w.values| => ValueFor(w, omitted, j, rowid, row));
  }

  /** Only `in` on partition columns is looped over. */
  lemma LoopedIsPartition(w: Request, s: TableSchema, omitted: set<nat>, j: nat)
    requires QueryAccepted(w, s) && AsWritten(w) && Carried(w.layout, w.cs, omitted, w.terms)
    requires j < |w.cs| && j in omitted && Looped(w, j)
    ensures IsPartition(w.layout, w.cs[j]) && OpOf(w.cs[j]) == Some(EQ)
  {
  }

  lemma ScanIsPart(w: Request, s: TableSchema, omitted: set<nat>, rhs: seq<Rhs>, rowid: int, row: Row)
    requires QueryAccepted(w, s) && AsWritten(w) && Carried(w.layout, w.cs, omitted, w.terms)
    requires IsScan(w, omitted, rhs) && AllOmitted(w.layout, w.cs, omitted, rhs, rowid, row)
    ensures AllOmitted(w.layout, w.cs, omitted, w.values, rowid, row)
  {
    forall j: nat | j < |w.cs| && j in omitted && Selects(w.layout, w.cs[j])
      ensures Satisfies(w.layout, w.cs[j], w.values[j], rowid, row)
    {
      if Looped(w, j) {
        LoopedIsPartition(w, s, omitted, j);
        var i :| 0 <= i < |w.values[j].xs| && w.values[j].xs[i] == rhs[j].x;
      }
    }
  }

  lemma ApartIsDisjoint(w: Request, s: TableSchema, omitted: set<nat>, a: seq<Rhs>, b: seq<Rhs>, rowid: int, row: Row)
    requires QueryAccepted(w, s) && AsWritten(w) && Carried(w.layout, w.cs, omitted, w.terms)
    requires |a| == |b| == |w.cs| && Apart(w, omitted, a, b)
    ensures !AllOmitted(w.layout, w.cs, omitted, a, rowid, row) || !AllOmitted(w.layout, w.cs, omitted, b, rowid, row)
  {
    var j: nat :| j < |w.cs| && j in omitted && Looped(w, j) && a[j].One? && b[j].One? && !SqlTrue(EQ, a[j].x.v, b[j].x.v);
    LoopedIsPartition(w, s, omitted, j);
    HelpersInvert(w.layout, w.cs[j].column, w.cs[j].column, PartitionKind);
    var v := PlanQuery.ValueOf(w.layout, w.cs[j].column, rowid, row);
    if SqlTrue(EQ, v, a[j].x.v) && SqlTrue(EQ, v, b[j].x.v) { EqualToBoth(v, a[j].x.v, b[j].x.v); }
  }

  ghost function RowsOfScans(w: Request, rows: map<int, Row>, distance: (Vector, seq<bv8>) -> int, omitted: set<nat>,
                             runs: seq<Run>): (sets: seq<set<int>>)
    requires Measurable(w, rows) && AllScans(w, omitted, runs)
    ensures |sets| == |runs| && forall i | 0 <= i < |runs| :: sets[i] == ScanRows(w, rows, distance, omitted, runs[i].rhs)
  {
    seq(|runs|, i requires 0 <= i < |runs| => ScanRows(w, rows, distance, omitted, runs[i].rhs))
  }

  ghost function SeenOfScans(w: Request, rows: map<int, Row>, omitted: set<nat>, runs: seq<Run>): (parts: seq<seq<Hit>>)
    requires |w.layout.kinds| == |w.layout.idxs| && |w.cs| == |w.values|
    ensures |parts| == |runs| && forall i | 0 <= i < |runs| :: parts[i] == Seen(w, rows, omitted, runs[i].hits)
  {
    seq(|runs|, i requires 0 <= i < |runs| => Seen(w, rows, omitted, runs[i].hits))
  }

  lemma InSomeScan(w: Request, s: TableSchema, rows: map<int, Row>, omitted: set<nat>,
                   distance: (Vector, seq<bv8>) -> int, runs: seq<Run>, r: int)
    requires Answerable(w, s, rows, omitted) && AllScans(w, omitted, runs) && r in WhereRows(w, rows, distance)
    ensures exists i :: 0 <= i < |runs| && r in ScanRows(w, rows, distance, omitted, runs[i].rhs)
  {
    WhereSplits(w, s, omitted, Hit(RowDistances(w, rows, distance)[r], r), rows[r]);
    var rhs := SomeScan(w, s, omitted, r, rows[r]);
    var i :| 0 <= i < |runs| && runs[i].rhs == rhs;
  }

  lemma ScanWithin(w: Request, s: TableSchema, rows: map<int, Row>, omitted: set<nat>,
                   distance: (Vector, seq<bv8>) -> int, rhs: seq<Rhs>)
    requires Answerable(w, s, rows, omitted) && IsScan(w, omitted, rhs)
    ensures ScanRows(w, rows, distance, omitted, rhs) <= WhereRows(w, rows, distance)
  {
    forall r | r in ScanRows(w, rows, distance, omitted, rhs) ensures r in WhereRows(w, rows, distance) {
      WhereSplits(w, s, omitted, Hit(RowDistances(w, rows, distance)[r], r), rows[r]);
      ScanIsPart(w, s, omitted, rhs, r, rows[r]);
    }
  }

  lemma ScansDisjoint(w: Request, s: TableSchema, rows: map<int, Row>, omitted: set<nat>,
                      distance: (Vector, seq<bv8>) -> int, a: seq<Rhs>, b: seq<Rhs>)
    requires Answerable(w, s, rows, omitted) && |a| == |b| == |w.cs| && Apart(w, omitted, a, b)
    ensures ScanRows(w, rows, distance, omitted, a) !! ScanRows(w, rows, distance, omitted, b)
  {
    forall r | r in ScanRows(w, rows, distance, omitted, a) ensures r !in ScanRows(w, rows, distance, omitted, b) {
      ApartIsDisjoint(w, s, omitted, a, b, r, rows[r]);
    }
  }

  /** Every row that satisfies the WHERE clause is found by one scan, and no other row by any. */
  lemma ScansDivideWhere(w: Request, s: TableSchema, rows: map<int, Row>, omitted: set<nat>,
                        distance: (Vector, seq<bv8>) -> int, runs: seq<Run>)
    requires Answerable(w, s, rows, omitted) && AllScans(w, omitted, runs)
    ensures Divides(RowsOfScans(w, rows, distance, omitted, runs), WhereRows(w, rows, distance))
  {
    var sets := RowsOfScans(w, rows, distance, omitted, runs);
    forall i | 0 <= i < |sets| ensures sets[i] <= WhereRows(w, rows, distance) {
      ScanWithin(w, s, rows, omitted, distance, runs[i].rhs);
    }
    forall i, j | 0 <= i < j < |sets| ensures sets[i] !! sets[j] {
      ScansDisjoint(w, s, rows, omitted, distance, runs[i].rhs, runs[j].rhs);
    }
    forall r | r in WhereRows(w, rows, distance) ensures exists i :: 0 <= i < |sets| && r in sets[i] {
      InSomeScan(w, s, rows, omitted, distance, runs, r);
      var i :| 0 <= i < |runs| && r in ScanRows(w, rows, distance, omitted, runs[i].rhs);
      assert r in sets[i];
    }
  }

  /** With a list on a partition column each of its values has a scan with a k of its own. What the
      user sees, in order of distance, is the top-k of the rows that satisfy the WHERE clause
      exactly when they are at most k, or all of one scan, or k is 0. */
  lemma ScansAsSql(w: Request, s: TableSchema, rows: map<int, Row>, omitted: set<nat>,
                   distance: (Vector, seq<bv8>) -> int, runs: seq<Run>, all: seq<Hit>)
    requires Answerable(w, s, rows, omitted) && AllScans(w, omitted, runs)
    requires forall i | 0 <= i < |runs| :: Ran(w, s, rows, omitted, distance, runs[i])
    requires Covered(w) && IsMerged(all, SeenOfScans(w, rows, omitted, runs))
    ensures var wanted := WhereRows(w, rows, distance);
            KnnAnswer.IsTopKOf(all, KOf(w), wanted, RowDistances(w, rows, distance)) <==>
              KOf(w) == 0 || |wanted| <= KOf(w)
              || exists i :: 0 <= i < |runs| && wanted <= RowsOfScans(w, rows, distance, omitted, runs)[i]
  {
    var wanted, d := WhereRows(w, rows, distance), RowDistances(w, rows, distance);
    var sets, parts := RowsOfScans(w, rows, distance, omitted, runs), SeenOfScans(w, rows, omitted, runs);
    ScansDivide(w, s, rows, omitted, distance, runs);
    MergedIsTopK(all, parts, sets, KOf(w), wanted, d);
    MergedFits(all, parts, sets, KOf(w), wanted, d);
  }

  lemma ScansDivide(w: Request, s: TableSchema, rows: map<int, Row>, omitted: set<nat>,
                    distance: (Vector, seq<bv8>) -> int, runs: seq<Run>)
    requires Answerable(w, s, rows, omitted) && AllScans(w, omitted, runs) && Covered(w)
    requires forall i | 0 <= i < |runs| :: Ran(w, s, rows, omitted, distance, runs[i])
    ensures Divided(SeenOfScans(w, rows, omitted, runs), RowsOfScans(w, rows, distance, omitted, runs), KOf(w),
                    WhereRows(w, rows, distance), RowDistances(w, rows, distance))
  {
    var sets, parts := RowsOfScans(w, rows, distance, omitted, runs), SeenOfScans(w, rows, omitted, runs);
    ScansDivideWhere(w, s, rows, omitted, distance, runs);
    forall i | 0 <= i < |runs| ensures KnnAnswer.IsTopKOf(parts[i], KOf(w), sets[i], RowDistances(w, rows, distance)) {
      CoveredScan(w, s, rows, omitted, distance, runs[i]);
    }
  }

  lemma CoveredScan(w: Request, s: TableSchema, rows: map<int, Row>, omitted: set<nat>,
                    distance: (Vector, seq<bv8>) -> int, run: Run)
    requires Answerable(w, s, rows, omitted) && Ran(w, s, rows, omitted, distance, run) && Covered(w)
    ensures KnnAnswer.IsTopKOf(Seen(w, rows, omitted, run.hits), KOf(w),
                               ScanRows(w, rows, distance, omitted, run.rhs), RowDistances(w, rows, distance))
  {
    RunIsTopK(w, s, rows, omitted, distance, run);
    NothingRechecked(w, s, rows, omitted, distance, run);
  }
}
