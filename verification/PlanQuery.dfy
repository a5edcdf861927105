/** From the plan to the answer: the query that a plan string and its arguments stand for,
    and why it filters by exactly the constraints SQLite was told not to check again. */
module PlanQuery {
  import opened Schema
  import opened Store
  import opened Filters
  import opened Operands
  import opened Columns
  import opened QueryPlan
  import opened PlanReader
  import opened KnnQuery
  import opened TopK
  import KnnAnswer

  // ----- reading a plan -----

  /** The last block of a kind among the first n, or -1. */
  function LastBlock(idxStr: seq<char>, n: nat, kind: char): (at: int)
    requires |idxStr| >= 1 + 4 * n
    ensures IsLastBlock(idxStr, n, kind, at)
  {
    if n == 0 then -1
    else if Block(idxStr, n - 1)[0] == kind then n - 1
    else LastBlock(idxStr, n - 1, kind)
  }

  /** The argument has the form its block calls for. */
  predicate BlockOk(block: seq<char>, rhs: Rhs)
    requires |block| == 4
  {
    match Decode(block)
    case Some(QueryVector) => rhs.One?
    case Some(K) => rhs.One?
    case Some(RowidList) => rhs.Many?
    case Some(Partition(_, op)) => rhs.One? && op != IN
    case Some(Metadata(_, op)) => rhs.Many? <==> op == IN
    case _ => false
  }

  /** What vec0Filter_knn takes for granted about its plan. */
  ghost predicate Readable(idxStr: seq<char>, argv: seq<Rhs>) {
    && PlanOk(idxStr, |argv|)
    && (forall i | 0 <= i < |argv| :: BlockOk(Block(idxStr, i), argv[i]))
    && LastBlock(idxStr, |argv|, '{') >= 0 && LastBlock(idxStr, |argv|, '}') >= 0
  }

  function PartitionOf(block: seq<char>, rhs: Rhs): PartitionFilter
    requires |block| == 4 && block[0] == ']' && BlockOk(block, rhs)
  {
    PartitionFilter(ConditionOf(block).idx, ConditionOf(block).op, rhs.x.v)
  }

  function FilterOf(block: seq<char>, rhs: Rhs): MetadataFilter
    requires |block| == 4 && block[0] == '&' && BlockOk(block, rhs)
  {
    MetadataFilter(block[1] as int - 'A' as int, OpOfChar(block[2]).value, rhs)
  }

  function PartitionsOf(idxStr: seq<char>, argv: seq<Rhs>): (r: seq<PartitionFilter>)
    requires PlanOk(idxStr, |argv|) && forall i | 0 <= i < |argv| :: BlockOk(Block(idxStr, i), argv[i])
    ensures var at := Blocks(idxStr, |argv|, ']');
            |r| == |at| && forall m | 0 <= m < |at| :: r[m] == PartitionOf(Block(idxStr, at[m]), argv[at[m]])
  {
    var at := Blocks(idxStr, |argv|, ']');
    seq(|at|, m requires 0 <= m < |at| => PartitionOf(Block(idxStr, at[m]), argv[at[m]]))
  }

  function FiltersOf(idxStr: seq<char>, argv: seq<Rhs>): (r: seq<MetadataFilter>)
    requires PlanOk(idxStr, |argv|) && forall i | 0 <= i < |argv| :: BlockOk(Block(idxStr, i), argv[i])
    ensures var at := Blocks(idxStr, |argv|, '&');
            |r| == |at| && forall m | 0 <= m < |at| :: r[m] == FilterOf(Block(idxStr, at[m]), argv[at[m]])
  {
    var at := Blocks(idxStr, |argv|, '&');
    seq(|at|, m requires 0 <= m < |at| => FilterOf(Block(idxStr, at[m]), argv[at[m]]))
  }

  function RowidsOf(idxStr: seq<char>, argv: seq<Rhs>): Option<seq<Operand>>
    requires PlanOk(idxStr, |argv|) && forall i | 0 <= i < |argv| :: BlockOk(Block(idxStr, i), argv[i])
  {
    var at := LastBlock(idxStr, |argv|, '[');
    if at >= 0 then
      assert Decode(Block(idxStr, at)) == Some(RowidList) && BlockOk(Block(idxStr, at), argv[at]);
      Some(argv[at].xs)
    else None
  }

  /** The argument of the last block of one of the two kinds that carry a single value. */
  function ValueAt(idxStr: seq<char>, argv: seq<Rhs>, kind: char): Operand
    requires Readable(idxStr, argv) && (kind == '{' || kind == '}')
  {
    var at := LastBlock(idxStr, |argv|, kind);
    assert BlockOk(Block(idxStr, at), argv[at]) && Block(idxStr, at)[0] == kind;
    argv[at].x
  }

  /** The query that a plan string and its arguments stand for. */
  ghost function QueryOf(idxNum: nat, idxStr: seq<char>, argv: seq<Rhs>): Query
    requires Readable(idxStr, argv)
  {
    Query(idxNum, ValueAt(idxStr, argv, '}').asInt, RowidsOf(idxStr, argv),
          PartitionsOf(idxStr, argv), FiltersOf(idxStr, argv))
  }

  lemma LastIsLast(idxStr: seq<char>, n: nat, kind: char, at: int)
    requires |idxStr| >= 1 + 4 * n && IsLastBlock(idxStr, n, kind, at)
    ensures at == LastBlock(idxStr, n, kind)
  {
  }

  /** The loop that reads the metadata blocks. */
  method ReadFilters(idxStr: seq<char>, argv: seq<Rhs>) returns (filters: seq<MetadataFilter>)
    requires Readable(idxStr, argv)
    ensures filters == FiltersOf(idxStr, argv)
  {
    filters := [];
    for i := 0 to |argv|
      invariant var at := Blocks(idxStr, i, '&');
                |filters| == |at| && forall m | 0 <= m < |at| :: filters[m] == FilterOf(Block(idxStr, at[m]), argv[at[m]])
    {
      if idxStr[1 + 4 * i] != '&' { continue; }
      assert BlockOk(Block(idxStr, i), argv[i]);
      filters := filters + [FilterOf(Block(idxStr, i), argv[i])];
    }
  }

  method ReadPartitions(idxStr: seq<char>, argv: seq<Rhs>) returns (partitions: seq<PartitionFilter>)
    requires Readable(idxStr, argv)
    ensures partitions == PartitionsOf(idxStr, argv)
  {
    var ok, where_, binds := ChunksIter(idxStr, |argv|);
    assert ok by {
      forall i | 0 <= i < |argv| && Block(idxStr, i)[0] == ']' ensures PartitionOp(Block(idxStr, i)[2]).Some? {
        assert BlockOk(Block(idxStr, i), argv[i]);
      }
    }
    partitions := [];
    for n := 0 to |binds|
      invariant |partitions| == n
      invariant forall m | 0 <= m < n :: partitions[m] == PartitionOf(Block(idxStr, binds[m]), argv[binds[m]])
    {
      var i := binds[n];
      assert BlockOk(Block(idxStr, i), argv[i]);
      partitions := partitions + [PartitionFilter(where_[n].idx, where_[n].op, argv[i].x.v)];
    }
  }

  /** The part of vec0Filter_knn in front of the scan. */
  method ReadQuery(idxNum: nat, idxStr: seq<char>, argv: seq<Rhs>) returns (q: Query, query: Option<Vector>)
    requires Readable(idxStr, argv)
    ensures q == QueryOf(idxNum, idxStr, argv) && query == ValueAt(idxStr, argv, '{').asVector
  {
    var queryIdx, kIdx, rowidInIdx := FindArguments(idxStr, |argv|);
    LastIsLast(idxStr, |argv|, '{', queryIdx);
    LastIsLast(idxStr, |argv|, '}', kIdx);
    LastIsLast(idxStr, |argv|, '[', rowidInIdx);
    assert BlockOk(Block(idxStr, queryIdx), argv[queryIdx]) && BlockOk(Block(idxStr, kIdx), argv[kIdx]);
    query := argv[queryIdx].x.asVector;
    var rowids := None;
    if rowidInIdx >= 0 {
      assert BlockOk(Block(idxStr, rowidInIdx), argv[rowidInIdx]);
      rowids := Some(argv[rowidInIdx].xs);
    }
    var filters := ReadFilters(idxStr, argv);
    var partitions := ReadPartitions(idxStr, argv);
    q := Query(idxNum, argv[kIdx].x.asInt, rowids, partitions, filters);
  }

  // ----- the plan of an accepted query -----

  /** The declared columns and the schema of the table agree. */
  ghost predicate Agree(l: Layout, s: TableSchema) {
    && Columns.Valid(l) && |s.vectors| == Count(l.kinds, VectorKind)
    && |s.partitions| == Count(l.kinds, PartitionKind) && |s.metadata| == Count(l.kinds, MetadataKind)
  }

  /** The constraints for which the table asks for the whole list of an `in (...)`; all
      others get their values one at a time. */
  predicate WantsList(l: Layout, c: Constraint) {
    IsRowidIn(c) || (IsMetadata(l, c) && MetadataOp(c) == Some(IN))
  }

  ghost predicate ListsAsWanted(l: Layout, cs: seq<Constraint>, rhs: seq<Rhs>) {
    |rhs| == |cs| && forall j | 0 <= j < |rhs| :: rhs[j].Many? <==> WantsList(l, cs[j])
  }

  /** A KNN plan that was accepted, the right-hand sides of all constraints, and the
      arguments SQLite passes for those with an argument number. */
  ghost predicate Planned(l: Layout, s: TableSchema, info: IndexInfo, t: Terms, rhs: seq<Rhs>, argv: seq<Rhs>)
    reads info, info.usage
  {
    && Agree(l, s) && info.Encoded(l) && info.idxStr[0] == PLAN_KNN
    && Scanned(l, info.constraints, |info.constraints|, t) && t.match_ >= 0
    && KnnAccepted(l, s.metadata, info.constraints, info.orderBy, t) && KnnBound(l, info.constraints, t, info.bound)
    && ListsAsWanted(l, info.constraints, rhs)
    && |argv| == |info.bound|
    && (forall j | 0 <= j < |rhs| && info.usage[j].argvIndex > 0 :: info.usage[j].argvIndex <= |argv|)
    && (forall j | 0 <= j < |rhs| && info.usage[j].argvIndex > 0 :: argv[info.usage[j].argvIndex - 1] == rhs[j])
  }

  /** The i-th argument is the right-hand side of the constraint that block i is for. */
  lemma ArgumentIs(l: Layout, s: TableSchema, info: IndexInfo, t: Terms, rhs: seq<Rhs>, argv: seq<Rhs>, i: nat)
    requires Planned(l, s, info, t, rhs, argv) && i < |argv|
    ensures info.bound[i] < |rhs| && argv[i] == rhs[info.bound[i]] && info.usage[info.bound[i]].omit
    ensures RoleOf(l, info.constraints[info.bound[i]]).Some?
    ensures Decode(Block(info.idxStr, i)) == RoleOf(l, info.constraints[info.bound[i]])
  {
    assert info.usage[info.bound[i]] == Usage(i + 1, true);
  }

  /** What a constraint that the plan carries is good for. */
  lemma BoundRole(l: Layout, kinds: seq<MetaKind>, cs: seq<Constraint>, orderBy: seq<OrderBy>, t: Terms, bound: seq<nat>,
                  j: nat)
    requires Columns.Valid(l) && |kinds| == Count(l.kinds, MetadataKind) && Scanned(l, cs, |cs|, t) && t.match_ >= 0
    requires KnnAccepted(l, kinds, cs, orderBy, t) && KnnBound(l, cs, t, bound) && j < |cs| && j in bound
    ensures j in Fixed(t) || IsPartition(l, cs[j]) || IsMetadata(l, cs[j])
    ensures FixedOk(l, cs, t)
    ensures RoleOf(l, cs[j]).Some? && !RoleOf(l, cs[j]).value.PointId?
  {
    FixedTerms(l, cs, t);
    if IsMetadata(l, cs[j]) { assert MetadataAdmitted(l, kinds, cs[j]); }
  }

  lemma RoleBlockOk(l: Layout, c: Constraint, block: seq<char>, rhs: Rhs)
    requires Columns.Valid(l) && |block| == 4 && Decode(block) == RoleOf(l, c) && RoleOf(l, c).Some?
    requires !RoleOf(l, c).value.PointId? && (rhs.Many? <==> WantsList(l, c))
    ensures BlockOk(block, rhs)
  {
    if IsMetadata(l, c) { HelpersInvert(l, c.column, c.column, MetadataKind); }
    if IsPartition(l, c) { HelpersInvert(l, c.column, c.column, PartitionKind); }
    if IsMatch(l, c) { HelpersInvert(l, c.column, c.column, VectorKind); }
  }

  lemma BlockIsOk(l: Layout, s: TableSchema, info: IndexInfo, t: Terms, rhs: seq<Rhs>, argv: seq<Rhs>, i: nat)
    requires Planned(l, s, info, t, rhs, argv) && i < |argv|
    ensures BlockOk(Block(info.idxStr, i), argv[i])
  {
    ArgumentIs(l, s, info, t, rhs, argv, i);
    var j := info.bound[i];
    BoundRole(l, s.metadata, info.constraints, info.orderBy, t, info.bound, j);
    RoleBlockOk(l, info.constraints[j], Block(info.idxStr, i), argv[i]);
  }

  /** The reader can read every accepted plan, and finds its fixed arguments. */
  lemma PlanIsReadable(l: Layout, s: TableSchema, info: IndexInfo, t: Terms, rhs: seq<Rhs>, argv: seq<Rhs>)
    requires Planned(l, s, info, t, rhs, argv)
    ensures Readable(info.idxStr, argv)
    ensures FixedOk(l, info.constraints, t) && rhs[t.match_].One? && rhs[KTermOf(t)].One?
    ensures t.rowidIn >= 0 ==> rhs[t.rowidIn].Many?
    ensures ValueAt(info.idxStr, argv, '{') == rhs[t.match_].x && ValueAt(info.idxStr, argv, '}') == rhs[KTermOf(t)].x
    ensures RowidsOf(info.idxStr, argv) == if t.rowidIn >= 0 then Some(rhs[t.rowidIn].xs) else None
  {
    var n := |argv|;
    FixedTerms(l, info.constraints, t);
    OwnPlanFound(l, info, t, LastBlock(info.idxStr, n, '{'), LastBlock(info.idxStr, n, '}'), LastBlock(info.idxStr, n, '['));
    forall i | 0 <= i < n ensures BlockOk(Block(info.idxStr, i), argv[i]) {
      BlockIsOk(l, s, info, t, rhs, argv, i);
    }
    ArgumentIs(l, s, info, t, rhs, argv, 0);
    ArgumentIs(l, s, info, t, rhs, argv, 1);
    var at := LastBlock(info.idxStr, n, '[');
    if at >= 0 { ArgumentIs(l, s, info, t, rhs, argv, at); }
  }

  /** Block i, if it is a metadata block, gives the filter of its constraint. */
  lemma FilterIs(l: Layout, s: TableSchema, info: IndexInfo, t: Terms, rhs: seq<Rhs>, argv: seq<Rhs>, i: nat)
    requires Planned(l, s, info, t, rhs, argv) && i < |argv| && Block(info.idxStr, i)[0] == '&'
    ensures BlockOk(Block(info.idxStr, i), argv[i]) && info.bound[i] < |rhs|
    ensures var c := info.constraints[info.bound[i]];
            && IsMetadata(l, c) && MetadataOp(c).Some?
            && FilterOf(Block(info.idxStr, i), argv[i])
               == MetadataFilter(ToIdx(l, c.column), MetadataOp(c).value, rhs[info.bound[i]])
            && FilterOk(s, FilterOf(Block(info.idxStr, i), argv[i]))
  {
    BlockIsOk(l, s, info, t, rhs, argv, i);
    ArgumentIs(l, s, info, t, rhs, argv, i);
    var c := info.constraints[info.bound[i]];
    IndexInRange(l, c.column, MetadataKind);
    assert MetadataAdmitted(l, s.metadata, c);
  }

  lemma PartitionIs(l: Layout, s: TableSchema, info: IndexInfo, t: Terms, rhs: seq<Rhs>, argv: seq<Rhs>, i: nat)
    requires Planned(l, s, info, t, rhs, argv) && i < |argv| && Block(info.idxStr, i)[0] == ']'
    ensures BlockOk(Block(info.idxStr, i), argv[i]) && info.bound[i] < |rhs| && rhs[info.bound[i]].One?
    ensures var c := info.constraints[info.bound[i]];
            && IsPartition(l, c) && ToIdx(l, c.column) < |s.partitions|
            && PartitionOf(Block(info.idxStr, i), argv[i])
               == PartitionFilter(ToIdx(l, c.column), OpOf(c).value, rhs[info.bound[i]].x.v)
  {
    BlockIsOk(l, s, info, t, rhs, argv, i);
    ArgumentIs(l, s, info, t, rhs, argv, i);
    PartitionBlockIs(l, info, i);
    IndexInRange(l, info.constraints[info.bound[i]].column, PartitionKind);
  }

  /** The first character of the block of a constraint. */
  predicate HasKind(l: Layout, c: Constraint, kind: char) {
    (kind == ']' && IsPartition(l, c)) || (kind == '&' && IsMetadata(l, c))
  }

  lemma BoundAt(l: Layout, cs: seq<Constraint>, t: Terms, bound: seq<nat>, j: nat) returns (i: nat)
    requires KnnBound(l, cs, t, bound) && j < |cs| && (j in Fixed(t) || IsPartition(l, cs[j]) || IsMetadata(l, cs[j]))
    ensures i < |bound| && bound[i] == j
  {
    assert j in bound;
    i :| 0 <= i < |bound| && bound[i] == j;
  }

  lemma KindOfBlock(l: Layout, c: Constraint, block: seq<char>, kind: char)
    requires |l.kinds| == |l.idxs| && |block| == 4 && RoleOf(l, c).Some? && Decode(block) == RoleOf(l, c)
    requires HasKind(l, c, kind)
    ensures block[0] == kind
  {
  }

  lemma ArgumentFor(l: Layout, s: TableSchema, info: IndexInfo, t: Terms, rhs: seq<Rhs>, argv: seq<Rhs>, j: nat, kind: char)
    returns (i: nat)
    requires Planned(l, s, info, t, rhs, argv) && j < |rhs| && HasKind(l, info.constraints[j], kind)
    ensures i < |argv| && info.bound[i] == j && Block(info.idxStr, i)[0] == kind
  {
    i := BoundAt(l, info.constraints, t, info.bound, j);
    ArgumentIs(l, s, info, t, rhs, argv, i);
    KindOfBlock(l, info.constraints[j], Block(info.idxStr, i), kind);
  }

  lemma BlockAt(idxStr: seq<char>, n: nat, kind: char, i: nat) returns (m: nat)
    requires |idxStr| >= 1 + 4 * n && i < n && Block(idxStr, i)[0] == kind
    ensures m < |Blocks(idxStr, n, kind)| && Blocks(idxStr, n, kind)[m] == i
  {
    BlocksComplete(idxStr, n, kind);
    m :| 0 <= m < |Blocks(idxStr, n, kind)| && Blocks(idxStr, n, kind)[m] == i;
  }

  /** The block of a constraint that the plan carries. */
  lemma BlockFor(l: Layout, s: TableSchema, info: IndexInfo, t: Terms, rhs: seq<Rhs>, argv: seq<Rhs>, j: nat, kind: char)
    returns (m: nat)
    requires Planned(l, s, info, t, rhs, argv) && j < |rhs| && HasKind(l, info.constraints[j], kind)
    ensures var at := Blocks(info.idxStr, |argv|, kind); m < |at| && info.bound[at[m]] == j
  {
    var i := ArgumentFor(l, s, info, t, rhs, argv, j, kind);
    m := BlockAt(info.idxStr, |argv|, kind, i);
  }

  /** The query of an accepted plan is in order. */
  lemma PlanGivesQuery(l: Layout, s: TableSchema, info: IndexInfo, t: Terms, rhs: seq<Rhs>, argv: seq<Rhs>)
    requires Planned(l, s, info, t, rhs, argv) && Readable(info.idxStr, argv)
    requires info.idxNum == ToIdx(l, info.constraints[t.match_].column)
    ensures QueryOk(s, QueryOf(info.idxNum, info.idxStr, argv))
  {
    FixedTerms(l, info.constraints, t);
    IndexInRange(l, info.constraints[t.match_].column, VectorKind);
    var at := Blocks(info.idxStr, |argv|, '&');
    forall m | 0 <= m < |at| ensures FilterOk(s, FiltersOf(info.idxStr, argv)[m]) {
      FilterIs(l, s, info, t, rhs, argv, at[m]);
    }
    var ps := Blocks(info.idxStr, |argv|, ']');
    forall m | 0 <= m < |ps| ensures PartitionsOf(info.idxStr, argv)[m].column < |s.partitions| {
      PartitionIs(l, s, info, t, rhs, argv, ps[m]);
    }
  }

  /** f is constraint j with its right-hand side. */
  ghost predicate Stands(l: Layout, cs: seq<Constraint>, rhs: seq<Rhs>, f: MetadataFilter, j: nat)
    requires |l.kinds| == |l.idxs| && |rhs| == |cs|
  {
    && j < |cs| && IsMetadata(l, cs[j]) && MetadataOp(cs[j]).Some?
    && f == MetadataFilter(ToIdx(l, cs[j].column), MetadataOp(cs[j]).value, rhs[j])
  }

  /** Every metadata constraint appears in the query exactly once, with its own operator and
      its own argument, and nothing else does. */
  lemma EachConstraintOnce(l: Layout, s: TableSchema, info: IndexInfo, t: Terms, rhs: seq<Rhs>, argv: seq<Rhs>)
    requires Planned(l, s, info, t, rhs, argv) && Readable(info.idxStr, argv)
    ensures var fs, at := FiltersOf(info.idxStr, argv), Blocks(info.idxStr, |argv|, '&');
            && (forall m | 0 <= m < |fs| :: Stands(l, info.constraints, rhs, fs[m], info.bound[at[m]]))
            && (forall m, m' | 0 <= m < m' < |fs| :: info.bound[at[m]] != info.bound[at[m']])
            && (forall j | 0 <= j < |rhs| && IsMetadata(l, info.constraints[j]) ::
                  exists m :: 0 <= m < |fs| && info.bound[at[m]] == j)
  {
    var fs, at := FiltersOf(info.idxStr, argv), Blocks(info.idxStr, |argv|, '&');
    forall m | 0 <= m < |fs| ensures Stands(l, info.constraints, rhs, fs[m], info.bound[at[m]]) {
      FilterIs(l, s, info, t, rhs, argv, at[m]);
    }
    BlocksComplete(info.idxStr, |argv|, '&');
    forall m, m' | 0 <= m < m' < |fs| ensures info.bound[at[m]] != info.bound[at[m']] {
      assert info.usage[info.bound[at[m]]] == Usage(at[m] + 1, true);
      assert info.usage[info.bound[at[m']]] == Usage(at[m'] + 1, true);
    }
    forall j | 0 <= j < |rhs| && IsMetadata(l, info.constraints[j])
      ensures exists m :: 0 <= m < |fs| && info.bound[at[m]] == j
    {
      var m := BlockFor(l, s, info, t, rhs, argv, j, '&');
    }
  }

  // ----- the constraints, without any plan -----

  /** What the user's SQL compares: the rowid, or the value of a column. */
  function ValueOf(l: Layout, column: int, rowid: int, row: Row): SqlValue
    requires |l.kinds| == |l.idxs|
  {
    if column == COLUMN_ID then Integer(rowid)
    else if IsKind(l, column, PartitionKind) && ToIdx(l, column) < |row.partition| then row.partition[ToIdx(l, column)]
    else if IsKind(l, column, MetadataKind) && ToIdx(l, column) < |row.metadata| then row.metadata[ToIdx(l, column)]
    else Null
  }

  /** SQL's verdict on one constraint of the WHERE clause. */
  predicate Satisfies(l: Layout, c: Constraint, rhs: Rhs, rowid: int, row: Row)
    requires |l.kinds| == |l.idxs|
  {
    match rhs
    case Many(xs) => SqlIn(ValueOf(l, c.column, rowid, row), xs)
    case One(x) => OpOf(c).Some? && SqlTrue(OpOf(c).value, ValueOf(l, c.column, rowid, row), x.v)
  }

  /** MATCH and the two ways to give k select nothing by themselves. */
  predicate Selects(l: Layout, c: Constraint) {
    !IsMatch(l, c) && !IsLimit(c) && !IsK(l, c)
  }

  /** The row satisfies every constraint that SQLite will not check again. */
  ghost predicate AllOmitted(l: Layout, cs: seq<Constraint>, omitted: set<nat>, rhs: seq<Rhs>, rowid: int, row: Row)
    requires |l.kinds| == |l.idxs| && |rhs| == |cs|
  {
    forall j | 0 <= j < |cs| && j in omitted && Selects(l, cs[j]) :: Satisfies(l, cs[j], rhs[j], rowid, row)
  }

  ghost predicate Shape(l: Layout, row: Row) {
    |row.partition| == Count(l.kinds, PartitionKind) && |row.metadata| == Count(l.kinds, MetadataKind)
  }

  ghost predicate PartitionStands(l: Layout, cs: seq<Constraint>, rhs: seq<Rhs>, f: PartitionFilter, j: nat)
    requires |l.kinds| == |l.idxs| && |rhs| == |cs|
  {
    && j < |cs| && IsPartition(l, cs[j]) && rhs[j].One?
    && f == PartitionFilter(ToIdx(l, cs[j].column), OpOf(cs[j]).value, rhs[j].x.v)
  }

  ghost predicate RowidsStand(cs: seq<Constraint>, rhs: seq<Rhs>, xs: seq<Operand>, j: nat)
    requires |rhs| == |cs|
  {
    j < |cs| && IsRowidIn(cs[j]) && rhs[j] == Many(xs)
  }

  /** Omitted constraint js[m] stands behind filter m, ps[m] behind partition comparison m,
      and one behind the rowid list. */
  ghost predicate Founded(l: Layout, cs: seq<Constraint>, omitted: set<nat>, rhs: seq<Rhs>, q: Query,
                          js: seq<nat>, ps: seq<nat>)
    requires |l.kinds| == |l.idxs| && |rhs| == |cs|
  {
    && |js| == |q.filters| && |ps| == |q.partitions|
    && (forall m | 0 <= m < |js| :: js[m] in omitted && Stands(l, cs, rhs, q.filters[m], js[m]))
    && (forall m | 0 <= m < |ps| :: ps[m] in omitted && PartitionStands(l, cs, rhs, q.partitions[m], ps[m]))
    && (q.rowids.Some? ==> exists j :: j in omitted && RowidsStand(cs, rhs, q.rowids.value, j))
  }

  /** Constraint j is part of the query. */
  ghost predicate Represented(l: Layout, cs: seq<Constraint>, rhs: seq<Rhs>, q: Query, j: nat)
    requires |l.kinds| == |l.idxs| && |rhs| == |cs|
  {
    || (exists m :: 0 <= m < |q.filters| && Stands(l, cs, rhs, q.filters[m], j))
    || (exists m :: 0 <= m < |q.partitions| && PartitionStands(l, cs, rhs, q.partitions[m], j))
    || (q.rowids.Some? && RowidsStand(cs, rhs, q.rowids.value, j))
  }

  // ----- both say the same of a row -----

  lemma StandsDecides(l: Layout, cs: seq<Constraint>, rhs: seq<Rhs>, f: MetadataFilter, j: nat, rowid: int, row: Row)
    requires Columns.Valid(l) && Shape(l, row) && |rhs| == |cs| && Stands(l, cs, rhs, f, j)
    requires rhs[j].Many? <==> MetadataOp(cs[j]) == Some(IN)
    ensures f.column < |row.metadata|
    ensures FilterHolds(f, row) <==> Satisfies(l, cs[j], rhs[j], rowid, row)
    ensures Selects(l, cs[j])
  {
    IndexInRange(l, cs[j].column, MetadataKind);
    HelpersInvert(l, cs[j].column, cs[j].column, MetadataKind);
  }

  lemma PartitionDecides(l: Layout, cs: seq<Constraint>, rhs: seq<Rhs>, f: PartitionFilter, j: nat, rowid: int, row: Row)
    requires Columns.Valid(l) && Shape(l, row) && |rhs| == |cs| && PartitionStands(l, cs, rhs, f, j)
    ensures PartitionHolds(f, row.partition) <==> Satisfies(l, cs[j], rhs[j], rowid, row)
    ensures Selects(l, cs[j])
  {
    IndexInRange(l, cs[j].column, PartitionKind);
    HelpersInvert(l, cs[j].column, cs[j].column, PartitionKind);
  }

  lemma RowidsDecide(l: Layout, cs: seq<Constraint>, rhs: seq<Rhs>, xs: seq<Operand>, j: nat, rowid: int, row: Row)
    requires Columns.Valid(l) && |rhs| == |cs| && RowidsStand(cs, rhs, xs, j)
    ensures SqlIn(Integer(rowid), xs) <==> Satisfies(l, cs[j], rhs[j], rowid, row)
    ensures Selects(l, cs[j])
  {
  }

  lemma FoundedHolds(l: Layout, cs: seq<Constraint>, omitted: set<nat>, rhs: seq<Rhs>, q: Query,
                     js: seq<nat>, ps: seq<nat>, rowid: int, row: Row)
    requires Columns.Valid(l) && Shape(l, row) && ListsAsWanted(l, cs, rhs) && Founded(l, cs, omitted, rhs, q, js, ps)
    requires forall i | 0 <= i < |q.filters| :: q.filters[i].column < |row.metadata|
    requires AllOmitted(l, cs, omitted, rhs, rowid, row)
    ensures SqlMatches(q, rowid, row)
  {
    forall m | 0 <= m < |q.filters|
      ensures FilterHolds(q.filters[m], row)
    {
      StandsDecides(l, cs, rhs, q.filters[m], js[m], rowid, row);
    }
    forall m | 0 <= m < |q.partitions| ensures PartitionHolds(q.partitions[m], row.partition) {
      PartitionDecides(l, cs, rhs, q.partitions[m], ps[m], rowid, row);
    }
    if q.rowids.Some? {
      var j :| j in omitted && RowidsStand(cs, rhs, q.rowids.value, j);
      RowidsDecide(l, cs, rhs, q.rowids.value, j, rowid, row);
    }
  }

  lemma RepresentedHolds(l: Layout, cs: seq<Constraint>, rhs: seq<Rhs>, q: Query, j: nat, rowid: int, row: Row)
    requires Columns.Valid(l) && Shape(l, row) && ListsAsWanted(l, cs, rhs) && Represented(l, cs, rhs, q, j)
    requires forall i | 0 <= i < |q.filters| :: q.filters[i].column < |row.metadata|
    requires SqlMatches(q, rowid, row)
    ensures j < |cs| && Satisfies(l, cs[j], rhs[j], rowid, row)
  {
    if m :| 0 <= m < |q.filters| && Stands(l, cs, rhs, q.filters[m], j) {
      StandsDecides(l, cs, rhs, q.filters[m], j, rowid, row);
    } else if m :| 0 <= m < |q.partitions| && PartitionStands(l, cs, rhs, q.partitions[m], j) {
      PartitionDecides(l, cs, rhs, q.partitions[m], j, rowid, row);
    } else {
      RowidsDecide(l, cs, rhs, q.rowids.value, j, rowid, row);
    }
  }

  lemma SameVerdict(l: Layout, cs: seq<Constraint>, omitted: set<nat>, rhs: seq<Rhs>, q: Query,
                    js: seq<nat>, ps: seq<nat>, rowid: int, row: Row)
    requires Columns.Valid(l) && Shape(l, row) && ListsAsWanted(l, cs, rhs) && Founded(l, cs, omitted, rhs, q, js, ps)
    requires forall i | 0 <= i < |q.filters| :: q.filters[i].column < |row.metadata|
    requires forall j | j in omitted && j < |cs| && Selects(l, cs[j]) :: Represented(l, cs, rhs, q, j)
    ensures SqlMatches(q, rowid, row) <==> AllOmitted(l, cs, omitted, rhs, rowid, row)
  {
    if AllOmitted(l, cs, omitted, rhs, rowid, row) {
      FoundedHolds(l, cs, omitted, rhs, q, js, ps, rowid, row);
    }
    if SqlMatches(q, rowid, row) {
      forall j | 0 <= j < |cs| && j in omitted && Selects(l, cs[j]) ensures Satisfies(l, cs[j], rhs[j], rowid, row) {
        RepresentedHolds(l, cs, rhs, q, j, rowid, row);
      }
    }
  }

  // ----- the plan -----

  ghost function Omitted(info: IndexInfo): set<nat>
    requires info.usage.Length == |info.constraints|
    reads info, info.usage
  {
    set j: nat | j < |info.constraints| && info.usage[j].omit
  }

  lemma OmittedIsBound(l: Layout, info: IndexInfo, i: nat)
    requires Columns.Valid(l) && info.Encoded(l) && i < |info.bound|
    ensures info.bound[i] in Omitted(info)
  {
    assert info.usage[info.bound[i]] == Usage(i + 1, true);
  }

  lemma FilterFounded(l: Layout, s: TableSchema, info: IndexInfo, t: Terms, rhs: seq<Rhs>, argv: seq<Rhs>, i: nat)
    requires Planned(l, s, info, t, rhs, argv) && i < |argv| && Block(info.idxStr, i)[0] == '&'
    ensures BlockOk(Block(info.idxStr, i), argv[i])
    ensures info.bound[i] < |info.constraints| && info.bound[i] in Omitted(info)
    ensures Stands(l, info.constraints, rhs, FilterOf(Block(info.idxStr, i), argv[i]), info.bound[i])
  {
    FilterIs(l, s, info, t, rhs, argv, i);
    OmittedIsBound(l, info, i);
  }

  lemma PartitionFounded(l: Layout, s: TableSchema, info: IndexInfo, t: Terms, rhs: seq<Rhs>, argv: seq<Rhs>, i: nat)
    requires Planned(l, s, info, t, rhs, argv) && i < |argv| && Block(info.idxStr, i)[0] == ']'
    ensures BlockOk(Block(info.idxStr, i), argv[i])
    ensures info.bound[i] < |info.constraints| && info.bound[i] in Omitted(info)
    ensures PartitionStands(l, info.constraints, rhs, PartitionOf(Block(info.idxStr, i), argv[i]), info.bound[i])
  {
    PartitionIs(l, s, info, t, rhs, argv, i);
    OmittedIsBound(l, info, i);
  }

  lemma RowidTerm(l: Layout, cs: seq<Constraint>, t: Terms, bound: seq<nat>) returns (i: nat)
    requires Scanned(l, cs, |cs|, t) && KnnBound(l, cs, t, bound) && t.rowidIn >= 0
    ensures t.rowidIn < |cs| && IsRowidIn(cs[t.rowidIn])
    ensures i < |bound| && bound[i] == t.rowidIn
  {
    assert LastOf(l, cs, |cs|, t.rowidIn, RowidInTerm) && Is(l, cs[t.rowidIn], RowidInTerm);
    assert t.rowidIn in Fixed(t) by { assert Fixed(t)[2] == t.rowidIn; }
    i := BoundAt(l, cs, t, bound, t.rowidIn);
  }

  lemma RowidsRead(l: Layout, info: IndexInfo, t: Terms, rhs: seq<Rhs>, xs: seq<Operand>)
    requires Columns.Valid(l) && info.Encoded(l) && |rhs| == |info.constraints|
    requires Scanned(l, info.constraints, |info.constraints|, t) && KnnBound(l, info.constraints, t, info.bound)
    requires 0 <= t.rowidIn < |rhs| && rhs[t.rowidIn] == Many(xs)
    ensures t.rowidIn in Omitted(info) && RowidsStand(info.constraints, rhs, xs, t.rowidIn)
  {
    var i := RowidTerm(l, info.constraints, t, info.bound);
    OmittedIsBound(l, info, i);
  }

  /** The constraints behind the blocks of one kind, in order. */
  ghost function BoundTo(bound: seq<nat>, at: seq<nat>): (js: seq<nat>)
    requires forall m | 0 <= m < |at| :: at[m] < |bound|
    ensures |js| == |at| && forall m | 0 <= m < |at| :: js[m] == bound[at[m]]
  {
    seq(|at|, m requires 0 <= m < |at| => bound[at[m]])
  }

  lemma PlanFounded(l: Layout, s: TableSchema, info: IndexInfo, t: Terms, rhs: seq<Rhs>, argv: seq<Rhs>, idxNum: nat)
    returns (js: seq<nat>, ps: seq<nat>)
    requires Planned(l, s, info, t, rhs, argv) && Readable(info.idxStr, argv)
    ensures Founded(l, info.constraints, Omitted(info), rhs, QueryOf(idxNum, info.idxStr, argv), js, ps)
  {
    js := BoundTo(info.bound, Blocks(info.idxStr, |argv|, '&'));
    ps := BoundTo(info.bound, Blocks(info.idxStr, |argv|, ']'));
    forall m | 0 <= m < |js|
      ensures js[m] in Omitted(info) && Stands(l, info.constraints, rhs, FiltersOf(info.idxStr, argv)[m], js[m])
    {
      FilterFounded(l, s, info, t, rhs, argv, Blocks(info.idxStr, |argv|, '&')[m]);
    }
    forall m | 0 <= m < |ps|
      ensures ps[m] in Omitted(info)
      ensures PartitionStands(l, info.constraints, rhs, PartitionsOf(info.idxStr, argv)[m], ps[m])
    {
      PartitionFounded(l, s, info, t, rhs, argv, Blocks(info.idxStr, |argv|, ']')[m]);
    }
    PlanIsReadable(l, s, info, t, rhs, argv);
    if t.rowidIn >= 0 { RowidsRead(l, info, t, rhs, rhs[t.rowidIn].xs); }
  }

  lemma PlanRepresents(l: Layout, s: TableSchema, info: IndexInfo, t: Terms, rhs: seq<Rhs>, argv: seq<Rhs>,
                       idxNum: nat, j: nat)
    requires Planned(l, s, info, t, rhs, argv) && Readable(info.idxStr, argv)
    requires j in Omitted(info) && Selects(l, info.constraints[j])
    ensures Represented(l, info.constraints, rhs, QueryOf(idxNum, info.idxStr, argv), j)
  {
    var cs, q := info.constraints, QueryOf(idxNum, info.idxStr, argv);
    if IsMetadata(l, cs[j]) {
      var m := BlockFor(l, s, info, t, rhs, argv, j, '&');
      FilterIs(l, s, info, t, rhs, argv, Blocks(info.idxStr, |argv|, '&')[m]);
      assert Stands(l, cs, rhs, q.filters[m], j);
    } else if IsPartition(l, cs[j]) {
      var m := BlockFor(l, s, info, t, rhs, argv, j, ']');
      PartitionIs(l, s, info, t, rhs, argv, Blocks(info.idxStr, |argv|, ']')[m]);
      assert PartitionStands(l, cs, rhs, q.partitions[m], j);
    } else {
      OmittedRest(l, s, info, t, rhs, argv, j);
      PlanIsReadable(l, s, info, t, rhs, argv);
      RowidsRead(l, info, t, rhs, rhs[t.rowidIn].xs);
    }
  }

  lemma OmittedRest(l: Layout, s: TableSchema, info: IndexInfo, t: Terms, rhs: seq<Rhs>, argv: seq<Rhs>, j: nat)
    requires Planned(l, s, info, t, rhs, argv) && j in Omitted(info) && Selects(l, info.constraints[j])
    requires !IsMetadata(l, info.constraints[j]) && !IsPartition(l, info.constraints[j])
    ensures j == t.rowidIn
  {
    OmittedAreBound(l, info);
    assert j in Fixed(t);
    FixedSelects(l, info.constraints, t);
  }

  lemma FixedSelects(l: Layout, cs: seq<Constraint>, t: Terms)
    requires Columns.Valid(l) && Scanned(l, cs, |cs|, t) && t.match_ >= 0 && (t.limit >= 0) != (t.k >= 0)
    ensures 0 <= t.match_ < |cs| && IsMatch(l, cs[t.match_])
    ensures 0 <= KTermOf(t) < |cs| && (IsLimit(cs[KTermOf(t)]) || IsK(l, cs[KTermOf(t)]))
  {
    assert Is(l, cs[t.match_], MatchTerm);
    assert Is(l, cs[KTermOf(t)], LimitTerm) || Is(l, cs[KTermOf(t)], KTerm);
  }

  /** The filters applied are the constraints omitted: a row passes the query that the reader
      makes of the plan exactly when it satisfies every constraint that SQLite does not check. */
  lemma FiltersAreOmitted(l: Layout, s: TableSchema, info: IndexInfo, t: Terms, rhs: seq<Rhs>, argv: seq<Rhs>,
                          rowid: int, row: Row)
    requires Planned(l, s, info, t, rhs, argv) && Readable(info.idxStr, argv) && Shape(l, row)
    requires info.idxNum == ToIdx(l, info.constraints[t.match_].column)
    ensures var q := QueryOf(info.idxNum, info.idxStr, argv);
            && QueryOk(s, q)
            && (SqlMatches(q, rowid, row) <==> AllOmitted(l, info.constraints, Omitted(info), rhs, rowid, row))
  {
    var q := QueryOf(info.idxNum, info.idxStr, argv);
    PlanGivesQuery(l, s, info, t, rhs, argv);
    var js, ps := PlanFounded(l, s, info, t, rhs, argv, info.idxNum);
    forall j | j in Omitted(info) && Selects(l, info.constraints[j])
      ensures Represented(l, info.constraints, rhs, q, j)
    {
      PlanRepresents(l, s, info, t, rhs, argv, info.idxNum, j);
    }
    SameVerdict(l, info.constraints, Omitted(info), rhs, q, js, ps, rowid, row);
  }

  // ----- which constraints are taken over -----

  /** The constraints that the table decides itself. `rowid = ?` is none of them. */
  predicate TakenOver(l: Layout, c: Constraint) {
    IsRowidIn(c) || IsPartition(l, c) || IsMetadata(l, c)
  }

  predicate IsComparison(op: ConstraintOp) {
    op == CEq || op == CNe || op == CLt || op == CLe || op == CGt || op == CGe
  }

  /** Taken over are `rowid in`, comparisons of a partition column, and everything on a metadata
      column but LIMIT and OFFSET. Lists come in full for the rowid and for metadata columns. */
  lemma TakenOverIs(l: Layout, c: Constraint)
    ensures TakenOver(l, c) <==>
      || ListsRowids(c) || (On(l, c, PartitionKind) && IsComparison(c.op))
      || (On(l, c, MetadataKind) && c.op != CLimit && c.op != COffset)
    ensures WantsList(l, c) <==> ListsRowids(c) || (On(l, c, MetadataKind) && c.op == CEq && c.isIn)
  {
  }

  /** Besides MATCH and the constraint that gives k, `omitted` holds the constraints taken over. */
  ghost predicate Carried(l: Layout, cs: seq<Constraint>, omitted: set<nat>, t: Terms) {
    forall j: nat | j < |cs| :: j in omitted <==> j == t.match_ || j == KTermOf(t) || TakenOver(l, cs[j])
  }

  lemma RowidInIsTerm(l: Layout, cs: seq<Constraint>, t: Terms, j: nat)
    requires Scanned(l, cs, |cs|, t) && j < |cs| && IsRowidIn(cs[j])
    ensures t.rowidIn == j
  {
    assert LastOf(l, cs, |cs|, t.rowidIn, RowidInTerm) && Is(l, cs[j], RowidInTerm);
    assert Is(l, cs[t.rowidIn], RowidInTerm);
  }

  /** Which constraints SQLite is told not to check again can be read off their shapes. */
  lemma OmittedExactly(l: Layout, info: IndexInfo, t: Terms)
    requires Columns.Valid(l) && info.Encoded(l) && (t.limit >= 0) != (t.k >= 0)
    requires Scanned(l, info.constraints, |info.constraints|, t) && t.match_ >= 0
    requires KnnBound(l, info.constraints, t, info.bound)
    ensures Carried(l, info.constraints, Omitted(info), t)
    ensures forall j: nat | j < |info.constraints| ::
      var c := info.constraints[j];
      j in Omitted(info) <==>
        || j == t.match_ || j == KTermOf(t)
        || ListsRowids(c) || (On(l, c, PartitionKind) && IsComparison(c.op))
        || (On(l, c, MetadataKind) && c.op != CLimit && c.op != COffset)
  {
    var cs := info.constraints;
    forall j: nat | j < |cs|
      ensures TakenOver(l, cs[j]) <==>
        || ListsRowids(cs[j]) || (On(l, cs[j], PartitionKind) && IsComparison(cs[j].op))
        || (On(l, cs[j], MetadataKind) && cs[j].op != CLimit && cs[j].op != COffset)
    {
      TakenOverIs(l, cs[j]);
    }
    OmittedAreBound(l, info);
    FixedTerms(l, cs, t);
    forall j: nat | j < |cs|
      ensures j in Omitted(info) <==> j == t.match_ || j == KTermOf(t) || TakenOver(l, cs[j])
    {
      if IsRowidIn(cs[j]) {
        RowidInIsTerm(l, cs, t, j);
        assert Fixed(t)[2] == j;
      }
      assert j in Fixed(t) <==> j == t.match_ || j == KTermOf(t) || j == t.rowidIn by {
        assert Fixed(t)[0] == t.match_ && Fixed(t)[1] == KTermOf(t);
      }
      if t.rowidIn == j { assert Is(l, cs[j], RowidInTerm); }
    }
  }

  // ----- both halves together -----

  /** SQLite passes the right-hand sides of the constraints that have an argument number. */
  method PassArguments(usage: array<Usage>, rhs: seq<Rhs>, argc: nat, ghost bound: seq<nat>) returns (argv: seq<Rhs>)
    requires usage.Length == |rhs| && |bound| == argc
    requires forall i | 0 <= i < argc :: bound[i] < |rhs| && usage[bound[i]].argvIndex == i + 1
    requires forall j: nat | j < |rhs| && j !in bound :: usage[j].argvIndex == 0
    ensures |argv| == argc && forall j | 0 <= j < |rhs| && usage[j].argvIndex > 0 :: usage[j].argvIndex <= argc
    ensures forall j | 0 <= j < |rhs| && usage[j].argvIndex > 0 :: argv[usage[j].argvIndex - 1] == rhs[j]
  {
    argv := seq(argc, _ => Many([]));
    assert forall j: nat | j < |rhs| && usage[j].argvIndex > 0 :: j in bound;
    for j := 0 to |rhs|
      invariant |argv| == argc
      invariant forall i | 0 <= i < argc && bound[i] < j :: argv[i] == rhs[bound[i]]
    {
      if usage[j].argvIndex > 0 {
        argv := argv[usage[j].argvIndex - 1 := rhs[j]];
      }
    }
  }

  /** Every chunk once, in the order in which SQLite meets them. */
  ghost predicate IsChunkOrder(db: Tables, order: seq<int>) {
    (forall c :: c in order <==> c in db.chunks) && forall i, j | 0 <= i < j < |order| :: order[i] != order[j]
  }

  lemma OrderIsChunks(db: Tables, order: seq<int>, i: nat)
    requires IsChunkOrder(db, order) && i < |order|
    ensures order[i] in db.chunks
  {
    var c := order[i];
    assert c in order;
  }

  lemma OneMoreChunk(order: seq<int>, i: nat)
    requires i < |order| && forall m, n | 0 <= m < n < |order| :: order[m] != order[n]
    ensures order[i] !in order[..i] && order[..i + 1] == order[..i] + [order[i]]
  {
    forall m | 0 <= m < i ensures order[..i][m] != order[i] { assert order[..i][m] == order[m]; }
  }

  /** The chunk query, run. */
  method SelectChunks(db: Tables, q: Query, order: seq<int>) returns (visit: seq<int>)
    requires IsChunkOrder(db, order)
    ensures IsVisit(db, q, visit)
  {
    visit := [];
    for i := 0 to |order|
      invariant forall c :: c in visit <==> c in order[..i] && c in db.chunks && PartitionsHold(q, db.chunks[c].partition)
      invariant forall m, n | 0 <= m < n < |visit| :: visit[m] != visit[n]
    {
      OrderIsChunks(db, order, i);
      OneMoreChunk(order, i);
      if PartitionsHold(q, db.chunks[order[i]].partition) {
        visit := visit + [order[i]];
      }
    }
    assert order[..|order|] == order;
  }

  /** vec0Filter with a KNN plan. */
  method FilterKnn(s: TableSchema, db: Tables, idxNum: nat, idxStr: seq<char>, argv: seq<Rhs>,
                   distance: (Vector, seq<bv8>) -> int, order: seq<int>)
    returns (hits: Option<seq<Hit>>)
    requires Inv(s, db) && Readable(idxStr, argv) && QueryOk(s, QueryOf(idxNum, idxStr, argv)) && IsChunkOrder(db, order)
    ensures KnnAnswer.TypedRows(s, Abs(s, db))
    ensures Answers(s, Abs(s, db), QueryOf(idxNum, idxStr, argv), ValueAt(idxStr, argv, '{').asVector, distance, hits)
  {
    var q, query := ReadQuery(idxNum, idxStr, argv);
    var visit := SelectChunks(db, q, order);
    hits := KnnAnswer.Knn(s, db, q, query, distance, visit);
  }

  /** What Knn promises. */
  ghost predicate Answers(s: TableSchema, rows: map<int, Row>, q: Query, query: Option<Vector>,
                          distance: (Vector, seq<bv8>) -> int, hits: Option<seq<Hit>>)
    requires QueryOk(s, q) && KnnAnswer.TypedRows(s, rows)
  {
    && (hits.Some? <==>
          && KnnAnswer.QueryVectorOk(s, q, query) && 0 <= q.k <= K_MAX
          && (q.k == 0 || forall r | r in rows :: !RowFails(s, q, rows[r])))
    && (hits.Some? ==>
          KnnAnswer.IsBruteForceTopK(hits.value, s, q, KnnAnswer.MetricOf(query.value, distance), rows))
  }

  lemma PlanIsPlanned(l: Layout, s: TableSchema, info: IndexInfo, t: Terms, rhs: seq<Rhs>)
    requires Agree(l, s) && info.Encoded(l) && |rhs| == |info.constraints|
    ensures forall i | 0 <= i < |info.bound| ::
      info.bound[i] < |rhs| && info.usage[info.bound[i]].argvIndex == i + 1
    ensures forall j: nat | j < |rhs| && j !in info.bound :: info.usage[j].argvIndex == 0
    ensures (|info.idxStr| - 1) / 4 == |info.bound|
  {
  }

  /** The answer is that of the query q, which asks for the values given in MATCH and for k, and
      which a row passes exactly when it satisfies all constraints that SQLite does not check. */
  ghost predicate AnswersPlan(l: Layout, s: TableSchema, rows: map<int, Row>, cs: seq<Constraint>, omitted: set<nat>,
                              t: Terms, rhs: seq<Rhs>, q: Query, distance: (Vector, seq<bv8>) -> int,
                              hits: Option<seq<Hit>>)
    requires Agree(l, s) && |rhs| == |cs| && KnnAnswer.TypedRows(s, rows)
  {
    && QueryOk(s, q) && FixedOk(l, cs, t) && rhs[t.match_].One? && rhs[KTermOf(t)].One?
    && q.column == ToIdx(l, cs[t.match_].column) && q.k == rhs[KTermOf(t)].x.asInt
    && Answers(s, rows, q, rhs[t.match_].x.asVector, distance, hits)
    && forall r | r in rows :: SqlMatches(q, r, rows[r]) <==> AllOmitted(l, cs, omitted, rhs, r, rows[r])
  }

  lemma RowShape(l: Layout, s: TableSchema, db: Tables, r: int)
    requires Agree(l, s) && Inv(s, db) && r in Abs(s, db)
    ensures Shape(l, Abs(s, db)[r])
  {
  }

  lemma RowsDecided(l: Layout, s: TableSchema, db: Tables, info: IndexInfo, t: Terms, rhs: seq<Rhs>, argv: seq<Rhs>)
    requires Planned(l, s, info, t, rhs, argv) && Readable(info.idxStr, argv) && Inv(s, db)
    requires info.idxNum >= 0 && info.idxNum == ToIdx(l, info.constraints[t.match_].column)
    ensures QueryOk(s, QueryOf(info.idxNum, info.idxStr, argv))
    ensures forall r | r in Abs(s, db) ::
      SqlMatches(QueryOf(info.idxNum, info.idxStr, argv), r, Abs(s, db)[r])
      <==> AllOmitted(l, info.constraints, Omitted(info), rhs, r, Abs(s, db)[r])
  {
    PlanGivesQuery(l, s, info, t, rhs, argv);
    forall r | r in Abs(s, db)
      ensures SqlMatches(QueryOf(info.idxNum, info.idxStr, argv), r, Abs(s, db)[r])
        <==> AllOmitted(l, info.constraints, Omitted(info), rhs, r, Abs(s, db)[r])
    {
      RowShape(l, s, db, r);
      FiltersAreOmitted(l, s, info, t, rhs, argv, r, Abs(s, db)[r]);
    }
  }

  /** A plan that was accepted, run. */
  method RunPlan(ghost l: Layout, s: TableSchema, db: Tables, info: IndexInfo, ghost t: Terms, ghost rhs: seq<Rhs>,
                 argv: seq<Rhs>, distance: (Vector, seq<bv8>) -> int, order: seq<int>)
    returns (hits: Option<seq<Hit>>, ghost q: Query)
    requires Planned(l, s, info, t, rhs, argv) && Inv(s, db) && IsChunkOrder(db, order)
    requires info.idxNum >= 0 && info.idxNum == ToIdx(l, info.constraints[t.match_].column)
    ensures KnnAnswer.TypedRows(s, Abs(s, db))
    ensures AnswersPlan(l, s, Abs(s, db), info.constraints, Omitted(info), t, rhs, q, distance, hits)
  {
    PlanIsReadable(l, s, info, t, rhs, argv);
    RowsDecided(l, s, db, info, t, rhs, argv);
    q := QueryOf(info.idxNum, info.idxStr, argv);
    hits := FilterKnn(s, db, info.idxNum, info.idxStr, argv, distance, order);
  }

  lemma MatchFound(l: Layout, cs: seq<Constraint>, t: Terms, j: nat)
    requires Scanned(l, cs, |cs|, t) && j < |cs| && IsMatch(l, cs[j])
    ensures 0 <= t.match_ < |cs| && IsMatch(l, cs[t.match_])
  {
    assert LastOf(l, cs, |cs|, t.match_, MatchTerm) && Is(l, cs[j], MatchTerm);
  }

  /** A query is planned, and SQLite passes the arguments. */
  method PlanArguments(l: Layout, s: TableSchema, info: IndexInfo, rhs: seq<Rhs>, ghost j: nat)
    returns (planned: bool, argv: seq<Rhs>, ghost t: Terms)
    requires Agree(l, s) && info.Blank() && ListsAsWanted(l, info.constraints, rhs)
    requires j < |rhs| && IsMatch(l, info.constraints[j])
    modifies info, info.usage
    ensures info.usage.Length == |info.constraints|
    ensures planned <==>
      && OneOfEach(l, info.constraints) && Scanned(l, info.constraints, |info.constraints|, t)
      && KnnAccepted(l, s.metadata, info.constraints, info.orderBy, t)
    ensures planned <==> QueryAllowed(l, s.metadata, info.constraints, info.orderBy)
    ensures planned ==> Planned(l, s, info, t, rhs, argv) && Carried(l, info.constraints, Omitted(info), t)
    ensures planned ==> info.idxNum >= 0 && info.idxNum == ToIdx(l, info.constraints[t.match_].column)
  {
    planned, t := info.BestIndex(l, s.metadata);
    if Scanned(l, info.constraints, |info.constraints|, t) { MatchFound(l, info.constraints, t, j); }
    if !planned { return planned, [], t; }
    PlanIsPlanned(l, s, info, t, rhs);
    argv := PassArguments(info.usage, rhs, (|info.idxStr| - 1) / 4, info.bound);
    OmittedExactly(l, info, t);
  }

  lemma AnswerInOrder(l: Layout, s: TableSchema, rows: map<int, Row>, cs: seq<Constraint>, omitted: set<nat>,
                      t: Terms, rhs: seq<Rhs>, q: Query, distance: (Vector, seq<bv8>) -> int, hits: Option<seq<Hit>>)
    requires Agree(l, s) && |rhs| == |cs| && KnnAnswer.TypedRows(s, rows)
    requires AnswersPlan(l, s, rows, cs, omitted, t, rhs, q, distance, hits) && hits.Some?
    ensures |hits.value| <= 4096
    ensures forall i, j | 0 <= i < j < |hits.value| :: hits.value[i].distance <= hits.value[j].distance
  {
  }

  /** A whole KNN query: plan it, pass the arguments, run the plan. `j` is its MATCH. */
  method RunQuery(l: Layout, s: TableSchema, db: Tables, info: IndexInfo, rhs: seq<Rhs>,
                  distance: (Vector, seq<bv8>) -> int, order: seq<int>, ghost j: nat)
    returns (planned: bool, hits: Option<seq<Hit>>, ghost q: Option<Query>, ghost t: Terms)
    requires Agree(l, s) && Inv(s, db) && info.Blank() && ListsAsWanted(l, info.constraints, rhs)
    requires IsChunkOrder(db, order) && j < |rhs| && IsMatch(l, info.constraints[j])
    modifies info, info.usage
    ensures KnnAnswer.TypedRows(s, Abs(s, db)) && info.usage.Length == |info.constraints|
    ensures planned == q.Some?
    ensures planned <==>
      && OneOfEach(l, info.constraints) && Scanned(l, info.constraints, |info.constraints|, t)
      && KnnAccepted(l, s.metadata, info.constraints, info.orderBy, t)
    ensures planned ==>
      AnswersPlan(l, s, Abs(s, db), info.constraints, Omitted(info), t, rhs, q.value, distance, hits)
    ensures planned ==> Carried(l, info.constraints, Omitted(info), t)
    ensures planned <==> QueryAllowed(l, s.metadata, info.constraints, info.orderBy)
    ensures planned && hits.Some? ==>
      |hits.value| <= 4096 && forall i, j | 0 <= i < j < |hits.value| :: hits.value[i].distance <= hits.value[j].distance
  {
    KnnAnswer.RowsTyped(s, db);
    var argv: seq<Rhs>;
    planned, argv, t := PlanArguments(l, s, info, rhs, j);
    if !planned { return planned, None, None, t; }
    ghost var asked: Query;
    hits, asked := RunPlan(l, s, db, info, t, rhs, argv, distance, order);
    if hits.Some? {
      AnswerInOrder(l, s, Abs(s, db), info.constraints, Omitted(info), t, rhs, asked, distance, hits);
    }
    q := Some(asked);
  }

  /** The rows that satisfy every constraint that SQLite will not check again. */
  ghost function OmittedRows(l: Layout, cs: seq<Constraint>, omitted: set<nat>, rhs: seq<Rhs>, rows: map<int, Row>): set<int>
    requires |l.kinds| == |l.idxs| && |rhs| == |cs|
  {
    set r | r in rows && AllOmitted(l, cs, omitted, rhs, r, rows[r])
  }

  /** Over a table without exceptional rows the hits are a top-k of the rows that satisfy the
      constraints SQLite was told not to check. The others it checks only afterwards. */
  lemma PlanAsSql(l: Layout, s: TableSchema, rows: map<int, Row>, cs: seq<Constraint>, omitted: set<nat>,
                  t: Terms, rhs: seq<Rhs>, q: Query, distance: (Vector, seq<bv8>) -> int, hits: Option<seq<Hit>>)
    requires Agree(l, s) && |rhs| == |cs| && KnnAnswer.TypedRows(s, rows)
    requires AnswersPlan(l, s, rows, cs, omitted, t, rhs, q, distance, hits)
    requires forall r | r in rows :: KnnAnswer.Unexceptional(s, q, r, rows[r])
    ensures KnnAnswer.Matching(s, q, rows) == OmittedRows(l, cs, omitted, rhs, rows)
    ensures hits.Some? <==> KnnAnswer.QueryVectorOk(s, q, rhs[t.match_].x.asVector) && 0 <= q.k <= K_MAX
    ensures hits.Some? ==>
      KnnAnswer.IsTopKOf(hits.value, q.k, OmittedRows(l, cs, omitted, rhs, rows),
        KnnAnswer.DistanceMap(rows, q.column, KnnAnswer.MetricOf(rhs[t.match_].x.asVector.value, distance)))
  {
    KnnAnswer.MatchingAsSql(s, q, rows);
  }
}
