/** The receiving side of a plan: xFilter checks the string, finds the fixed arguments
    and turns the partition blocks into a WHERE clause with bound parameters. */
module PlanReader {
  import opened Schema
  import opened Filters
  import opened Columns
  import opened QueryPlan

  /** The consistency checks of vec0Filter. */
  predicate PlanOk(idxStr: seq<char>, argc: nat) {
    && |idxStr| > 0 && (|idxStr| - 1) % 4 == 0 && (|idxStr| - 1) / 4 == argc
    && (idxStr[0] == PLAN_FULLSCAN || idxStr[0] == PLAN_KNN || idxStr[0] == PLAN_POINT)
  }

  /** vec0Filter_knn's search for its fixed arguments: the last block of each kind. */
  method FindArguments(idxStr: seq<char>, argc: nat) returns (queryIdx: int, kIdx: int, rowidInIdx: int)
    requires PlanOk(idxStr, argc)
    ensures IsLastBlock(idxStr, argc, '{', queryIdx) && IsLastBlock(idxStr, argc, '}', kIdx)
    ensures IsLastBlock(idxStr, argc, '[', rowidInIdx)
  {
    queryIdx, kIdx, rowidInIdx := -1, -1, -1;
    for i := 0 to argc
      invariant IsLastBlock(idxStr, i, '{', queryIdx) && IsLastBlock(idxStr, i, '}', kIdx)
      invariant IsLastBlock(idxStr, i, '[', rowidInIdx)
    {
      if idxStr[1 + 4 * i] == '{' { queryIdx := i; }
      if idxStr[1 + 4 * i] == '}' { kIdx := i; }
      if idxStr[1 + 4 * i] == '[' { rowidInIdx := i; }
    }
  }

  ghost predicate IsLastBlock(idxStr: seq<char>, n: nat, kind: char, at: int)
    requires |idxStr| >= 1 + 4 * n
  {
    && -1 <= at < n && (at >= 0 ==> Block(idxStr, at)[0] == kind)
    && forall i | at < i < n :: Block(idxStr, i)[0] != kind
  }

  /** A condition `partitionNN op ?` of the chunk query. */
  datatype Condition = Condition(idx: int, op: Op)

  /** The blocks of one kind among the first n, in order. */
  function Blocks(idxStr: seq<char>, n: nat, kind: char): (at: seq<nat>)
    requires |idxStr| >= 1 + 4 * n
    ensures forall m | 0 <= m < |at| :: at[m] < n && Block(idxStr, at[m])[0] == kind
  {
    if n == 0 then []
    else Blocks(idxStr, n - 1, kind) + if Block(idxStr, n - 1)[0] == kind then [n - 1] else []
  }

  lemma {:induction false} BlocksComplete(idxStr: seq<char>, n: nat, kind: char)
    requires |idxStr| >= 1 + 4 * n
    ensures forall i: nat | i < n && Block(idxStr, i)[0] == kind :: i in Blocks(idxStr, n, kind)
    ensures forall m, m' | 0 <= m < m' < |Blocks(idxStr, n, kind)| ::
      Blocks(idxStr, n, kind)[m] < Blocks(idxStr, n, kind)[m']
  {
    if n > 0 { BlocksComplete(idxStr, n - 1, kind); }
  }

  /** vec0_chunks_iter: the first loop writes the conditions, the second binds the
      parameters. `binds[n]` is the argument that the n-th '?' receives. */
  method ChunksIter(idxStr: seq<char>, argc: nat) returns (ok: bool, where_: seq<Condition>, binds: seq<nat>)
    requires PlanOk(idxStr, argc)
    ensures ok <==> forall i | 0 <= i < argc && Block(idxStr, i)[0] == ']' :: PartitionOp(Block(idxStr, i)[2]).Some?
    ensures ok ==> binds == Blocks(idxStr, argc, ']') && |where_| == |binds|
    ensures ok ==> forall n | 0 <= n < |binds| :: where_[n] == ConditionOf(Block(idxStr, binds[n]))
  {
    where_, binds := [], [];
    for i := 0 to argc
      invariant forall j | 0 <= j < i && Block(idxStr, j)[0] == ']' :: PartitionOp(Block(idxStr, j)[2]).Some?
      invariant |where_| == |Blocks(idxStr, i, ']')|
      invariant forall n | 0 <= n < |where_| :: where_[n] == ConditionOf(Block(idxStr, Blocks(idxStr, i, ']')[n]))
    {
      var block := Block(idxStr, i);
      if block[0] != ']' { continue; }
      if PartitionOp(block[2]).None? { return false, [], []; }
      where_ := where_ + [ConditionOf(block)];
    }
    for i := 0 to argc
      invariant binds == Blocks(idxStr, i, ']')
    {
      if Block(idxStr, i)[0] != ']' { continue; }
      binds := binds + [i];
    }
    ok := true;
  }

  /** The operators that the chunk query knows; `in` is not one of them. */
  function PartitionOp(c: char): Option<Op> {
    match c
    case 'a' => Some(EQ) case 'b' => Some(GT) case 'c' => Some(LE)
    case 'd' => Some(LT) case 'e' => Some(GE) case 'f' => Some(NE)
    case _ => None
  }

  function ConditionOf(block: seq<char>): Condition
    requires |block| == 4
  {
    Condition(block[1] as int - 'A' as int, PartitionOp(block[2]).GetOr(EQ))
  }

  // ----- the round trip -----

  /** xFilter never rejects a plan that xBestIndex made, and finds its fixed arguments
      where they were put. */
  lemma OwnPlanFound(l: Layout, info: IndexInfo, t: Terms, queryIdx: int, kIdx: int, rowidInIdx: int)
    requires Valid(l) && info.Encoded(l) && info.idxStr[0] == PLAN_KNN
    requires Scanned(l, info.constraints, |info.constraints|, t) && t.match_ >= 0 && (t.limit >= 0) != (t.k >= 0)
    requires KnnBound(l, info.constraints, t, info.bound)
    requires PlanOk(info.idxStr, |info.bound|) ==>
      && IsLastBlock(info.idxStr, |info.bound|, '{', queryIdx) && IsLastBlock(info.idxStr, |info.bound|, '}', kIdx)
      && IsLastBlock(info.idxStr, |info.bound|, '[', rowidInIdx)
    ensures PlanOk(info.idxStr, |info.bound|)
    ensures queryIdx == 0 && kIdx == 1
    ensures if rowidInIdx >= 0 then info.bound[rowidInIdx] == t.rowidIn else t.rowidIn < 0
  {
    var cs := info.constraints;
    FixedTerms(l, cs, t);
    assert Decode(Block(info.idxStr, 0)) == Some(QueryVector) && Decode(Block(info.idxStr, 1)) == Some(K);
    forall i | 0 <= i < |info.bound| && Block(info.idxStr, i)[0] == '{' ensures i == 0 {
      Unique(l, info, t, i, QueryVector);
    }
    forall i | 0 <= i < |info.bound| && Block(info.idxStr, i)[0] == '}' ensures i == 1 {
      Unique(l, info, t, i, K);
    }
    forall i | 0 <= i < |info.bound| && Block(info.idxStr, i)[0] == '[' ensures info.bound[i] == t.rowidIn {
      Unique(l, info, t, i, RowidList);
    }
    if t.rowidIn >= 0 {
      assert t.rowidIn in Fixed(t) by { assert Fixed(t)[2] == t.rowidIn; }
      assert t.rowidIn in info.bound;
      var i :| 0 <= i < |info.bound| && info.bound[i] == t.rowidIn;
      assert Decode(Block(info.idxStr, i)) == Some(RowidList);
    }
  }

  /** Only the constraint chosen for a fixed role has that role in the plan. */
  lemma Unique(l: Layout, info: IndexInfo, t: Terms, i: nat, role: Role)
    requires Valid(l) && info.Encoded(l) && i < |info.bound| && FixedOk(l, info.constraints, t)
    requires KnnBound(l, info.constraints, t, info.bound) && Decode(Block(info.idxStr, i)) == Some(role)
    requires role == QueryVector || role == K || role == RowidList
    ensures role == QueryVector ==> i == 0
    ensures role == K ==> i == 1
    ensures role == RowidList ==> info.bound[i] == t.rowidIn
  {
    var cs, j := info.constraints, info.bound[i];
    assert RoleOf(l, cs[j]) == Some(role) && info.usage[j] == Usage(i + 1, true);
    assert j in Fixed(t);
    assert info.usage[info.bound[0]].argvIndex == 1 && info.usage[info.bound[1]].argvIndex == 2;
  }

  /** The partition constraints of the plan become exactly the conditions of the chunk
      query: the n-th '?' compares the column of the constraint whose value it receives. */
  lemma ConditionsAreConstraints(l: Layout, info: IndexInfo, t: Terms, where_: seq<Condition>, binds: seq<nat>)
    requires Valid(l) && info.Encoded(l) && KnnBound(l, info.constraints, t, info.bound)
    requires FixedOk(l, info.constraints, t)
    requires binds == Blocks(info.idxStr, |info.bound|, ']') && |where_| == |binds|
    requires forall n | 0 <= n < |binds| :: where_[n] == ConditionOf(Block(info.idxStr, binds[n]))
    ensures forall n | 0 <= n < |binds| ::
      var c := info.constraints[info.bound[binds[n]]];
      IsPartition(l, c) && where_[n] == Condition(ToIdx(l, c.column), OpOf(c).value)
    ensures forall j: nat | j < |info.constraints| && IsPartition(l, info.constraints[j]) ::
      exists n :: 0 <= n < |binds| && info.bound[binds[n]] == j
  {
    BlocksComplete(info.idxStr, |info.bound|, ']');
    forall n | 0 <= n < |binds|
      ensures var c := info.constraints[info.bound[binds[n]]];
              IsPartition(l, c) && where_[n] == Condition(ToIdx(l, c.column), OpOf(c).value)
    {
      PartitionBlockIs(l, info, binds[n]);
    }
    forall j: nat | j < |info.constraints| && IsPartition(l, info.constraints[j])
      ensures exists n :: 0 <= n < |binds| && info.bound[binds[n]] == j
    {
      var n := ConstraintHasBlock(l, info, t, binds, j);
      assert info.bound[binds[n]] == j;
    }
  }

  lemma ConstraintHasBlock(l: Layout, info: IndexInfo, t: Terms, binds: seq<nat>, j: nat) returns (n: nat)
    requires Valid(l) && info.Encoded(l) && KnnBound(l, info.constraints, t, info.bound)
    requires FixedOk(l, info.constraints, t)
    requires binds == Blocks(info.idxStr, |info.bound|, ']')
    requires j < |info.constraints| && IsPartition(l, info.constraints[j])
    ensures n < |binds| && binds[n] < |info.bound| && info.bound[binds[n]] == j
  {
    BlocksComplete(info.idxStr, |info.bound|, ']');
    assert j in info.bound;
    var i :| 0 <= i < |info.bound| && info.bound[i] == j;
    assert Decode(Block(info.idxStr, i)) == RoleOf(l, info.constraints[j]);
    assert i in binds;
    n :| 0 <= n < |binds| && binds[n] == i;
  }

  lemma PartitionBlockIs(l: Layout, info: IndexInfo, i: nat)
    requires Valid(l) && info.Encoded(l) && i < |info.bound| && Block(info.idxStr, i)[0] == ']'
    ensures var c := info.constraints[info.bound[i]];
            && IsPartition(l, c) && PartitionOp(Block(info.idxStr, i)[2]).Some?
            && ConditionOf(Block(info.idxStr, i)) == Condition(ToIdx(l, c.column), OpOf(c).value)
  {
    var c := info.constraints[info.bound[i]];
    assert Decode(Block(info.idxStr, i)) == RoleOf(l, c);
  }

  /** The constraints marked omit are exactly those the plan carries. */
  lemma OmittedAreBound(l: Layout, info: IndexInfo)
    requires Valid(l) && info.Encoded(l)
    ensures forall j: nat | j < |info.constraints| :: info.usage[j].omit <==> j in info.bound
    ensures forall j: nat | j < |info.constraints| :: info.usage[j].argvIndex > 0 <==> j in info.bound
    ensures forall i, j | 0 <= i < j < |info.bound| :: info.bound[i] != info.bound[j]
  {
  }
}
