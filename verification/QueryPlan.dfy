/** The query plan: xBestIndex encodes the constraints it takes over as a string of
    4-character blocks, xFilter decodes them again. */
module QueryPlan {
  import opened Schema
  import opened Filters
  import opened Columns

  datatype ConstraintOp = CEq | CGt | CLe | CLt | CGe | CNe | CMatch | CLimit | COffset | COther

  /** An entry of aConstraint; `isIn` is the answer of sqlite3_vtab_in. */
  datatype Constraint = Constraint(usable: bool, column: int, op: ConstraintOp, isIn: bool)

  datatype OrderBy = OrderBy(column: int, desc: bool)

  /** An entry of aConstraintUsage. */
  datatype Usage = Usage(argvIndex: nat, omit: bool)

  /** What one argument of xFilter is for. */
  datatype Role =
    | QueryVector
    | K
    | RowidList
    | PointId
    | Partition(idx: nat, op: Op)
    | Metadata(idx: nat, op: Op)

  const PLAN_FULLSCAN := '1'
  const PLAN_POINT := '2'
  const PLAN_KNN := '3'

  // ----- blocks -----

  function OpChar(op: Op): char {
    match op
    case EQ => 'a' case GT => 'b' case LE => 'c' case LT => 'd' case GE => 'e' case NE => 'f' case IN => 'g'
  }

  function OpOfChar(c: char): Option<Op> {
    match c
    case 'a' => Some(EQ) case 'b' => Some(GT) case 'c' => Some(LE) case 'd' => Some(LT)
    case 'e' => Some(GE) case 'f' => Some(NE) case 'g' => Some(IN)
    case _ => None
  }

  predicate Encodable(r: Role) {
    match r
    case Partition(idx, op) => idx < MAX_PARTITION_COLUMNS && op != IN
    case Metadata(idx, _) => idx < MAX_METADATA_COLUMNS
    case _ => true
  }

  function Encode(r: Role): (block: seq<char>)
    requires Encodable(r)
    ensures |block| == 4
  {
    match r
    case QueryVector => "{___"
    case K => "}___"
    case RowidList => "[___"
    case PointId => "!___"
    case Partition(idx, op) => [']', ('A' as int + idx) as char, OpChar(op), '_']
    case Metadata(idx, op) => ['&', ('A' as int + idx) as char, OpChar(op), '_']
  }

  /** How xFilter and its helpers read a block. */
  function Decode(block: seq<char>): Option<Role>
    requires |block| == 4
  {
    if block[0] == '{' then Some(QueryVector)
    else if block[0] == '}' then Some(K)
    else if block[0] == '[' then Some(RowidList)
    else if block[0] == '!' then Some(PointId)
    else if (block[0] == ']' || block[0] == '&') && block[1] >= 'A' && OpOfChar(block[2]).Some? then
      var idx, op := block[1] as int - 'A' as int, OpOfChar(block[2]).value;
      Some(if block[0] == ']' then Partition(idx, op) else Metadata(idx, op))
    else None
  }

  lemma DecodeEncode(r: Role)
    requires Encodable(r)
    ensures Decode(Encode(r)) == Some(r)
  {
  }

  function Block(idxStr: seq<char>, i: nat): (b: seq<char>)
    requires |idxStr| >= 1 + 4 * (i + 1)
    ensures |b| == 4
  {
    idxStr[1 + 4 * i..1 + 4 * i + 4]
  }

  lemma BlocksKept(before: seq<char>, block: seq<char>, n: nat)
    requires |before| == 1 + 4 * n && |block| == 4
    ensures forall i: nat | i < n :: Block(before + block, i) == Block(before, i)
    ensures Block(before + block, n) == block
  {
    forall i: nat | i < n ensures Block(before + block, i) == Block(before, i) { }
  }

  // ----- the role of a constraint -----

  function OpOf(c: Constraint): Option<Op> {
    match c.op
    case CEq => Some(EQ) case CGt => Some(GT) case CLe => Some(LE) case CLt => Some(LT)
    case CGe => Some(GE) case CNe => Some(NE)
    case _ => None
  }

  predicate Windowing(c: Constraint) {
    c.op == CLimit || c.op == COffset
  }

  predicate IsMatch(l: Layout, c: Constraint) {
    c.usable && c.op == CMatch && IsKind(l, c.column, VectorKind)
  }

  predicate IsLimit(c: Constraint) {
    c.usable && c.op == CLimit
  }

  predicate IsK(l: Layout, c: Constraint) {
    c.usable && c.op == CEq && c.column == KIdx(l)
  }

  predicate IsRowidIn(c: Constraint) {
    c.usable && c.op == CEq && c.column == COLUMN_ID && c.isIn
  }

  predicate IsRowid(c: Constraint) {
    c.usable && c.op == CEq && c.column == COLUMN_ID && !c.isIn
  }

  predicate IsAux(l: Layout, c: Constraint) {
    c.usable && !Windowing(c) && IsKind(l, c.column, AuxiliaryKind)
  }

  predicate IsPartition(l: Layout, c: Constraint) {
    c.usable && !Windowing(c) && IsKind(l, c.column, PartitionKind) && OpOf(c).Some?
  }

  predicate IsMetadata(l: Layout, c: Constraint) {
    c.usable && !Windowing(c) && IsKind(l, c.column, MetadataKind)
  }

  function MetadataOp(c: Constraint): Option<Op> {
    if c.op == CEq && c.isIn then Some(IN) else OpOf(c)
  }

  /** A metadata constraint that a KNN query can take over. */
  predicate MetadataOk(kind: MetaKind, c: Constraint) {
    && MetadataOp(c).Some?
    && (MetadataOp(c) == Some(IN) ==> kind == IntegerKind || kind == TextKind)
    && (kind == BooleanKind ==> MetadataOp(c) == Some(EQ) || MetadataOp(c) == Some(NE))
  }

  /** The role a constraint plays in a plan that takes it over. */
  function RoleOf(l: Layout, c: Constraint): (r: Option<Role>)
    requires |l.idxs| == |l.kinds|
  {
    if IsMatch(l, c) then Some(QueryVector)
    else if IsLimit(c) || IsK(l, c) then Some(K)
    else if IsRowidIn(c) then Some(RowidList)
    else if IsRowid(c) then Some(PointId)
    else if IsPartition(l, c) then Some(Partition(ToIdx(l, c.column), OpOf(c).value))
    else if IsMetadata(l, c) && MetadataOp(c).Some? then Some(Metadata(ToIdx(l, c.column), MetadataOp(c).value))
    else None
  }

  lemma RolesEncodable(l: Layout, c: Constraint)
    requires Valid(l) && RoleOf(l, c).Some?
    ensures Encodable(RoleOf(l, c).value)
  {
    if IsPartition(l, c) { IndexInRange(l, c.column, PartitionKind); }
    if IsMetadata(l, c) { IndexInRange(l, c.column, MetadataKind); }
  }

  // ----- xBestIndex -----

  class IndexInfo {
    const constraints: seq<Constraint>
    const orderBy: seq<OrderBy>
    const usage: array<Usage>
    var idxStr: seq<char>
    var idxNum: int
    /** The constraints taken over, in the order of their arguments. */
    ghost var bound: seq<nat>

    constructor (constraints: seq<Constraint>, orderBy: seq<OrderBy>)
      ensures this.constraints == constraints && this.orderBy == orderBy && fresh(usage)
      ensures Blank()
    {
      this.constraints, this.orderBy := constraints, orderBy;
      usage := new Usage[|constraints|](_ => Usage(0, false));
      idxStr, idxNum, bound := [], 0, [];
    }

    /** As SQLite hands it over. */
    ghost predicate Blank()
      reads this, usage
    {
      usage.Length == |constraints| && idxStr == [] && forall j | 0 <= j < usage.Length :: usage[j] == Usage(0, false)
    }

    /** The string and the usage entries describe the constraints in `bound`. */
    ghost predicate Encoded(l: Layout)
      requires |l.idxs| == |l.kinds|
      reads this, usage
    {
      EncodedAs(l, constraints, usage[..], idxStr, bound)
    }

    method Start(l: Layout, plan: char)
      requires |l.idxs| == |l.kinds| && Blank()
      modifies this
      ensures Encoded(l) && bound == [] && idxStr == [plan]
    {
      idxStr, bound := [plan], [];
    }

    /** Takes over constraint j as the next argument. */
    method Bind(l: Layout, j: nat, role: Role)
      requires Valid(l) && Encoded(l) && j < |constraints| && j !in bound
      requires RoleOf(l, constraints[j]) == Some(role)
      modifies this`idxStr, this`bound, usage
      ensures Encoded(l) && bound == old(bound) + [j] && idxStr[0] == old(idxStr)[0]
    {
      RolesEncodable(l, constraints[j]);
      EncodedNext(l, constraints, usage[..], idxStr, bound, j, role);
      usage[j] := Usage((|idxStr| - 1) / 4 + 1, true);
      idxStr := idxStr + Encode(role);
      bound := bound + [j];
    }

    /** One constraint more. */
    method ScanOne(l: Layout, i: nat, ts: Terms) returns (t: Option<Terms>)
      requires i < |constraints| && Scanned(l, constraints, i, ts)
      ensures t.Some? ==> Scanned(l, constraints, i + 1, t.value)
      ensures t.None? ==> !OneOfEach(l, constraints)
    {
      if Repeats(l, ts, constraints[i]) {
        RepeatsIsError(l, constraints, i, ts);
        return None;
      }
      ScannedNext(l, constraints, i, ts);
      return Some(NextTerms(l, ts, i, constraints[i]));
    }

    /** The first loop: which constraints could serve, and the two errors it reports. */
    method ScanConstraints(l: Layout) returns (t: Option<Terms>)
      ensures t.Some? ==> Scanned(l, constraints, |constraints|, t.value)
      ensures t.None? ==> !OneOfEach(l, constraints)
    {
      t := Some(Terms(-1, -1, -1, -1, -1, false));
      for i := 0 to |constraints|
        invariant t.Some? && Scanned(l, constraints, i, t.value)
      {
        t := ScanOne(l, i, t.value);
        if t.None? { return; }
      }
    }

    /** One turn of the second loop. */
    method BindPartition(l: Layout, i: nat)
      requires Valid(l) && Encoded(l) && i < |constraints| && (IsPartition(l, constraints[i]) ==> i !in bound)
      modifies this`idxStr, this`bound, usage
      ensures Encoded(l) && idxStr[0] == old(idxStr)[0]
      ensures bound == old(bound) + if IsPartition(l, constraints[i]) then [i] else []
    {
      var c := constraints[i];
      if !c.usable || Windowing(c) || !IsKind(l, c.column, PartitionKind) { return; }
      if OpOf(c).Some? {
        Bind(l, i, Partition(ToIdx(l, c.column), OpOf(c).value));
      }
    }

    /** The second loop: every partition constraint with a comparison operator. */
    method BindPartitions(l: Layout)
      requires Valid(l) && Encoded(l)
      requires forall j | j in bound :: !IsPartition(l, constraints[j]) && !IsMetadata(l, constraints[j])
      modifies this`idxStr, this`bound, usage
      ensures Encoded(l) && old(bound) <= bound && idxStr[0] == old(idxStr)[0]
      ensures forall j: nat | j < |constraints| :: j in bound <==> j in old(bound) || IsPartition(l, constraints[j])
      ensures forall j | j in bound :: !IsMetadata(l, constraints[j])
    {
      for i := 0 to |constraints|
        invariant Encoded(l) && old(bound) <= bound && idxStr[0] == old(idxStr)[0]
        invariant forall j: nat | j < |constraints| ::
          j in bound <==> j in old(bound) || (j < i && IsPartition(l, constraints[j]))
        invariant forall j | j in bound :: !IsMetadata(l, constraints[j])
      {
        BindPartition(l, i);
      }
    }

    /** The operator checks on one metadata constraint. */
    method AdmitMetadata(l: Layout, kinds: seq<MetaKind>, c: Constraint) returns (op: Option<Op>)
      requires Valid(l) && |kinds| == Count(l.kinds, MetadataKind) && IsMetadata(l, c)
      ensures op.Some? <==> MetadataAdmitted(l, kinds, c)
      ensures op.Some? ==> op == MetadataOp(c)
    {
      IndexInRange(l, c.column, MetadataKind);
      var kind := kinds[ToIdx(l, c.column)];
      if c.op == CEq && c.isIn && (kind == FloatKind || kind == BooleanKind) { return None; }
      op := MetadataOp(c);
      if op.None? { return None; }
      if kind == BooleanKind && !(op.value == EQ || op.value == NE) { return None; }
    }

    /** One turn of the third loop. */
    method BindMetadatum(l: Layout, kinds: seq<MetaKind>, i: nat) returns (ok: bool)
      requires Valid(l) && Encoded(l) && |kinds| == Count(l.kinds, MetadataKind) && i < |constraints|
      requires IsMetadata(l, constraints[i]) ==> i !in bound
      modifies this`idxStr, this`bound, usage
      ensures ok <==> (IsMetadata(l, constraints[i]) ==> MetadataAdmitted(l, kinds, constraints[i]))
      ensures Encoded(l) && idxStr[0] == old(idxStr)[0]
      ensures bound == old(bound) + if ok && IsMetadata(l, constraints[i]) then [i] else []
    {
      var c := constraints[i];
      if !c.usable || Windowing(c) || !IsKind(l, c.column, MetadataKind) { return true; }
      var op := AdmitMetadata(l, kinds, c);
      if op.None? { return false; }
      Bind(l, i, Metadata(ToIdx(l, c.column), op.value));
      return true;
    }

    /** The third loop: every metadata constraint, or an error. */
    method BindMetadata(l: Layout, kinds: seq<MetaKind>) returns (ok: bool)
      requires Valid(l) && Encoded(l) && |kinds| == Count(l.kinds, MetadataKind)
      requires forall j | j in bound :: !IsMetadata(l, constraints[j])
      modifies this`idxStr, this`bound, usage
      ensures ok <==> AllAdmitted(l, kinds, constraints)
      ensures ok ==> Encoded(l) && old(bound) <= bound && idxStr[0] == old(idxStr)[0]
      ensures ok ==> forall j: nat | j < |constraints| :: j in bound <==> j in old(bound) || IsMetadata(l, constraints[j])
    {
      for i := 0 to |constraints|
        invariant Encoded(l) && old(bound) <= bound && idxStr[0] == old(idxStr)[0]
        invariant forall j: nat | j < |constraints| ::
          j in bound <==> j in old(bound) || (j < i && IsMetadata(l, constraints[j]))
        invariant forall j | 0 <= j < i && IsMetadata(l, constraints[j]) :: MetadataAdmitted(l, kinds, constraints[j])
      {
        ok := BindMetadatum(l, kinds, i);
        if !ok { return; }
      }
      return true;
    }

    /** The plan character, the query vector, k and the rowid list. */
    method BindFixed(l: Layout, t: Terms)
      requires Valid(l) && Blank() && FixedOk(l, constraints, t)
      modifies this, usage
      ensures Encoded(l) && idxStr[0] == PLAN_KNN
      ensures |bound| == |Fixed(t)| && forall i | 0 <= i < |bound| :: bound[i] == Fixed(t)[i]
    {
      Start(l, PLAN_KNN);
      Bind(l, t.match_, QueryVector);
      Bind(l, KTermOf(t), K);
      if t.rowidIn >= 0 {
        Bind(l, t.rowidIn, RowidList);
      }
    }

    /** Takes over everything a KNN plan uses. */
    method BindAll(l: Layout, kinds: seq<MetaKind>, t: Terms) returns (ok: bool)
      requires Valid(l) && |kinds| == Count(l.kinds, MetadataKind) && Blank() && FixedOk(l, constraints, t)
      requires forall j | j in Fixed(t) :: !IsPartition(l, constraints[j]) && !IsMetadata(l, constraints[j])
      modifies this, usage
      ensures ok <==> AllAdmitted(l, kinds, constraints)
      ensures ok ==> Encoded(l) && idxStr[0] == PLAN_KNN && KnnBound(l, constraints, t, bound)
    {
      BindFixed(l, t);
      ghost var fixed := bound;
      SameMembers(fixed, Fixed(t));
      BindPartitions(l);
      ghost var some := bound;
      ok := BindMetadata(l, kinds);
      if ok { KnnBoundIs(l, constraints, t, fixed, some, bound); }
    }

    /** The KNN branch: at least a MATCH constraint is usable. */
    method PlanKnn(l: Layout, kinds: seq<MetaKind>, t: Terms) returns (ok: bool)
      requires Valid(l) && |kinds| == Count(l.kinds, MetadataKind) && Blank()
      requires Scanned(l, constraints, |constraints|, t) && t.match_ >= 0
      modifies this, usage
      ensures ok <==> KnnAccepted(l, kinds, constraints, orderBy, t)
      ensures ok ==> Encoded(l) && idxStr[0] == PLAN_KNN && idxNum == ToIdx(l, constraints[t.match_].column)
      ensures ok ==> KnnBound(l, constraints, t, bound)
    {
      if t.limit < 0 && t.k < 0 { return false; }
      if t.limit >= 0 && t.k >= 0 { return false; }
      if !OrderOk(l, orderBy) { return false; }
      if t.aux { return false; }
      FixedTerms(l, constraints, t);
      ok := BindAll(l, kinds, t);
      idxNum := ToIdx(l, constraints[t.match_].column);
    }

    /** vec0BestIndex. */
    method BestIndex(l: Layout, kinds: seq<MetaKind>) returns (ok: bool, ghost t: Terms)
      requires Valid(l) && |kinds| == Count(l.kinds, MetadataKind) && Blank()
      modifies this, usage
      ensures ok ==> Scanned(l, constraints, |constraints|, t) && Encoded(l)
      ensures ok <==> OneOfEach(l, constraints) && (Scanned(l, constraints, |constraints|, t)
                        && (t.match_ >= 0 ==> KnnAccepted(l, kinds, constraints, orderBy, t)))
      ensures ok <==> QueryAllowed(l, kinds, constraints, orderBy)
      ensures ok ==> idxStr[0] == PlanLetter(l, constraints)
      ensures ok && t.match_ >= 0 ==> idxStr[0] == PLAN_KNN && KnnBound(l, constraints, t, bound)
      ensures ok && t.match_ >= 0 ==> idxNum == ToIdx(l, constraints[t.match_].column)
      ensures ok && t.match_ < 0 && t.rowid >= 0 ==> idxStr[0] == PLAN_POINT && bound == [t.rowid]
      ensures ok && t.match_ < 0 && t.rowid < 0 ==> idxStr[0] == PLAN_FULLSCAN && bound == []
    {
      var found := ScanConstraints(l);
      OneOfEachIs(l, constraints);
      if found.None? { return false, Terms(-1, -1, -1, -1, -1, false); }
      t := found.value;
      AcceptedIff(l, kinds, constraints, orderBy, t);
      PlanLetterIs(l, constraints, t);
      var terms := found.value;
      if terms.match_ >= 0 {
        ok := PlanKnn(l, kinds, terms);
      } else if terms.rowid >= 0 {
        Start(l, PLAN_POINT);
        Bind(l, terms.rowid, PointId);
        ok := true;
      } else {
        Start(l, PLAN_FULLSCAN);
        ok := true;
      }
    }
  }

  /** Argument i belongs to bound[i], and block i decodes to its role. */
  ghost predicate EncodedAs(l: Layout, cs: seq<Constraint>, usage: seq<Usage>, idxStr: seq<char>, bound: seq<nat>)
    requires |l.idxs| == |l.kinds|
  {
    && |usage| == |cs| && |idxStr| == 1 + 4 * |bound|
    && (forall i | 0 <= i < |bound| :: bound[i] < |cs| && usage[bound[i]] == Usage(i + 1, true))
    && (forall j: nat | j < |cs| && j !in bound :: usage[j] == Usage(0, false))
    && (forall i | 0 <= i < |bound| ::
          RoleOf(l, cs[bound[i]]).Some? && Decode(Block(idxStr, i)) == RoleOf(l, cs[bound[i]]))
  }

  lemma EncodedNext(l: Layout, cs: seq<Constraint>, usage: seq<Usage>, idxStr: seq<char>, bound: seq<nat>,
                    j: nat, role: Role)
    requires Valid(l) && EncodedAs(l, cs, usage, idxStr, bound) && j < |cs| && j !in bound
    requires RoleOf(l, cs[j]) == Some(role) && Encodable(role)
    ensures (|idxStr| - 1) / 4 + 1 == |bound| + 1
    ensures EncodedAs(l, cs, usage[j := Usage(|bound| + 1, true)], idxStr + Encode(role), bound + [j])
  {
    DecodeEncode(role);
    BlocksKept(idxStr, Encode(role), |bound|);
    var bound' := bound + [j];
    forall i | 0 <= i < |bound'|
      ensures RoleOf(l, cs[bound'[i]]).Some? && Decode(Block(idxStr + Encode(role), i)) == RoleOf(l, cs[bound'[i]])
    {
      if i < |bound| { assert bound'[i] == bound[i]; }
    }
  }

  predicate OrderOk(l: Layout, orderBy: seq<OrderBy>) {
    orderBy == [] || (|orderBy| == 1 && orderBy[0].column == DistanceIdx(l) && !orderBy[0].desc)
  }

  /** When a query with a MATCH is accepted. */
  ghost predicate KnnAccepted(l: Layout, kinds: seq<MetaKind>, cs: seq<Constraint>, orderBy: seq<OrderBy>, t: Terms)
    requires Valid(l) && |kinds| == Count(l.kinds, MetadataKind)
  {
    (t.limit >= 0) != (t.k >= 0) && OrderOk(l, orderBy) && !t.aux && AllAdmitted(l, kinds, cs)
  }

  ghost predicate AllAdmitted(l: Layout, kinds: seq<MetaKind>, cs: seq<Constraint>)
    requires Valid(l) && |kinds| == Count(l.kinds, MetadataKind)
  {
    forall j | 0 <= j < |cs| && IsMetadata(l, cs[j]) :: MetadataAdmitted(l, kinds, cs[j])
  }

  // ----- the same, constraint by constraint -----

  /** A usable constraint on a user column of this kind. */
  predicate On(l: Layout, c: Constraint, k: Kind) {
    c.usable && 1 <= c.column <= |l.kinds| && l.kinds[c.column - 1] == k
  }

  predicate MatchesVector(l: Layout, c: Constraint) {
    c.op == CMatch && On(l, c, VectorKind)
  }

  predicate ListsRowids(c: Constraint) {
    c.usable && c.op == CEq && c.isIn && c.column == 0
  }

  predicate GivesLimit(c: Constraint) {
    c.usable && c.op == CLimit
  }

  predicate GivesK(l: Layout, c: Constraint) {
    c.usable && c.op == CEq && c.column == |l.kinds| + 2
  }

  /** Comparisons are allowed on all metadata columns, but booleans have no order, and only integers
      and texts have lists. */
  predicate OperatorAllowed(kind: MetaKind, c: Constraint) {
    match c.op
    case CEq => c.isIn ==> kind == IntegerKind || kind == TextKind
    case CNe => true
    case CGt => kind != BooleanKind
    case CGe => kind != BooleanKind
    case CLt => kind != BooleanKind
    case CLe => kind != BooleanKind
    case _ => false
  }

  /** A constraint that a KNN query may have. */
  predicate ConstraintAllowed(l: Layout, kinds: seq<MetaKind>, c: Constraint)
    requires Valid(l) && |kinds| == Count(l.kinds, MetadataKind)
  {
    c.op == CLimit || c.op == COffset
    || (!On(l, c, AuxiliaryKind)
        && (On(l, c, MetadataKind) ==>
              (IndexInRange(l, c.column, MetadataKind); OperatorAllowed(kinds[l.idxs[c.column - 1]], c))))
  }

  /** One MATCH and one rowid list at most; with a MATCH either LIMIT or `k = ?`, no order or that of
      ascending distance, and no constraint out of place. */
  ghost predicate QueryAllowed(l: Layout, kinds: seq<MetaKind>, cs: seq<Constraint>, orderBy: seq<OrderBy>)
    requires Valid(l) && |kinds| == Count(l.kinds, MetadataKind)
  {
    && (forall i, j | 0 <= i < j < |cs| :: !MatchesVector(l, cs[i]) || !MatchesVector(l, cs[j]))
    && (forall i, j | 0 <= i < j < |cs| :: !ListsRowids(cs[i]) || !ListsRowids(cs[j]))
    && ((exists i :: 0 <= i < |cs| && MatchesVector(l, cs[i])) ==>
          && ((exists i :: 0 <= i < |cs| && GivesLimit(cs[i])) != (exists i :: 0 <= i < |cs| && GivesK(l, cs[i])))
          && (orderBy == [] || orderBy == [OrderBy(|l.kinds| + 1, false)])
          && forall i | 0 <= i < |cs| :: ConstraintAllowed(l, kinds, cs[i]))
  }

  predicate ComparesRowid(c: Constraint) {
    c.usable && c.op == CEq && !c.isIn && c.column == 0
  }

  /** A MATCH asks for a KNN query, and `rowid = ?` without one for a single row. */
  ghost function PlanLetter(l: Layout, cs: seq<Constraint>): char {
    if exists i :: 0 <= i < |cs| && MatchesVector(l, cs[i]) then '3'
    else if exists i :: 0 <= i < |cs| && ComparesRowid(cs[i]) then '2'
    else '1'
  }

  lemma PlanLetterIs(l: Layout, cs: seq<Constraint>, t: Terms)
    requires Scanned(l, cs, |cs|, t)
    ensures PlanLetter(l, cs) ==
      if t.match_ >= 0 then PLAN_KNN else if t.rowid >= 0 then PLAN_POINT else PLAN_FULLSCAN
  {
    forall i | 0 <= i < |cs|
      ensures Is(l, cs[i], MatchTerm) <==> MatchesVector(l, cs[i])
      ensures Is(l, cs[i], RowidTerm) <==> ComparesRowid(cs[i])
    {
    }
    TermFound(l, cs, t.match_, MatchTerm);
    TermFound(l, cs, t.rowid, RowidTerm);
  }

  lemma OneOfEachIs(l: Layout, cs: seq<Constraint>)
    ensures OneOfEach(l, cs) <==>
      && (forall i, j | 0 <= i < j < |cs| :: !MatchesVector(l, cs[i]) || !MatchesVector(l, cs[j]))
      && (forall i, j | 0 <= i < j < |cs| :: !ListsRowids(cs[i]) || !ListsRowids(cs[j]))
  {
    forall i | 0 <= i < |cs|
      ensures Is(l, cs[i], MatchTerm) <==> MatchesVector(l, cs[i])
      ensures Is(l, cs[i], RowidInTerm) <==> ListsRowids(cs[i])
    {
    }
  }

  lemma ConstraintAllowedIs(l: Layout, kinds: seq<MetaKind>, c: Constraint)
    requires Valid(l) && |kinds| == Count(l.kinds, MetadataKind)
    ensures ConstraintAllowed(l, kinds, c) <==> !IsAux(l, c) && (IsMetadata(l, c) ==> MetadataAdmitted(l, kinds, c))
  {
  }

  lemma EachAllowedIs(l: Layout, kinds: seq<MetaKind>, cs: seq<Constraint>, t: Terms)
    requires Valid(l) && |kinds| == Count(l.kinds, MetadataKind) && Scanned(l, cs, |cs|, t)
    ensures (forall i | 0 <= i < |cs| :: ConstraintAllowed(l, kinds, cs[i])) <==> !t.aux && AllAdmitted(l, kinds, cs)
  {
    forall i | 0 <= i < |cs|
      ensures ConstraintAllowed(l, kinds, cs[i])
        <==> !IsAux(l, cs[i]) && (IsMetadata(l, cs[i]) ==> MetadataAdmitted(l, kinds, cs[i]))
    {
      ConstraintAllowedIs(l, kinds, cs[i]);
    }
  }

  lemma TermsAre(l: Layout, cs: seq<Constraint>, t: Terms)
    requires Scanned(l, cs, |cs|, t)
    ensures t.match_ >= 0 <==> exists i :: 0 <= i < |cs| && MatchesVector(l, cs[i])
    ensures t.limit >= 0 <==> exists i :: 0 <= i < |cs| && GivesLimit(cs[i])
    ensures t.k >= 0 <==> exists i :: 0 <= i < |cs| && GivesK(l, cs[i])
  {
    forall i | 0 <= i < |cs|
      ensures Is(l, cs[i], MatchTerm) <==> MatchesVector(l, cs[i])
      ensures Is(l, cs[i], LimitTerm) <==> GivesLimit(cs[i])
      ensures Is(l, cs[i], KTerm) <==> GivesK(l, cs[i])
    {
    }
    TermFound(l, cs, t.match_, MatchTerm);
    TermFound(l, cs, t.limit, LimitTerm);
    TermFound(l, cs, t.k, KTerm);
  }

  /** The conditions found by the loops are these rules. */
  lemma AcceptedIff(l: Layout, kinds: seq<MetaKind>, cs: seq<Constraint>, orderBy: seq<OrderBy>, t: Terms)
    requires Valid(l) && |kinds| == Count(l.kinds, MetadataKind) && Scanned(l, cs, |cs|, t)
    ensures (t.match_ >= 0 ==> KnnAccepted(l, kinds, cs, orderBy, t)) <==> QueryAllowed(l, kinds, cs, orderBy)
  {
    OneOfEachIs(l, cs);
    EachAllowedIs(l, kinds, cs, t);
    TermsAre(l, cs, t);
    OrderIs(l, orderBy);
  }

  lemma TermFound(l: Layout, cs: seq<Constraint>, t: int, which: Term)
    requires LastOf(l, cs, |cs|, t, which)
    ensures t >= 0 <==> exists i :: 0 <= i < |cs| && Is(l, cs[i], which)
  {
  }

  lemma OrderIs(l: Layout, orderBy: seq<OrderBy>)
    ensures OrderOk(l, orderBy) <==> orderBy == [] || orderBy == [OrderBy(|l.kinds| + 1, false)]
  {
  }

  /** `ORDER BY distance` changes nothing, every other order is refused. */
  lemma OnlyByDistance(l: Layout, kinds: seq<MetaKind>, cs: seq<Constraint>, orderBy: seq<OrderBy>, t: Terms)
    requires Valid(l) && |kinds| == Count(l.kinds, MetadataKind)
    ensures KnnAccepted(l, kinds, cs, [OrderBy(|l.kinds| + 1, false)], t) <==> KnnAccepted(l, kinds, cs, [], t)
    ensures |orderBy| >= 2 ==> !KnnAccepted(l, kinds, cs, orderBy, t)
    ensures |orderBy| == 1 && (orderBy[0].desc || orderBy[0].column != |l.kinds| + 1) ==>
      !KnnAccepted(l, kinds, cs, orderBy, t)
  {
  }

  function KTermOf(t: Terms): int {
    if t.limit >= 0 then t.limit else t.k
  }

  /** The constraints a KNN plan takes over regardless of their columns. */
  function Fixed(t: Terms): seq<int> {
    [t.match_, KTermOf(t)] + if t.rowidIn >= 0 then [t.rowidIn] else []
  }

  ghost predicate FixedOk(l: Layout, cs: seq<Constraint>, t: Terms)
    requires |l.idxs| == |l.kinds|
  {
    && 0 <= t.match_ < |cs| && 0 <= KTermOf(t) < |cs| && t.rowidIn < |cs|
    && t.match_ != KTermOf(t) && t.rowidIn != t.match_ && t.rowidIn != KTermOf(t)
    && RoleOf(l, cs[t.match_]) == Some(QueryVector) && RoleOf(l, cs[KTermOf(t)]) == Some(K)
    && (t.rowidIn >= 0 ==> RoleOf(l, cs[t.rowidIn]) == Some(RowidList))
  }

  lemma SameMembers(a: seq<nat>, b: seq<int>)
    requires |a| == |b| && forall i | 0 <= i < |a| :: a[i] == b[i]
    ensures forall j: nat :: j in a <==> j in b
  {
  }

  lemma FixedTerms(l: Layout, cs: seq<Constraint>, t: Terms)
    requires Valid(l) && Scanned(l, cs, |cs|, t) && t.match_ >= 0 && (t.limit >= 0) != (t.k >= 0)
    ensures FixedOk(l, cs, t)
    ensures forall j | j in Fixed(t) :: 0 <= j < |cs| && !IsPartition(l, cs[j]) && !IsMetadata(l, cs[j])
  {
    assert Is(l, cs[t.match_], MatchTerm);
    assert Is(l, cs[KTermOf(t)], LimitTerm) || Is(l, cs[KTermOf(t)], KTerm);
    assert t.rowidIn >= 0 ==> Is(l, cs[t.rowidIn], RowidInTerm);
  }

  /** A KNN plan takes over exactly the query vector, k, the rowid list, and every
      partition comparison and metadata constraint. */
  ghost predicate KnnBound(l: Layout, cs: seq<Constraint>, t: Terms, bound: seq<nat>) {
    && |bound| >= 2 && bound[0] == t.match_ && bound[1] == KTermOf(t)
    && forall j: nat | j < |cs| ::
         j in bound <==> j in Fixed(t) || IsPartition(l, cs[j]) || IsMetadata(l, cs[j])
  }

  lemma KnnBoundIs(l: Layout, cs: seq<Constraint>, t: Terms, fixed: seq<nat>, some: seq<nat>, bound: seq<nat>)
    requires |fixed| == |Fixed(t)| && (forall i | 0 <= i < |fixed| :: fixed[i] == Fixed(t)[i]) && fixed <= some <= bound
    requires forall j: nat | j < |cs| :: j in some <==> j in fixed || IsPartition(l, cs[j])
    requires forall j: nat | j < |cs| :: j in bound <==> j in some || IsMetadata(l, cs[j])
    ensures KnnBound(l, cs, t, bound)
  {
    SameMembers(fixed, Fixed(t));
    assert bound[0] == fixed[0] && bound[1] == fixed[1];
  }

  datatype Terms = Terms(match_: int, limit: int, rowid: int, k: int, rowidIn: int, aux: bool)

  datatype Term = MatchTerm | LimitTerm | RowidTerm | KTerm | RowidInTerm

  predicate Is(l: Layout, c: Constraint, which: Term) {
    match which
    case MatchTerm => IsMatch(l, c)
    case LimitTerm => IsLimit(c)
    case RowidTerm => IsRowid(c)
    case KTerm => IsK(l, c)
    case RowidInTerm => IsRowidIn(c)
  }

  ghost predicate AtMostOne(l: Layout, cs: seq<Constraint>, n: nat, which: Term)
    requires n <= |cs|
  {
    forall i, j | 0 <= i < j < n :: !Is(l, cs[i], which) || !Is(l, cs[j], which)
  }

  /** t is the last of the first n constraints that can serve as `which`, or -1. */
  ghost predicate LastOf(l: Layout, cs: seq<Constraint>, n: nat, t: int, which: Term)
    requires n <= |cs|
  {
    && -1 <= t < n && (t >= 0 ==> Is(l, cs[t], which)) && forall i | t < i < n :: !Is(l, cs[i], which)
  }

  ghost predicate TermsFor(l: Layout, cs: seq<Constraint>, n: nat, t: Terms)
    requires n <= |cs|
  {
    && LastOf(l, cs, n, t.match_, MatchTerm) && LastOf(l, cs, n, t.limit, LimitTerm)
    && LastOf(l, cs, n, t.rowid, RowidTerm) && LastOf(l, cs, n, t.k, KTerm)
    && LastOf(l, cs, n, t.rowidIn, RowidInTerm)
    && (t.aux <==> exists i :: 0 <= i < n && IsAux(l, cs[i]))
  }

  /** What one constraint adds to the findings. */
  function NextTerms(l: Layout, t: Terms, i: int, c: Constraint): Terms {
    if !c.usable then t
    else
      Terms(if c.op == CMatch && IsKind(l, c.column, VectorKind) then i else t.match_,
            if c.op == CLimit then i else t.limit,
            if c.op == CEq && c.column == COLUMN_ID && !c.isIn then i else t.rowid,
            if c.op == CEq && c.column == KIdx(l) then i else t.k,
            if c.op == CEq && c.column == COLUMN_ID && c.isIn then i else t.rowidIn,
            t.aux || (c.op != CLimit && c.op != COffset && IsKind(l, c.column, AuxiliaryKind)))
  }

  /** A second MATCH, or a second `rowid in (...)`. */
  predicate Repeats(l: Layout, t: Terms, c: Constraint) {
    || (c.usable && c.op == CMatch && IsKind(l, c.column, VectorKind) && t.match_ > -1)
    || (c.usable && c.op == CEq && c.column == COLUMN_ID && c.isIn && t.rowidIn != -1)
  }

  ghost predicate Scanned(l: Layout, cs: seq<Constraint>, n: nat, t: Terms)
    requires n <= |cs|
  {
    TermsFor(l, cs, n, t) && AtMostOne(l, cs, n, MatchTerm) && AtMostOne(l, cs, n, RowidInTerm)
  }

  ghost predicate OneOfEach(l: Layout, cs: seq<Constraint>) {
    AtMostOne(l, cs, |cs|, MatchTerm) && AtMostOne(l, cs, |cs|, RowidInTerm)
  }

  lemma RepeatsIsError(l: Layout, cs: seq<Constraint>, n: nat, t: Terms)
    requires n < |cs| && Scanned(l, cs, n, t) && Repeats(l, t, cs[n])
    ensures !OneOfEach(l, cs)
  {
    if IsMatch(l, cs[n]) && t.match_ > -1 {
      assert Is(l, cs[t.match_], MatchTerm) && Is(l, cs[n], MatchTerm);
    } else {
      assert Is(l, cs[t.rowidIn], RowidInTerm) && Is(l, cs[n], RowidInTerm);
    }
  }

  lemma ScannedNext(l: Layout, cs: seq<Constraint>, n: nat, t: Terms)
    requires n < |cs| && Scanned(l, cs, n, t) && !Repeats(l, t, cs[n])
    ensures Scanned(l, cs, n + 1, NextTerms(l, t, n, cs[n]))
  {
    NextTermsFor(l, cs, n, t);
    StillOne(l, cs, n, t.match_, MatchTerm);
    StillOne(l, cs, n, t.rowidIn, RowidInTerm);
  }

  lemma StillOne(l: Layout, cs: seq<Constraint>, n: nat, t: int, which: Term)
    requires n < |cs| && LastOf(l, cs, n, t, which) && AtMostOne(l, cs, n, which)
    requires t == -1 || !Is(l, cs[n], which)
    ensures AtMostOne(l, cs, n + 1, which)
  {
  }

  lemma NextLast(l: Layout, cs: seq<Constraint>, n: nat, t: int, which: Term)
    requires n < |cs| && LastOf(l, cs, n, t, which)
    ensures LastOf(l, cs, n + 1, if Is(l, cs[n], which) then n else t, which)
  {
  }

  lemma NextTermsFor(l: Layout, cs: seq<Constraint>, n: nat, t: Terms)
    requires n < |cs| && TermsFor(l, cs, n, t)
    ensures TermsFor(l, cs, n + 1, NextTerms(l, t, n, cs[n]))
  {
    NextLast(l, cs, n, t.match_, MatchTerm);
    NextLast(l, cs, n, t.limit, LimitTerm);
    NextLast(l, cs, n, t.rowid, RowidTerm);
    NextLast(l, cs, n, t.k, KTerm);
    NextLast(l, cs, n, t.rowidIn, RowidInTerm);
    assert NextTerms(l, t, n, cs[n]).aux <==> t.aux || IsAux(l, cs[n]);
  }

  predicate MetadataAdmitted(l: Layout, kinds: seq<MetaKind>, c: Constraint)
    requires Valid(l) && |kinds| == Count(l.kinds, MetadataKind) && IsKind(l, c.column, MetadataKind)
  {
    IndexInRange(l, c.column, MetadataKind);
    MetadataOk(kinds[ToIdx(l, c.column)], c)
  }
}
