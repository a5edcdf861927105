/** Column bookkeeping of the virtual table constructor: every user column gets a
    kind and an index within its kind. */
module Columns {
  datatype Kind = VectorKind | PartitionKind | AuxiliaryKind | MetadataKind

  /** A constructor argument after parsing. */
  datatype Argument =
    | VectorColumn(dimensions: nat)
    | PartitionColumn
    | PrimaryKey(isText: bool)
    | AuxiliaryColumn
    | MetadataColumn
    | ChunkSize(n: int)
    | Unparsable

  const MAX_VECTOR_COLUMNS := 16
  const MAX_PARTITION_COLUMNS := 4
  const MAX_AUXILIARY_COLUMNS := 16
  const MAX_METADATA_COLUMNS := 16
  const MAX_COLUMNS := 52
  const MAX_DIMENSIONS := 8192
  const CHUNK_SIZE_MAX := 4096
  const DEFAULT_CHUNK_SIZE := 1024

  const COLUMN_ID := 0
  const USERN_START := 1

  function Limit(k: Kind): nat {
    match k
    case VectorKind => MAX_VECTOR_COLUMNS
    case PartitionKind => MAX_PARTITION_COLUMNS
    case AuxiliaryKind => MAX_AUXILIARY_COLUMNS
    case MetadataKind => MAX_METADATA_COLUMNS
  }

  /** How many columns of this kind there are. */
  function Count(kinds: seq<Kind>, k: Kind): nat {
    multiset(kinds)[k]
  }

  lemma CountLast(kinds: seq<Kind>, k: Kind)
    requires kinds != []
    ensures var n := |kinds| - 1;
            Count(kinds, k) == Count(kinds[..n], k) + if kinds[n] == k then 1 else 0
  {
    assert kinds == kinds[..|kinds| - 1] + [kinds[|kinds| - 1]];
  }

  lemma {:induction false} CountMonotone(kinds: seq<Kind>, k: Kind, i: nat)
    requires i <= |kinds|
    ensures Count(kinds[..i], k) <= Count(kinds, k)
    ensures i < |kinds| && kinds[i] == k ==> Count(kinds[..i], k) < Count(kinds, k)
  {
    if i == |kinds| {
      assert kinds[..i] == kinds;
    } else {
      var n := |kinds| - 1;
      CountLast(kinds, k);
      CountMonotone(kinds[..n], k, i);
      assert kinds[..n][..i] == kinds[..i];
    }
  }

  lemma {:induction false} CountReached(kinds: seq<Kind>, k: Kind, m: nat) returns (i: nat)
    requires m < Count(kinds, k)
    ensures i < |kinds| && kinds[i] == k && Count(kinds[..i], k) == m
  {
    var n := |kinds| - 1;
    CountLast(kinds, k);
    if m < Count(kinds[..n], k) {
      i := CountReached(kinds[..n], k, m);
      assert kinds[..n][..i] == kinds[..i];
    } else {
      i := n;
    }
  }

  /** The columns in declaration order: a kind and an index within the kind. */
  datatype Layout = Layout(kinds: seq<Kind>, idxs: seq<nat>)

  ghost predicate Valid(l: Layout) {
    && |l.kinds| == |l.idxs| <= MAX_COLUMNS
    && (forall i {:trigger l.idxs[i]} | 0 <= i < |l.kinds| :: l.idxs[i] == Count(l.kinds[..i], l.kinds[i]))
    && forall k :: Count(l.kinds, k) <= Limit(k)
  }

  ghost predicate HasColumn(l: Layout, k: Kind, m: nat)
    requires |l.kinds| == |l.idxs|
  {
    exists i :: 0 <= i < |l.kinds| && l.kinds[i] == k && l.idxs[i] == m
  }

  lemma IndexesInOrder(l: Layout, k: Kind, i: nat, j: nat)
    requires Valid(l) && i < j < |l.kinds| && l.kinds[i] == k && l.kinds[j] == k
    ensures l.idxs[i] < l.idxs[j]
  {
    CountMonotone(l.kinds[..j], k, i);
    assert l.kinds[..j][..i] == l.kinds[..i];
  }

  /** The columns of each kind are numbered 0, 1, ... without gaps or repetitions, in
      declaration order. */
  lemma IndexesAreABijection(l: Layout, k: Kind)
    requires Valid(l)
    ensures Count(l.kinds, k) <= Limit(k)
    ensures forall i | 0 <= i < |l.kinds| && l.kinds[i] == k :: l.idxs[i] < Count(l.kinds, k)
    ensures forall i, j | 0 <= i < j < |l.kinds| && l.kinds[i] == k && l.kinds[j] == k :: l.idxs[i] < l.idxs[j]
    ensures forall m: nat | m < Count(l.kinds, k) :: HasColumn(l, k, m)
  {
    forall i | 0 <= i < |l.kinds| && l.kinds[i] == k ensures l.idxs[i] < Count(l.kinds, k) {
      CountMonotone(l.kinds, k, i);
    }
    forall i, j | 0 <= i < j < |l.kinds| && l.kinds[i] == k && l.kinds[j] == k ensures l.idxs[i] < l.idxs[j] {
      IndexesInOrder(l, k, i, j);
    }
    forall m: nat | m < Count(l.kinds, k) ensures HasColumn(l, k, m) {
      var i := CountReached(l.kinds, k, m);
      assert l.idxs[i] == m;
    }
  }

  // ----- the helpers on column numbers -----

  function DistanceIdx(l: Layout): int {
    USERN_START + (|l.kinds| - 1) + 1
  }

  function KIdx(l: Layout): int {
    USERN_START + (|l.kinds| - 1) + 2
  }

  /** vec0_column_idx_is_vector and its three siblings. */
  predicate IsKind(l: Layout, column: int, k: Kind) {
    column >= USERN_START && column <= USERN_START + |l.kinds| - 1 && l.kinds[column - USERN_START] == k
  }

  /** vec0_column_idx_to_vector_idx and its three siblings. */
  function ToIdx(l: Layout, column: int): nat
    requires |l.idxs| == |l.kinds| && exists k :: IsKind(l, column, k)
  {
    l.idxs[column - USERN_START]
  }

  lemma IndexInRange(l: Layout, column: int, k: Kind)
    requires Valid(l) && IsKind(l, column, k)
    ensures ToIdx(l, column) < Count(l.kinds, k) <= Limit(k)
  {
    CountMonotone(l.kinds, k, column - USERN_START);
    assert l.idxs[column - USERN_START] == Count(l.kinds[..column - USERN_START], k);
  }

  /** Kind and index determine the column number, and the hidden columns are no user columns. */
  lemma HelpersInvert(l: Layout, a: int, b: int, k: Kind)
    requires Valid(l) && IsKind(l, a, k)
    ensures forall k' :: IsKind(l, a, k') <==> k' == k
    ensures IsKind(l, b, k) && ToIdx(l, a) == ToIdx(l, b) ==> a == b
    ensures a != DistanceIdx(l) && a != KIdx(l) && a != COLUMN_ID && DistanceIdx(l) != KIdx(l)
  {
    if IsKind(l, b, k) && a != b {
      IndexesAreABijection(l, k);
    }
  }

  // ----- vec0_init -----

  class Vtab {
    const userColumnKinds: array<Kind>
    const userColumnIdxs: array<nat>
    var columns: nat
    var numVectorColumns: nat
    var numPartitionColumns: nat
    var numAuxiliaryColumns: nat
    var numMetadataColumns: nat
    var chunkSize: int
    var hasPrimaryKey: bool
    /** The columns recorded so far. */
    ghost var layout: Layout

    /** The arrays hold the layout. */
    ghost predicate Coupled()
      reads this`columns, this`layout, userColumnKinds, userColumnIdxs
    {
      && userColumnKinds.Length == userColumnIdxs.Length == MAX_COLUMNS
      && userColumnKinds as object != userColumnIdxs
      && Valid(layout) && columns == |layout.kinds|
      && (forall i | 0 <= i < columns :: userColumnKinds[i] == layout.kinds[i])
      && (forall i | 0 <= i < columns :: userColumnIdxs[i] == layout.idxs[i])
    }

    /** The counters count it. */
    ghost predicate Recorded()
      reads this`columns, this`layout, userColumnKinds, userColumnIdxs
      reads this`numVectorColumns, this`numPartitionColumns, this`numAuxiliaryColumns, this`numMetadataColumns
    {
      && Coupled()
      && numVectorColumns == Count(layout.kinds, VectorKind) && numPartitionColumns == Count(layout.kinds, PartitionKind)
      && numAuxiliaryColumns == Count(layout.kinds, AuxiliaryKind) && numMetadataColumns == Count(layout.kinds, MetadataKind)
    }

    function Num(k: Kind): nat
      reads this
    {
      match k
      case VectorKind => numVectorColumns
      case PartitionKind => numPartitionColumns
      case AuxiliaryKind => numAuxiliaryColumns
      case MetadataKind => numMetadataColumns
    }

    constructor ()
      ensures Recorded() && layout == Layout([], []) && chunkSize == -1 && !hasPrimaryKey
      ensures fresh(userColumnKinds) && fresh(userColumnIdxs)
    {
      userColumnKinds := new Kind[MAX_COLUMNS];
      userColumnIdxs := new nat[MAX_COLUMNS];
      columns, numVectorColumns, numPartitionColumns, numAuxiliaryColumns, numMetadataColumns := 0, 0, 0, 0, 0;
      chunkSize, hasPrimaryKey, layout := -1, false, Layout([], []);
    }

    method WriteColumn(k: Kind, idx: nat)
      requires Coupled() && |layout.kinds| < MAX_COLUMNS && idx == Count(layout.kinds, k) < Limit(k)
      modifies this`columns, this`layout, userColumnKinds, userColumnIdxs
      ensures Coupled() && layout == Appendix(old(layout), k)
    {
      Appended(layout, k);
      userColumnKinds[columns] := k;
      userColumnIdxs[columns] := idx;
      columns := columns + 1;
      layout := Appendix(layout, k);
    }

    /** Records one column; false when its kind is used up. */
    method AddColumn(k: Kind) returns (ok: bool)
      requires Recorded()
      modifies this`columns, this`layout, userColumnKinds, userColumnIdxs
      modifies this`numVectorColumns, this`numPartitionColumns, this`numAuxiliaryColumns, this`numMetadataColumns
      ensures Recorded()
      ensures ok <==> Count(old(layout).kinds, k) < Limit(k)
      ensures layout.kinds == if ok then old(layout).kinds + [k] else old(layout).kinds
    {
      if Num(k) >= Limit(k) { return false; }
      WithinLimits(layout);
      Appended(layout, k);
      WriteColumn(k, Num(k));
      match k {
        case VectorKind => numVectorColumns := numVectorColumns + 1;
        case PartitionKind => numPartitionColumns := numPartitionColumns + 1;
        case AuxiliaryKind => numAuxiliaryColumns := numAuxiliaryColumns + 1;
        case MetadataKind => numMetadataColumns := numMetadataColumns + 1;
      }
      return true;
    }

    /** These columns, this many primary keys and this chunk size have been seen. */
    ghost predicate Knows(kinds: seq<Kind>, primaryKeys: nat, size: int)
      reads this, userColumnKinds, userColumnIdxs
    {
      && Recorded() && layout.kinds == kinds && (hasPrimaryKey <==> primaryKeys == 1)
      && (chunkSize == -1 || (8 <= chunkSize <= CHUNK_SIZE_MAX && chunkSize % 8 == 0))
      && size == if chunkSize < 0 then DEFAULT_CHUNK_SIZE else chunkSize
    }

    /** What the constructor knows after some of its arguments. */
    ghost predicate Parsed(args: seq<Argument>)
      reads this, userColumnKinds, userColumnIdxs
    {
      Knows(Kinds(args), PrimaryKeys(args), SizeOf(args)) && AllFine(args)
    }

    /** A constructor argument that defines a user column. */
    method InitColumn(k: Kind, ghost args: seq<Argument>) returns (ok: bool)
      requires args != [] && Parsed(args[..|args| - 1]) && KindOf(args[|args| - 1]) == [k] && Fine(args[|args| - 1])
      modifies this, userColumnKinds, userColumnIdxs
      ensures ok <==> AllFine(args)
      ensures ok ==> Parsed(args)
    {
      OneMore(args);
      ok := AddColumn(k);
    }

    /** A primary key definition: only one is allowed. */
    method InitPrimaryKey(ghost args: seq<Argument>) returns (ok: bool)
      requires args != [] && Parsed(args[..|args| - 1]) && args[|args| - 1].PrimaryKey?
      modifies this`hasPrimaryKey
      ensures ok <==> AllFine(args)
      ensures ok ==> Parsed(args)
    {
      OneMore(args);
      ok := !hasPrimaryKey;
      if ok { hasPrimaryKey := true; }
    }

    method InitChunkSize(n: int, ghost args: seq<Argument>) returns (ok: bool)
      requires args != [] && Parsed(args[..|args| - 1]) && args[|args| - 1] == ChunkSize(n)
      modifies this`chunkSize
      ensures ok <==> AllFine(args)
      ensures ok ==> Parsed(args)
    {
      SizeAccepted(args, args[..|args| - 1], n);
      if n <= 0 || n % 8 != 0 || n > CHUNK_SIZE_MAX { return false; }
      AtLeastEight(n);
      chunkSize := n;
      return true;
    }

    /** One constructor argument. */
    method InitArgument(arg: Argument, ghost args: seq<Argument>) returns (ok: bool)
      requires args != [] && args[|args| - 1] == arg && Parsed(args[..|args| - 1])
      modifies this, userColumnKinds, userColumnIdxs
      ensures ok <==> AllFine(args)
      ensures ok ==> Parsed(args)
    {
      match arg
      case VectorColumn(d) =>
        if d > MAX_DIMENSIONS {
          assert !Fine(args[|args| - 1]);
          return false;
        }
        ok := InitColumn(VectorKind, args);
      case PartitionColumn => ok := InitColumn(PartitionKind, args);
      case PrimaryKey(_) => ok := InitPrimaryKey(args);
      case AuxiliaryColumn => ok := InitColumn(AuxiliaryKind, args);
      case MetadataColumn => ok := InitColumn(MetadataKind, args);
      case ChunkSize(n) => ok := InitChunkSize(n, args);
      case Unparsable =>
        assert !Fine(args[|args| - 1]);
        ok := false;
    }

    /** The loop over the constructor arguments. */
    method InitArguments(args: seq<Argument>) returns (ok: bool)
      requires Recorded() && columns == 0 && chunkSize == -1 && !hasPrimaryKey
      modifies this, userColumnKinds, userColumnIdxs
      ensures ok <==> AllFine(args)
      ensures ok ==> Parsed(args)
    {
      for i := 0 to |args|
        invariant Parsed(args[..i])
      {
        assert args[..i + 1][..i] == args[..i];
        PrefixFine(args, i + 1);
        ok := InitArgument(args[i], args[..i + 1]);
        if !ok { return; }
      }
      assert args[..|args|] == args;
      return true;
    }

    /** What the fields mean, argument by argument. */
    lemma Understood(args: seq<Argument>)
      requires Parsed(args)
      ensures Recorded() && (numVectorColumns > 0 <==> ArgumentsAllowed(args))
      ensures Counted(args, numVectorColumns, numPartitionColumns, numAuxiliaryColumns, numMetadataColumns)
      ensures InColumnOrder(args, layout.kinds)
      ensures IsChunkSize(args, if chunkSize < 0 then DEFAULT_CHUNK_SIZE else chunkSize)
    {
      AnswerIs(args, true, numVectorColumns);
      ArgumentsAre(args, layout.kinds, SizeOf(args));
    }

    method ReadArguments(args: seq<Argument>) returns (ok: bool)
      requires Recorded() && columns == 0 && chunkSize == -1 && !hasPrimaryKey
      modifies this, userColumnKinds, userColumnIdxs
      ensures ok ==> Recorded() && (numVectorColumns > 0 <==> ArgumentsAllowed(args))
      ensures ok ==>
        Counted(args, numVectorColumns, numPartitionColumns, numAuxiliaryColumns, numMetadataColumns)
      ensures ok ==> InColumnOrder(args, layout.kinds)
      ensures ok ==> IsChunkSize(args, if chunkSize < 0 then DEFAULT_CHUNK_SIZE else chunkSize)
      ensures !ok ==> !ArgumentsAllowed(args)
    {
      ok := InitArguments(args);
      if ok { Understood(args); } else { Refused(args); }
    }

    /** The checks behind the loop. */
    method Complete(ghost args: seq<Argument>) returns (ok: bool)
      requires Recorded() && IsChunkSize(args, if chunkSize < 0 then DEFAULT_CHUNK_SIZE else chunkSize)
      modifies this`chunkSize
      ensures Recorded() && (ok <==> numVectorColumns > 0)
      ensures IsChunkSize(args, chunkSize)
    {
      if chunkSize < 0 { chunkSize := DEFAULT_CHUNK_SIZE; }
      ok := numVectorColumns > 0;
    }

    /** The loop and the checks behind it. */
    method Init(args: seq<Argument>) returns (ok: bool)
      requires Recorded() && columns == 0 && chunkSize == -1 && !hasPrimaryKey
      modifies this, userColumnKinds, userColumnIdxs
      ensures ok <==> ArgumentsAllowed(args)
      ensures ok ==> Recorded() && InColumnOrder(args, layout.kinds) && IsChunkSize(args, chunkSize)
      ensures ok ==>
        Counted(args, numVectorColumns, numPartitionColumns, numAuxiliaryColumns, numMetadataColumns)
    {
      ok := ReadArguments(args);
      if ok { ok := Complete(args); }
    }
  }

  lemma {:induction false} CountTotal(kinds: seq<Kind>)
    ensures |kinds| == Count(kinds, VectorKind) + Count(kinds, PartitionKind)
                     + Count(kinds, AuxiliaryKind) + Count(kinds, MetadataKind)
  {
    if kinds != [] {
      CountTotal(kinds[..|kinds| - 1]);
      forall k ensures Count(kinds, k)
        == Count(kinds[..|kinds| - 1], k) + if kinds[|kinds| - 1] == k then 1 else 0
      {
        CountLast(kinds, k);
      }
    }
  }

  lemma WithinLimits(l: Layout)
    requires Valid(l)
    ensures Count(l.kinds, VectorKind) <= MAX_VECTOR_COLUMNS && Count(l.kinds, PartitionKind) <= MAX_PARTITION_COLUMNS
    ensures Count(l.kinds, AuxiliaryKind) <= MAX_AUXILIARY_COLUMNS && Count(l.kinds, MetadataKind) <= MAX_METADATA_COLUMNS
    ensures |l.kinds| == Count(l.kinds, VectorKind) + Count(l.kinds, PartitionKind)
                       + Count(l.kinds, AuxiliaryKind) + Count(l.kinds, MetadataKind)
  {
    CountTotal(l.kinds);
    assert Count(l.kinds, VectorKind) <= Limit(VectorKind) && Count(l.kinds, PartitionKind) <= Limit(PartitionKind);
    assert Count(l.kinds, AuxiliaryKind) <= Limit(AuxiliaryKind) && Count(l.kinds, MetadataKind) <= Limit(MetadataKind);
  }

  ghost function Appendix(l: Layout, k: Kind): Layout {
    Layout(l.kinds + [k], l.idxs + [Count(l.kinds, k)])
  }

  lemma Appended(l: Layout, k: Kind)
    requires Valid(l) && |l.kinds| < MAX_COLUMNS && Count(l.kinds, k) < Limit(k)
    ensures Valid(Appendix(l, k))
    ensures forall j :: Count(Appendix(l, k).kinds, j) == Count(l.kinds, j) + if j == k then 1 else 0
  {
    var kinds := l.kinds + [k];
    assert kinds[..|l.kinds|] == l.kinds;
    assert forall i | 0 <= i < |l.kinds| :: kinds[..i] == l.kinds[..i];
  }

  // ----- what the constructor accepts -----

  function KindOf(a: Argument): seq<Kind> {
    match a
    case VectorColumn(_) => [VectorKind]
    case PartitionColumn => [PartitionKind]
    case AuxiliaryColumn => [AuxiliaryKind]
    case MetadataColumn => [MetadataKind]
    case _ => []
  }

  /** The user columns, in declaration order. */
  function Kinds(args: seq<Argument>): seq<Kind> {
    if args == [] then [] else Kinds(args[..|args| - 1]) + KindOf(args[|args| - 1])
  }

  function PrimaryKeys(args: seq<Argument>): nat {
    if args == [] then 0 else PrimaryKeys(args[..|args| - 1]) + if args[|args| - 1].PrimaryKey? then 1 else 0
  }

  /** The last chunk_size option wins. */
  function SizeOf(args: seq<Argument>): int {
    if args == [] then DEFAULT_CHUNK_SIZE
    else if args[|args| - 1].ChunkSize? then args[|args| - 1].n
    else SizeOf(args[..|args| - 1])
  }

  predicate Fine(a: Argument) {
    match a
    case VectorColumn(d) => d <= MAX_DIMENSIONS
    case ChunkSize(n) => 0 < n <= CHUNK_SIZE_MAX && n % 8 == 0
    case Unparsable => false
    case _ => true
  }

  predicate EachFine(args: seq<Argument>) {
    forall i | 0 <= i < |args| :: Fine(args[i])
  }

  predicate InLimits(kinds: seq<Kind>) {
    forall k :: Count(kinds, k) <= Limit(k)
  }

  predicate AllFine(args: seq<Argument>) {
    EachFine(args) && PrimaryKeys(args) <= 1 && InLimits(Kinds(args))
  }

  predicate HasRoom(before: seq<Argument>, arg: Argument) {
    && (arg.PrimaryKey? ==> PrimaryKeys(before) == 0)
    && (KindOf(arg) != [] ==> Count(Kinds(before), KindOf(arg)[0]) < Limit(KindOf(arg)[0]))
  }

  lemma OneMoreKind(kinds: seq<Kind>, more: seq<Kind>)
    requires InLimits(kinds) && |more| <= 1
    ensures InLimits(kinds + more) <==> more == [] || Count(kinds, more[0]) < Limit(more[0])
  {
    if more == [] {
      assert kinds + more == kinds;
    } else {
      var k := more[0];
      assert more == [k];
      forall j ensures Count(kinds + more, j) == Count(kinds, j) + if j == k then 1 else 0 { }
      if Count(kinds, k) < Limit(k) {
        forall j ensures Count(kinds + more, j) <= Limit(j) { assert Count(kinds, j) <= Limit(j); }
      } else {
        assert Count(kinds + more, k) > Limit(k);
      }
    }
  }

  /** One more argument is fine when it is fine by itself and there is room for it. */
  lemma OneMore(args: seq<Argument>)
    requires args != [] && AllFine(args[..|args| - 1])
    ensures AllFine(args) <==> Fine(args[|args| - 1]) && HasRoom(args[..|args| - 1], args[|args| - 1])
  {
    var before, arg := args[..|args| - 1], args[|args| - 1];
    OneMoreKind(Kinds(before), KindOf(arg));
    assert EachFine(args) <==> Fine(arg) by {
      forall i | 0 <= i < |before| ensures Fine(args[i]) { assert Fine(before[i]); }
    }
  }

  lemma AtLeastEight(n: int)
    requires 0 < n && n % 8 == 0
    ensures 8 <= n
  {
  }

  /** A chunk_size option is no column and no primary key, and there is always room for it. */
  lemma SizeAccepted(args: seq<Argument>, before: seq<Argument>, n: int)
    requires args != [] && before == args[..|args| - 1] && args[|args| - 1] == ChunkSize(n) && AllFine(before)
    ensures SizeOf(args) == n && Kinds(args) == Kinds(before) && PrimaryKeys(args) == PrimaryKeys(before)
    ensures AllFine(args) <==> Fine(ChunkSize(n))
  {
    OneMore(args);
  }

  /** If the whole list is fine, so is every prefix. */
  lemma {:induction false} PrefixFine(args: seq<Argument>, i: nat)
    requires i <= |args|
    ensures AllFine(args) ==> AllFine(args[..i])
    decreases |args|
  {
    if i == |args| {
      assert args[..i] == args;
    } else {
      var n := |args| - 1;
      PrefixFine(args[..n], i);
      assert args[..n][..i] == args[..i];
      if AllFine(args) {
        forall k: Kind ensures Count(Kinds(args[..n]), k) <= Limit(k) {
          CountMonotone(Kinds(args), k, |Kinds(args[..n])|);
          assert Kinds(args)[..|Kinds(args[..n])|] == Kinds(args[..n]);
        }
      }
    }
  }

  // ----- the same, argument by argument -----

  const IsVectorColumn := (a: Argument) => a.VectorColumn?
  const IsPartitionColumn := (a: Argument) => a.PartitionColumn?
  const IsAuxiliaryColumn := (a: Argument) => a.AuxiliaryColumn?
  const IsMetadataColumn := (a: Argument) => a.MetadataColumn?
  const IsPrimaryKey := (a: Argument) => a.PrimaryKey?

  /** Where arguments of one sort stand. */
  ghost function Where(args: seq<Argument>, p: Argument -> bool): set<nat> {
    set i: nat | i < |args| && p(args[i])
  }

  predicate RecordedAs(a: Argument, k: Kind) {
    match k
    case VectorKind => a.VectorColumn?
    case PartitionKind => a.PartitionColumn?
    case AuxiliaryKind => a.AuxiliaryColumn?
    case MetadataKind => a.MetadataColumn?
  }

  /** Column i was defined by argument at[i], and no column is missing or out of order. */
  ghost predicate IsColumnOrder(args: seq<Argument>, kinds: seq<Kind>, at: seq<nat>) {
    && |at| == |kinds| && (forall i, j | 0 <= i < j < |at| :: at[i] < at[j])
    && (forall i | 0 <= i < |at| :: at[i] < |args| && RecordedAs(args[at[i]], kinds[i]))
    && forall j: nat, k | j < |args| && RecordedAs(args[j], k) :: j in at
  }

  /** The last chunk_size option, or 1024 without one. */
  ghost predicate IsChunkSize(args: seq<Argument>, n: int) {
    || (n == 1024 && forall i | 0 <= i < |args| :: !args[i].ChunkSize?)
    || exists i :: 0 <= i < |args| && args[i] == ChunkSize(n) && forall j | i < j < |args| :: !args[j].ChunkSize?
  }

  predicate ArgumentAllowed(a: Argument) {
    && !a.Unparsable? && (a.VectorColumn? ==> a.dimensions <= 8192)
    && (a.ChunkSize? ==> 0 < a.n <= 4096 && a.n % 8 == 0)
  }

  /** At least one vector column, and of everything no more than there is room for. */
  ghost predicate ArgumentsAllowed(args: seq<Argument>) {
    && (forall i | 0 <= i < |args| :: ArgumentAllowed(args[i]))
    && 1 <= |Where(args, IsVectorColumn)| <= 16 && |Where(args, IsPartitionColumn)| <= 4
    && |Where(args, IsAuxiliaryColumn)| <= 16 && |Where(args, IsMetadataColumn)| <= 16
    && |Where(args, IsPrimaryKey)| <= 1
  }

  lemma WhereLast(args: seq<Argument>, p: Argument -> bool)
    requires args != []
    ensures var n := |args| - 1; |Where(args, p)| == |Where(args[..n], p)| + if p(args[n]) then 1 else 0
  {
    var n := |args| - 1;
    assert Where(args, p) == Where(args[..n], p) + if p(args[n]) then {n} else {};
  }

  lemma CountMore(kinds: seq<Kind>, more: seq<Kind>, k: Kind)
    requires |more| <= 1
    ensures Count(kinds + more, k) == Count(kinds, k) + if more != [] && more[0] == k then 1 else 0
  {
    if more == [] {
      assert kinds + more == kinds;
    } else {
      assert more == [more[0]];
    }
  }

  lemma KindOfIs(a: Argument, k: Kind)
    ensures |KindOf(a)| <= 1 && (KindOf(a) != [] && KindOf(a)[0] == k <==> RecordedAs(a, k))
  {
  }

  lemma KindsLast(args: seq<Argument>, before: seq<Argument>, a: Argument, k: Kind)
    requires args != [] && before == args[..|args| - 1] && a == args[|args| - 1]
    ensures Count(Kinds(args), k) == Count(Kinds(before), k) + if RecordedAs(a, k) then 1 else 0
  {
    KindOfIs(a, k);
    CountMore(Kinds(before), KindOf(a), k);
  }

  lemma {:induction false} CountIs(args: seq<Argument>, p: Argument -> bool, k: Kind)
    requires forall a :: p(a) <==> RecordedAs(a, k)
    ensures |Where(args, p)| == Count(Kinds(args), k)
  {
    if args != [] {
      CountIs(args[..|args| - 1], p, k);
      WhereLast(args, p);
      KindsLast(args, args[..|args| - 1], args[|args| - 1], k);
    }
  }

  lemma {:induction false} PrimaryKeysCounted(args: seq<Argument>)
    ensures |Where(args, IsPrimaryKey)| == PrimaryKeys(args)
  {
    if args != [] {
      PrimaryKeysCounted(args[..|args| - 1]);
      WhereLast(args, IsPrimaryKey);
    }
  }

  /** The counters count the arguments. */
  ghost predicate Counted(args: seq<Argument>, vectors: nat, partitions: nat, auxiliary: nat, metadata: nat) {
    && vectors == |Where(args, IsVectorColumn)| && partitions == |Where(args, IsPartitionColumn)|
    && auxiliary == |Where(args, IsAuxiliaryColumn)| && metadata == |Where(args, IsMetadataColumn)|
  }

  lemma CountedByKind(args: seq<Argument>)
    ensures Counted(args, Count(Kinds(args), VectorKind), Count(Kinds(args), PartitionKind),
                    Count(Kinds(args), AuxiliaryKind), Count(Kinds(args), MetadataKind))
  {
    CountIs(args, IsVectorColumn, VectorKind);
    CountIs(args, IsPartitionColumn, PartitionKind);
    CountIs(args, IsAuxiliaryColumn, AuxiliaryKind);
    CountIs(args, IsMetadataColumn, MetadataKind);
  }

  lemma LimitsAre(kinds: seq<Kind>)
    ensures InLimits(kinds) <==>
      && Count(kinds, VectorKind) <= 16 && Count(kinds, PartitionKind) <= 4
      && Count(kinds, AuxiliaryKind) <= 16 && Count(kinds, MetadataKind) <= 16
  {
    if InLimits(kinds) {
      assert Count(kinds, VectorKind) <= Limit(VectorKind) && Count(kinds, PartitionKind) <= Limit(PartitionKind);
      assert Count(kinds, AuxiliaryKind) <= Limit(AuxiliaryKind) && Count(kinds, MetadataKind) <= Limit(MetadataKind);
    }
  }

  lemma EachAllowed(args: seq<Argument>)
    ensures EachFine(args) <==> forall i | 0 <= i < |args| :: ArgumentAllowed(args[i])
  {
    forall a ensures Fine(a) <==> ArgumentAllowed(a) { }
  }

  /** The answer of the constructor, argument by argument. */
  lemma AnswerIs(args: seq<Argument>, fine: bool, vectors: nat)
    requires fine <==> AllFine(args)
    requires fine ==> vectors == Count(Kinds(args), VectorKind)
    ensures fine && vectors > 0 <==> ArgumentsAllowed(args)
  {
    EachAllowed(args);
    CountedByKind(args);
    PrimaryKeysCounted(args);
    LimitsAre(Kinds(args));
  }

  lemma Refused(args: seq<Argument>)
    requires !AllFine(args)
    ensures !ArgumentsAllowed(args)
  {
    AnswerIs(args, false, 0);
  }

  /** What it has recorded. */
  lemma ArgumentsAre(args: seq<Argument>, kinds: seq<Kind>, size: int)
    requires kinds == Kinds(args) && size == SizeOf(args)
    ensures Counted(args, Count(kinds, VectorKind), Count(kinds, PartitionKind), Count(kinds, AuxiliaryKind),
                    Count(kinds, MetadataKind))
    ensures InColumnOrder(args, kinds) && IsChunkSize(args, size)
  {
    CountedByKind(args);
    SizeIs(args);
    var at := ColumnPositions(args);
  }

  lemma SizeNext(args: seq<Argument>, n: int)
    requires args != [] && !args[|args| - 1].ChunkSize? && IsChunkSize(args[..|args| - 1], n)
    ensures IsChunkSize(args, n)
  {
    var before := args[..|args| - 1];
    if i :| 0 <= i < |before| && before[i] == ChunkSize(n) && forall j | i < j < |before| :: !before[j].ChunkSize? {
      assert args[i] == ChunkSize(n);
    }
  }

  lemma {:induction false} SizeIs(args: seq<Argument>)
    ensures IsChunkSize(args, SizeOf(args))
  {
    if args != [] {
      var n := |args| - 1;
      SizeIs(args[..n]);
      if args[n].ChunkSize? {
        assert args[n] == ChunkSize(SizeOf(args));
      } else {
        SizeNext(args, SizeOf(args));
      }
    }
  }

  ghost predicate InColumnOrder(args: seq<Argument>, kinds: seq<Kind>) {
    exists at :: IsColumnOrder(args, kinds, at)
  }

  lemma PositionsNext(args: seq<Argument>, kinds: seq<Kind>, at: seq<nat>)
    requires args != [] && IsColumnOrder(args[..|args| - 1], kinds, at)
    ensures var n := |args| - 1;
            if KindOf(args[n]) == [] then IsColumnOrder(args, kinds, at)
            else IsColumnOrder(args, kinds + KindOf(args[n]), at + [n])
  {
    var n := |args| - 1;
    var before := args[..n];
    forall j: nat, k | j < n && RecordedAs(args[j], k) ensures j in at { assert RecordedAs(before[j], k); }
    forall i | 0 <= i < |at| ensures at[i] < n && RecordedAs(args[at[i]], kinds[i]) { assert before[at[i]] == args[at[i]]; }
  }

  lemma {:induction false} ColumnPositions(args: seq<Argument>) returns (at: seq<nat>)
    ensures IsColumnOrder(args, Kinds(args), at)
  {
    at := [];
    if args != [] {
      var n := |args| - 1;
      at := ColumnPositions(args[..n]);
      PositionsNext(args, Kinds(args[..n]), at);
      if KindOf(args[n]) != [] { at := at + [n]; }
    }
  }
}
