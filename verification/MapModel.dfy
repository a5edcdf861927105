/** The reference: a table is a map from rowid to row and the largest rowid ever
    used. Statements either succeed and change one entry, or change nothing. */
module MapModel {
  import opened Schema
  import opened Metadata
  import opened Store

  const MAX_ROWID := 0x7FFF_FFFF_FFFF_FFFF

  /** What a statement supplies for a vector column. */
  datatype VectorArg = NullVector | Malformed | Decoded(v: Vector)

  datatype Statement =
    | InsertRow(id: SqlValue, partition: seq<SqlValue>, vectors: seq<VectorArg>, metadata: seq<SqlValue>,
                distance: SqlValue, k: SqlValue)
    | DeleteRow(rowid: int)
    /** Columns whose value does not change are None; `newId` is the value given for the rowid column. */
    | UpdateRow(rowid: int, newId: SqlValue, partitionChanged: seq<bool>, vectors: seq<VectorArg>,
                changes: seq<Option<SqlValue>>)

  /** `inserted` counts the successful inserts so far, by partition key. */
  datatype TableState = TableState(rows: map<int, Row>, maxRowid: int, inserted: map<seq<SqlValue>, nat>)

  /** The arguments have one value for each column, and decoded vectors are well formed. */
  ghost predicate WellFormed(s: TableSchema, stmt: Statement) {
    match stmt
    case InsertRow(_, partition, vectors, metadata, _, _) =>
      && |partition| == |s.partitions| && |vectors| == |s.vectors| && |metadata| == |s.metadata|
      && forall i | 0 <= i < |vectors| && vectors[i].Decoded? :: ValidVector(vectors[i].v)
    case DeleteRow(_) => true
    case UpdateRow(_, _, partitionChanged, vectors, changes) =>
      && |partitionChanged| == |s.partitions| && |vectors| == |s.vectors| && |changes| == |s.metadata|
      && forall i | 0 <= i < |vectors| && vectors[i].Decoded? :: ValidVector(vectors[i].v)
  }

  predicate PartitionOk(s: TableSchema, partition: seq<SqlValue>)
    requires |partition| == |s.partitions|
  {
    forall i | 0 <= i < |partition| :: partition[i].Null? || HasType(partition[i], s.partitions[i])
  }

  predicate VectorOk(arg: VectorArg, c: VectorColumn) {
    arg.Decoded? && Fits(arg.v, c)
  }

  function Vectors(args: seq<VectorArg>): (vs: seq<Vector>)
    requires forall i | 0 <= i < |args| :: args[i].Decoded?
    ensures |vs| == |args| && forall i | 0 <= i < |args| :: vs[i] == args[i].v
  {
    seq(|args|, i requires 0 <= i < |args| => args[i].v)
  }

  function NewVectors(args: seq<VectorArg>): (vs: seq<Option<Vector>>)
    ensures |vs| == |args|
    ensures forall i | 0 <= i < |args| :: vs[i] == if args[i].Decoded? then Some(args[i].v) else None
  {
    seq(|args|, i requires 0 <= i < |args| => if args[i].Decoded? then Some(args[i].v) else None)
  }

  /** The rowid an insert will use, if any is available. */
  function RowidFor(taken: set<int>, maxRowid: int, id: SqlValue): Option<int> {
    match id
    case Integer(i) => if i in taken then None else Some(i)
    case Null => if maxRowid < MAX_ROWID then Some(maxRowid + 1) else None
    case _ => None
  }

  function Bump(inserted: map<seq<SqlValue>, nat>, key: seq<SqlValue>): map<seq<SqlValue>, nat> {
    inserted[key := (if key in inserted then inserted[key] else 0) + 1]
  }

  function Max(a: int, b: int): int {
    if a > b then a else b
  }

  predicate InsertAccepted(s: TableSchema, st: TableState, stmt: Statement)
    requires stmt.InsertRow? && |stmt.partition| == |s.partitions|
    requires |stmt.vectors| == |s.vectors| && |stmt.metadata| == |s.metadata|
  {
    && PartitionOk(s, stmt.partition)
    && (forall i | 0 <= i < |stmt.vectors| :: VectorOk(stmt.vectors[i], s.vectors[i]))
    && stmt.distance.Null? && stmt.k.Null?
    && RowidFor(st.rows.Keys, st.maxRowid, stmt.id).Some?
    && (forall j | 0 <= j < |stmt.metadata| :: Accepts(s.metadata[j], stmt.metadata[j]))
  }

  predicate UpdateAccepted(s: TableSchema, st: TableState, stmt: Statement)
    requires stmt.UpdateRow? && |stmt.vectors| == |s.vectors| && |stmt.changes| == |s.metadata|
  {
    && stmt.rowid in st.rows
    && (forall i | 0 <= i < |stmt.partitionChanged| :: !stmt.partitionChanged[i])
    && (forall j | 0 <= j < |stmt.changes| && stmt.changes[j].Some? :: Accepts(s.metadata[j], stmt.changes[j].value))
    && (forall i | 0 <= i < |stmt.vectors| :: stmt.vectors[i].NullVector? || VectorOk(stmt.vectors[i], s.vectors[i]))
  }

  ghost predicate RowsFit(s: TableSchema, st: TableState) {
    forall r | r in st.rows :: |st.rows[r].vectors| == |s.vectors| && |st.rows[r].metadata| == |s.metadata|
  }

  /** One statement on the plain map. The result is the rowid concerned, or None for an error. */
  ghost function Apply(s: TableSchema, st: TableState, stmt: Statement): (r: (TableState, Option<int>))
    requires WellFormed(s, stmt) && RowsFit(s, st)
    ensures RowsFit(s, r.0)
    ensures r.1.None? ==> r.0 == st
  {
    match stmt
    case InsertRow(id, partition, vectors, metadata, _, _) =>
      if !InsertAccepted(s, st, stmt) then (st, None)
      else
        var r := RowidFor(st.rows.Keys, st.maxRowid, id).value;
        var row := StoredRow(s, partition, Vectors(vectors), metadata);
        (TableState(st.rows[r := row], Max(r, st.maxRowid), Bump(st.inserted, partition)), Some(r))
    case DeleteRow(rowid) =>
      if rowid !in st.rows then (st, None) else (st.(rows := st.rows - {rowid}), Some(rowid))
    case UpdateRow(rowid, _, _, vectors, changes) =>
      if !UpdateAccepted(s, st, stmt) then (st, None)
      else (st.(rows := st.rows[rowid := UpdatedRow(s, st.rows[rowid], NewVectors(vectors), changes)]), Some(rowid))
  }

  /** A whole run of statements, with the result of each. */
  ghost function Run(s: TableSchema, st: TableState, stmts: seq<Statement>): (r: (TableState, seq<Option<int>>))
    requires RowsFit(s, st) && forall i | 0 <= i < |stmts| :: WellFormed(s, stmts[i])
    ensures RowsFit(s, r.0) && |r.1| == |stmts|
    decreases |stmts|
  {
    if stmts == [] then (st, [])
    else
      var before := Run(s, st, stmts[..|stmts| - 1]);
      var after := Apply(s, before.0, stmts[|stmts| - 1]);
      (after.0, before.1 + [after.1])
  }

  lemma RunNext(s: TableSchema, st: TableState, stmts: seq<Statement>, i: nat)
    requires RowsFit(s, st) && i < |stmts| && forall j | 0 <= j < |stmts| :: WellFormed(s, stmts[j])
    ensures var before := Run(s, st, stmts[..i]);
            var after := Apply(s, before.0, stmts[i]);
            Run(s, st, stmts[..i + 1]) == (after.0, before.1 + [after.1])
  {
    assert stmts[..i + 1][..i] == stmts[..i];
  }

  /** An UPDATE that names a new rowid keeps the old one: the new value is never looked at. */
  lemma UpdateIgnoresNewRowid(s: TableSchema, st: TableState, stmt: Statement, newId: SqlValue)
    requires stmt.UpdateRow? && WellFormed(s, stmt) && RowsFit(s, st)
    ensures Apply(s, st, stmt.(newId := newId)) == Apply(s, st, stmt)
    ensures Apply(s, st, stmt).0.rows.Keys == st.rows.Keys
  {
  }
}
