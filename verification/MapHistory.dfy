/** The map told from the statements alone: which rowids inserts return, which rows are alive and
    what they hold after any run from the empty table, and which inserts and updates are refused. */
module MapHistory {
  import opened Schema
  import opened Metadata
  import opened Store
  import opened MapModel

  const EMPTY := TableState(map[], 0, map[])

  /** A run of statements with its results and the states between them. */
  ghost predicate IsHistory(s: TableSchema, stmts: seq<Statement>, rs: seq<Option<int>>, states: seq<TableState>) {
    && |rs| == |stmts| && |states| == |stmts| + 1 && states[0] == EMPTY
    && (forall i | 0 <= i < |stmts| :: WellFormed(s, stmts[i]))
    && (forall i | 0 <= i < |states| :: RowsFit(s, states[i]))
    && forall i | 0 <= i < |stmts| :: (states[i + 1], rs[i]) == Apply(s, states[i], stmts[i])
  }

  lemma {:induction false} RunIsHistory(s: TableSchema, stmts: seq<Statement>) returns (states: seq<TableState>)
    requires forall i | 0 <= i < |stmts| :: WellFormed(s, stmts[i])
    ensures IsHistory(s, stmts, Run(s, EMPTY, stmts).1, states)
    ensures states[|stmts|] == Run(s, EMPTY, stmts).0
    decreases |stmts|
  {
    if stmts == [] {
      states := [EMPTY];
    } else {
      var n := |stmts| - 1;
      var before := RunIsHistory(s, stmts[..n]);
      var prior := Run(s, EMPTY, stmts[..n]);
      var last := Apply(s, prior.0, stmts[n]);
      HistoryNext(s, stmts, prior.1, before, last);
      states := before + [last.0];
    }
  }

  lemma HistoryNext(s: TableSchema, stmts: seq<Statement>, rs: seq<Option<int>>, states: seq<TableState>,
                    last: (TableState, Option<int>))
    requires stmts != [] && forall i | 0 <= i < |stmts| :: WellFormed(s, stmts[i])
    requires IsHistory(s, stmts[..|stmts| - 1], rs, states)
    requires last == Apply(s, states[|stmts| - 1], stmts[|stmts| - 1])
    ensures IsHistory(s, stmts, rs + [last.1], states + [last.0])
  {
    var n, all, results := |stmts| - 1, states + [last.0], rs + [last.1];
    forall i | 0 <= i < |stmts| ensures RowsFit(s, all[i]) && (all[i + 1], results[i]) == Apply(s, all[i], stmts[i]) {
      if i < n { assert stmts[..n][i] == stmts[i]; }
    }
  }

  // ----- the statements that matter to a row -----

  /** Statement i inserted row r. */
  ghost predicate Inserts(stmts: seq<Statement>, rs: seq<Option<int>>, i: nat, r: int) {
    i < |stmts| == |rs| && stmts[i].InsertRow? && rs[i] == Some(r)
  }

  ghost predicate Deletes(stmts: seq<Statement>, rs: seq<Option<int>>, i: nat, r: int) {
    i < |stmts| == |rs| && stmts[i].DeleteRow? && rs[i] == Some(r)
  }

  /** Row r was inserted by statement i and not deleted before statement n. */
  ghost predicate AliveSince(stmts: seq<Statement>, rs: seq<Option<int>>, i: nat, n: nat, r: int) {
    i < n && Inserts(stmts, rs, i, r) && forall j: nat | i < j < n :: !Deletes(stmts, rs, j, r)
  }

  ghost predicate Alive(stmts: seq<Statement>, rs: seq<Option<int>>, n: nat, r: int) {
    exists i: nat :: AliveSince(stmts, rs, i, n, r)
  }

  /** A row is in the map exactly when it was inserted and not deleted since. */
  lemma {:induction false} RowsAreAlive(s: TableSchema, stmts: seq<Statement>, rs: seq<Option<int>>, states: seq<TableState>,
                                        n: nat, r: int)
    requires IsHistory(s, stmts, rs, states) && n <= |stmts|
    ensures r in states[n].rows <==> Alive(stmts, rs, n, r)
  {
    if n > 0 {
      RowsAreAlive(s, stmts, rs, states, n - 1, r);
      AliveNext(s, stmts, rs, states, n - 1, r);
      assert (states[n - 1 + 1], rs[n - 1]) == Apply(s, states[n - 1], stmts[n - 1]);
    }
  }

  lemma AliveNext(s: TableSchema, stmts: seq<Statement>, rs: seq<Option<int>>, states: seq<TableState>, n: nat, r: int)
    requires IsHistory(s, stmts, rs, states) && n < |stmts|
    ensures Alive(stmts, rs, n + 1, r) <==>
      Inserts(stmts, rs, n, r) || (Alive(stmts, rs, n, r) && !Deletes(stmts, rs, n, r))
  {
    if Inserts(stmts, rs, n, r) { assert AliveSince(stmts, rs, n, n + 1, r); }
    if Alive(stmts, rs, n + 1, r) {
      var i: nat :| AliveSince(stmts, rs, i, n + 1, r);
      assert i == n || AliveSince(stmts, rs, i, n, r);
      assert i == n || !Deletes(stmts, rs, n, r);
    }
    if Alive(stmts, rs, n, r) && !Deletes(stmts, rs, n, r) {
      var i: nat :| AliveSince(stmts, rs, i, n, r);
      assert AliveSince(stmts, rs, i, n + 1, r);
    }
  }

  // ----- rowids -----

  /** An insert before statement n returned r. */
  ghost predicate Returned(stmts: seq<Statement>, rs: seq<Option<int>>, n: nat, r: int) {
    exists i: nat :: i < n && Inserts(stmts, rs, i, r)
  }

  /** No insert before statement n returned more than `top`, and one returned it unless it is 0. */
  ghost predicate IsGreatest(stmts: seq<Statement>, rs: seq<Option<int>>, n: nat, top: int) {
    0 <= top && (forall r | Returned(stmts, rs, n, r) :: r <= top) && (top == 0 || Returned(stmts, rs, n, top))
  }

  lemma {:induction false} CounterIsGreatest(s: TableSchema, stmts: seq<Statement>, rs: seq<Option<int>>,
                                             states: seq<TableState>, n: nat)
    requires IsHistory(s, stmts, rs, states) && n <= |stmts|
    ensures IsGreatest(stmts, rs, n, states[n].maxRowid)
  {
    if n > 0 {
      CounterIsGreatest(s, stmts, rs, states, n - 1);
      var before, after := states[n - 1].maxRowid, states[n].maxRowid;
      assert (states[n - 1 + 1], rs[n - 1]) == Apply(s, states[n - 1], stmts[n - 1]);
      forall r ensures Returned(stmts, rs, n, r) <==> Returned(stmts, rs, n - 1, r) || Inserts(stmts, rs, n - 1, r) {
        if Returned(stmts, rs, n - 1, r) {
          var i: nat :| i < n - 1 && Inserts(stmts, rs, i, r);
        }
      }
      if stmts[n - 1].InsertRow? && rs[n - 1].Some? { assert Inserts(stmts, rs, n - 1, rs[n - 1].value); }
    }
  }

  /** An INSERT returns the rowid it is given. Without one it returns the least positive number above
      every rowid that an INSERT of this run ever returned, be the row deleted or not. */
  lemma InsertReturns(s: TableSchema, stmts: seq<Statement>, n: nat)
    requires (forall i | 0 <= i < |stmts| :: WellFormed(s, stmts[i])) && n < |stmts|
    requires stmts[n].InsertRow? && Run(s, EMPTY, stmts).1[n].Some?
    ensures var rs := Run(s, EMPTY, stmts).1;
            && (stmts[n].id.Integer? ==> rs[n].value == stmts[n].id.i)
            && (stmts[n].id.Null? ==>
                  && 1 <= rs[n].value && (forall r | Returned(stmts, rs, n, r) :: r < rs[n].value)
                  && (rs[n].value == 1 || Returned(stmts, rs, n, rs[n].value - 1)))
  {
    var rs := Run(s, EMPTY, stmts).1;
    var states := RunIsHistory(s, stmts);
    CounterIsGreatest(s, stmts, rs, states, n);
    assert (states[n + 1], rs[n]) == Apply(s, states[n], stmts[n]);
  }

  // ----- what is refused -----

  /** A partition value is NULL or has the declared type. */
  predicate PartitionFits(t: SqlType, v: SqlValue) {
    || v.Null? || (t == IntegerType && v.Integer?) || (t == FloatType && v.Float?) || (t == TextType && v.Text?)
  }

  /** A vector was decoded and has the type and the length of its column. */
  predicate VectorFits(c: VectorColumn, a: VectorArg) {
    a.Decoded? && a.v.elementType == c.elementType && a.v.dimensions == c.dimensions
  }

  /** A metadata value has its column's type; the low 32 bits of a boolean are 0 or 1. */
  predicate MetadataFits(kind: MetaKind, v: SqlValue) {
    match kind
    case BooleanKind => v.Integer? && (v.i % 0x1_0000_0000 == 0 || v.i % 0x1_0000_0000 == 1)
    case IntegerKind => v.Integer?
    case FloatKind => v.Float?
    case TextKind => v.Text?
  }

  /** There is a rowid for the insert that is statement n. */
  ghost predicate RowidFree(stmts: seq<Statement>, rs: seq<Option<int>>, n: nat, id: SqlValue) {
    match id
    case Integer(i) => !Alive(stmts, rs, n, i)
    case Null => forall r | Returned(stmts, rs, n, r) :: r < 0x7FFF_FFFF_FFFF_FFFF
    case _ => false
  }

  ghost predicate ValuesFit(s: TableSchema, stmt: Statement)
    requires stmt.InsertRow? && WellFormed(s, stmt)
  {
    && (forall i | 0 <= i < |s.partitions| :: PartitionFits(s.partitions[i], stmt.partition[i]))
    && (forall i | 0 <= i < |s.vectors| :: VectorFits(s.vectors[i], stmt.vectors[i]))
    && (forall j | 0 <= j < |s.metadata| :: MetadataFits(s.metadata[j], stmt.metadata[j]))
  }

  ghost predicate ChangesFit(s: TableSchema, stmt: Statement)
    requires stmt.UpdateRow? && WellFormed(s, stmt)
  {
    && (forall i | 0 <= i < |s.partitions| :: !stmt.partitionChanged[i])
    && (forall i | 0 <= i < |s.vectors| :: stmt.vectors[i] == NullVector || VectorFits(s.vectors[i], stmt.vectors[i]))
    && (forall j | 0 <= j < |s.metadata| && stmt.changes[j].Some? ::
          MetadataFits(s.metadata[j], stmt.changes[j].value))
  }

  lemma InsertAcceptedIs(s: TableSchema, st: TableState, stmt: Statement)
    requires stmt.InsertRow? && WellFormed(s, stmt)
    ensures InsertAccepted(s, st, stmt) <==>
      && RowidFor(st.rows.Keys, st.maxRowid, stmt.id).Some? && stmt.distance == Null && stmt.k == Null
      && ValuesFit(s, stmt)
  {
    forall i | 0 <= i < |s.partitions|
      ensures PartitionFits(s.partitions[i], stmt.partition[i])
        <==> stmt.partition[i].Null? || HasType(stmt.partition[i], s.partitions[i])
    {
    }
    forall i | 0 <= i < |s.vectors|
      ensures VectorFits(s.vectors[i], stmt.vectors[i]) <==> VectorOk(stmt.vectors[i], s.vectors[i])
    {
    }
    forall j | 0 <= j < |s.metadata|
      ensures MetadataFits(s.metadata[j], stmt.metadata[j]) <==> Accepts(s.metadata[j], stmt.metadata[j])
    {
      AcceptsIs(s.metadata[j], stmt.metadata[j]);
    }
  }

  lemma AcceptsIs(kind: MetaKind, v: SqlValue)
    ensures Accepts(kind, v) <==> MetadataFits(kind, v)
    ensures Accepts(kind, v) ==> Stored(kind, v) == ReadBack(kind, v)
  {
  }

  lemma UpdateAcceptedIs(s: TableSchema, st: TableState, stmt: Statement)
    requires stmt.UpdateRow? && WellFormed(s, stmt)
    ensures UpdateAccepted(s, st, stmt) <==> stmt.rowid in st.rows && ChangesFit(s, stmt)
  {
    forall i | 0 <= i < |s.vectors|
      ensures VectorFits(s.vectors[i], stmt.vectors[i]) <==> VectorOk(stmt.vectors[i], s.vectors[i])
    {
    }
    forall j | 0 <= j < |s.metadata| && stmt.changes[j].Some?
      ensures MetadataFits(s.metadata[j], stmt.changes[j].value) <==> Accepts(s.metadata[j], stmt.changes[j].value)
    {
      AcceptsIs(s.metadata[j], stmt.changes[j].value);
    }
  }

  /** An INSERT succeeds exactly when there is a rowid for it, every value fits, and the hidden
      columns get no value. */
  lemma InsertSucceedsIff(s: TableSchema, stmts: seq<Statement>, n: nat)
    requires (forall i | 0 <= i < |stmts| :: WellFormed(s, stmts[i])) && n < |stmts| && stmts[n].InsertRow?
    ensures var rs, stmt := Run(s, EMPTY, stmts).1, stmts[n];
            rs[n].Some? <==>
              RowidFree(stmts, rs, n, stmt.id) && stmt.distance == Null && stmt.k == Null && ValuesFit(s, stmt)
  {
    var rs := Run(s, EMPTY, stmts).1;
    var states := RunIsHistory(s, stmts);
    CounterIsGreatest(s, stmts, rs, states, n);
    if stmts[n].id.Integer? { RowsAreAlive(s, stmts, rs, states, n, stmts[n].id.i); }
    InsertAcceptedIs(s, states[n], stmts[n]);
    assert (states[n + 1], rs[n]) == Apply(s, states[n], stmts[n]);
  }

  /** A DELETE succeeds exactly when its row is alive. */
  lemma DeleteSucceedsIff(s: TableSchema, stmts: seq<Statement>, n: nat)
    requires (forall i | 0 <= i < |stmts| :: WellFormed(s, stmts[i])) && n < |stmts| && stmts[n].DeleteRow?
    ensures var rs := Run(s, EMPTY, stmts).1;
            rs[n] == if Alive(stmts, rs, n, stmts[n].rowid) then Some(stmts[n].rowid) else None
  {
    var rs := Run(s, EMPTY, stmts).1;
    var states := RunIsHistory(s, stmts);
    RowsAreAlive(s, stmts, rs, states, n, stmts[n].rowid);
    assert (states[n + 1], rs[n]) == Apply(s, states[n], stmts[n]);
  }

  /** An UPDATE succeeds exactly when its row is alive, no partition value changes, and every new
      value fits; it never gives the row another rowid. */
  lemma UpdateSucceedsIff(s: TableSchema, stmts: seq<Statement>, n: nat)
    requires (forall i | 0 <= i < |stmts| :: WellFormed(s, stmts[i])) && n < |stmts| && stmts[n].UpdateRow?
    ensures var rs, stmt := Run(s, EMPTY, stmts).1, stmts[n];
            && (rs[n].Some? ==> rs[n].value == stmt.rowid)
            && (rs[n].Some? <==> Alive(stmts, rs, n, stmt.rowid) && ChangesFit(s, stmt))
  {
    var rs := Run(s, EMPTY, stmts).1;
    var states := RunIsHistory(s, stmts);
    UpdateAcceptedIs(s, states[n], stmts[n]);
    RowsAreAlive(s, stmts, rs, states, n, stmts[n].rowid);
    assert (states[n + 1], rs[n]) == Apply(s, states[n], stmts[n]);
  }

  // ----- what rows hold -----

  /** Statement i gave metadata column c of row r the value v. */
  ghost predicate SetsMetadata(stmts: seq<Statement>, rs: seq<Option<int>>, i: nat, r: int, c: nat, v: SqlValue) {
    && i < |stmts| == |rs| && rs[i] == Some(r)
    && ((stmts[i].InsertRow? && c < |stmts[i].metadata| && stmts[i].metadata[c] == v)
        || (stmts[i].UpdateRow? && c < |stmts[i].changes| && stmts[i].changes[c] == Some(v)))
  }

  /** Statement i was the last before statement n to do so, and the row was not deleted since. */
  ghost predicate LastMetadata(stmts: seq<Statement>, rs: seq<Option<int>>, n: nat, i: nat, r: int, c: nat, v: SqlValue) {
    && i < n && SetsMetadata(stmts, rs, i, r, c, v)
    && (forall j: nat, w | i < j < n :: !SetsMetadata(stmts, rs, j, r, c, w))
    && forall j: nat | i < j < n :: !Deletes(stmts, rs, j, r)
  }

  ghost predicate SetsVector(stmts: seq<Statement>, rs: seq<Option<int>>, i: nat, r: int, c: nat, v: Vector) {
    && i < |stmts| == |rs| && rs[i] == Some(r) && !stmts[i].DeleteRow?
    && c < |stmts[i].vectors| && stmts[i].vectors[c] == Decoded(v)
  }

  ghost predicate LastVector(stmts: seq<Statement>, rs: seq<Option<int>>, n: nat, i: nat, r: int, c: nat, v: Vector) {
    && i < n && SetsVector(stmts, rs, i, r, c, v)
    && (forall j: nat, w | i < j < n :: !SetsVector(stmts, rs, j, r, c, w))
    && forall j: nat | i < j < n :: !Deletes(stmts, rs, j, r)
  }

  /** A value as it is read back: booleans as 0 or 1. */
  function ReadBack(kind: MetaKind, v: SqlValue): SqlValue {
    if kind == BooleanKind && v.Integer? then Integer(if v.i % 0x1_0000_0000 == 0 then 0 else 1) else v
  }

  ghost predicate TouchesMetadata(stmts: seq<Statement>, rs: seq<Option<int>>, i: nat, r: int, c: nat) {
    exists v :: SetsMetadata(stmts, rs, i, r, c, v)
  }

  ghost predicate TouchesVector(stmts: seq<Statement>, rs: seq<Option<int>>, i: nat, r: int, c: nat) {
    exists v :: SetsVector(stmts, rs, i, r, c, v)
  }

  /** One statement on one value. */
  lemma MetadataNext(s: TableSchema, stmts: seq<Statement>, rs: seq<Option<int>>, states: seq<TableState>,
                     n: nat, r: int, c: nat)
    requires IsHistory(s, stmts, rs, states) && n < |stmts| && r in states[n + 1].rows && c < |s.metadata|
    ensures forall v | SetsMetadata(stmts, rs, n, r, c, v) :: states[n + 1].rows[r].metadata[c] == ReadBack(s.metadata[c], v)
    ensures !TouchesMetadata(stmts, rs, n, r, c) ==>
      && r in states[n].rows && states[n + 1].rows[r].metadata[c] == states[n].rows[r].metadata[c]
    ensures !Deletes(stmts, rs, n, r)
  {
    var st, stmt := states[n], stmts[n];
    assert (states[n + 1], rs[n]) == Apply(s, st, stmt);
    if stmt.InsertRow? && c < |stmt.metadata| {
      AcceptsIs(s.metadata[c], stmt.metadata[c]);
      assert rs[n] == Some(r) ==> SetsMetadata(stmts, rs, n, r, c, stmt.metadata[c]);
    }
    if stmt.UpdateRow? && c < |stmt.changes| && stmt.changes[c].Some? {
      AcceptsIs(s.metadata[c], stmt.changes[c].value);
      assert rs[n] == Some(r) ==> SetsMetadata(stmts, rs, n, r, c, stmt.changes[c].value);
    }
  }

  /** Every metadata value of a row is the one it was last given. */
  lemma {:induction false} MetadataOf(s: TableSchema, stmts: seq<Statement>, rs: seq<Option<int>>, states: seq<TableState>,
                                      n: nat, r: int, c: nat)
    returns (i: nat, v: SqlValue)
    requires IsHistory(s, stmts, rs, states) && n <= |stmts| && r in states[n].rows && c < |s.metadata|
    ensures LastMetadata(stmts, rs, n, i, r, c, v) && states[n].rows[r].metadata[c] == ReadBack(s.metadata[c], v)
    decreases n
  {
    MetadataNext(s, stmts, rs, states, n - 1, r, c);
    if TouchesMetadata(stmts, rs, n - 1, r, c) {
      v :| SetsMetadata(stmts, rs, n - 1, r, c, v);
      i := n - 1;
    } else {
      i, v := MetadataOf(s, stmts, rs, states, n - 1, r, c);
    }
  }

  lemma VectorNext(s: TableSchema, stmts: seq<Statement>, rs: seq<Option<int>>, states: seq<TableState>,
                   n: nat, r: int, c: nat)
    requires IsHistory(s, stmts, rs, states) && n < |stmts| && r in states[n + 1].rows && c < |s.vectors|
    ensures forall v | SetsVector(stmts, rs, n, r, c, v) :: states[n + 1].rows[r].vectors[c] == v.bytes
    ensures !TouchesVector(stmts, rs, n, r, c) ==>
      r in states[n].rows && states[n + 1].rows[r].vectors[c] == states[n].rows[r].vectors[c]
    ensures !Deletes(stmts, rs, n, r)
  {
    var st, stmt := states[n], stmts[n];
    assert (states[n + 1], rs[n]) == Apply(s, st, stmt);
    if !stmt.DeleteRow? && rs[n] == Some(r) && stmt.vectors[c].Decoded? {
      assert SetsVector(stmts, rs, n, r, c, stmt.vectors[c].v);
    }
  }

  lemma {:induction false} VectorOf(s: TableSchema, stmts: seq<Statement>, rs: seq<Option<int>>, states: seq<TableState>,
                                    n: nat, r: int, c: nat)
    returns (i: nat, v: Vector)
    requires IsHistory(s, stmts, rs, states) && n <= |stmts| && r in states[n].rows && c < |s.vectors|
    ensures LastVector(stmts, rs, n, i, r, c, v) && states[n].rows[r].vectors[c] == v.bytes
    decreases n
  {
    VectorNext(s, stmts, rs, states, n - 1, r, c);
    if TouchesVector(stmts, rs, n - 1, r, c) {
      v :| SetsVector(stmts, rs, n - 1, r, c, v);
      i := n - 1;
    } else {
      i, v := VectorOf(s, stmts, rs, states, n - 1, r, c);
    }
  }

  lemma {:induction false} PartitionOf(s: TableSchema, stmts: seq<Statement>, rs: seq<Option<int>>,
                                       states: seq<TableState>, n: nat, r: int)
    returns (i: nat)
    requires IsHistory(s, stmts, rs, states) && n <= |stmts| && r in states[n].rows
    ensures AliveSince(stmts, rs, i, n, r) && states[n].rows[r].partition == stmts[i].partition
    decreases n
  {
    assert (states[n - 1 + 1], rs[n - 1]) == Apply(s, states[n - 1], stmts[n - 1]);
    if Inserts(stmts, rs, n - 1, r) {
      i := n - 1;
    } else {
      i := PartitionOf(s, stmts, rs, states, n - 1, r);
    }
  }

  /** The value that metadata column c of row r was last given. */
  ghost predicate IsLastMetadata(stmts: seq<Statement>, rs: seq<Option<int>>, r: int, c: nat, kind: MetaKind, x: SqlValue) {
    exists i: nat, v :: LastMetadata(stmts, rs, |stmts|, i, r, c, v) && x == ReadBack(kind, v)
  }

  ghost predicate IsLastVector(stmts: seq<Statement>, rs: seq<Option<int>>, r: int, c: nat, bytes: seq<bv8>) {
    exists i: nat, v :: LastVector(stmts, rs, |stmts|, i, r, c, v) && bytes == v.bytes
  }

  ghost predicate IsFirstPartition(stmts: seq<Statement>, rs: seq<Option<int>>, r: int, partition: seq<SqlValue>) {
    exists i: nat :: AliveSince(stmts, rs, i, |stmts|, r) && partition == stmts[i].partition
  }

  /** The table told from the statements: after any run a row is there exactly when it was inserted
      and not deleted since. Its partition is the one it was inserted with, and every other value is
      the one it was last given. */
  lemma TableIsHistory(s: TableSchema, stmts: seq<Statement>)
    requires forall i | 0 <= i < |stmts| :: WellFormed(s, stmts[i])
    ensures var rows, rs := Run(s, EMPTY, stmts).0.rows, Run(s, EMPTY, stmts).1;
            && (forall r :: r in rows <==> Alive(stmts, rs, |stmts|, r))
            && (forall r | r in rows ::
                  && |rows[r].vectors| == |s.vectors| && |rows[r].metadata| == |s.metadata|
                  && IsFirstPartition(stmts, rs, r, rows[r].partition)
                  && (forall c: nat | c < |s.vectors| :: IsLastVector(stmts, rs, r, c, rows[r].vectors[c]))
                  && forall c: nat | c < |s.metadata| ::
                       IsLastMetadata(stmts, rs, r, c, s.metadata[c], rows[r].metadata[c]))
  {
    var rows, rs := Run(s, EMPTY, stmts).0.rows, Run(s, EMPTY, stmts).1;
    var states := RunIsHistory(s, stmts);
    forall r ensures r in rows <==> Alive(stmts, rs, |stmts|, r) { RowsAreAlive(s, stmts, rs, states, |stmts|, r); }
    forall r | r in rows ensures IsFirstPartition(stmts, rs, r, rows[r].partition) {
      var i := PartitionOf(s, stmts, rs, states, |stmts|, r);
    }
    forall r, c: nat | r in rows && c < |s.vectors| ensures IsLastVector(stmts, rs, r, c, rows[r].vectors[c]) {
      var i, v := VectorOf(s, stmts, rs, states, |stmts|, r, c);
    }
    forall r, c: nat | r in rows && c < |s.metadata|
      ensures IsLastMetadata(stmts, rs, r, c, s.metadata[c], rows[r].metadata[c])
    {
      var i, v := MetadataOf(s, stmts, rs, states, |stmts|, r, c);
    }
  }
}
