/** SQL's comparisons as a relation between values: what a constraint of the WHERE clause says. */
module SqlOrder {
  import opened Bitmap
  import opened Schema
  import opened Store
  import opened Filters
  import opened Operands
  import opened Columns
  import opened QueryPlan
  import opened PlanQuery

  /** The first n bytes agree, and then `a` ends or has the smaller byte. */
  predicate LessAt(a: seq<Byte>, b: seq<Byte>, n: nat) {
    n <= |a| && n < |b| && (forall i | 0 <= i < n :: a[i] == b[i]) && (n == |a| || a[n] < b[n])
  }

  ghost predicate BytesLess(a: seq<Byte>, b: seq<Byte>) {
    exists n: nat :: LessAt(a, b, n)
  }

  lemma {:induction false} LexIs(a: seq<Byte>, b: seq<Byte>)
    ensures Lex(a, b) < 0 <==> BytesLess(a, b)
    decreases |a|
  {
    if a == [] {
      assert b != [] ==> LessAt(a, b, 0);
    } else if b != [] && a[0] == b[0] {
      LexIs(a[1..], b[1..]);
      LessShifts(a, b);
    } else if b != [] {
      assert a[0] < b[0] ==> LessAt(a, b, 0);
    }
  }

  lemma LessShifts(a: seq<Byte>, b: seq<Byte>)
    requires a != [] && b != [] && a[0] == b[0]
    ensures BytesLess(a, b) <==> BytesLess(a[1..], b[1..])
  {
    if BytesLess(a, b) {
      var n: nat :| LessAt(a, b, n);
      ShiftDown(a, b, n);
    }
    if BytesLess(a[1..], b[1..]) {
      var n: nat :| LessAt(a[1..], b[1..], n);
      ShiftUp(a, b, n);
    }
  }

  lemma ShiftDown(a: seq<Byte>, b: seq<Byte>, n: nat)
    requires a != [] && b != [] && a[0] == b[0] && LessAt(a, b, n)
    ensures 0 < n && LessAt(a[1..], b[1..], n - 1)
  {
    assert 0 < n;
    forall i | 0 <= i < n - 1 ensures a[1..][i] == b[1..][i] { assert a[i + 1] == b[i + 1]; }
  }

  lemma ShiftUp(a: seq<Byte>, b: seq<Byte>, n: nat)
    requires a != [] && b != [] && a[0] == b[0] && LessAt(a[1..], b[1..], n)
    ensures LessAt(a, b, n + 1)
  {
    forall i | 0 <= i < n + 1 ensures a[i] == b[i] {
      if i > 0 { assert a[1..][i - 1] == b[1..][i - 1]; }
    }
  }

  lemma {:induction false} LexAntisymmetric(a: seq<Byte>, b: seq<Byte>)
    ensures Lex(a, b) == -Lex(b, a)
    decreases |a|
  {
    if a != [] && b != [] && a[0] == b[0] { LexAntisymmetric(a[1..], b[1..]); }
  }

  predicate IsNumber(v: SqlValue) {
    v.Integer? || v.Float?
  }

  function NumberOf(v: SqlValue): real
    requires IsNumber(v)
  {
    if v.Integer? then v.i as real else v.f
  }

  /** Numbers are below texts and texts below blobs. */
  ghost predicate Less(a: SqlValue, b: SqlValue) {
    || (IsNumber(a) && IsNumber(b) && NumberOf(a) < NumberOf(b))
    || (a.Text? && b.Text? && BytesLess(a.s, b.s))
    || (a.Blob? && b.Blob? && BytesLess(a.b, b.b))
    || (IsNumber(a) && (b.Text? || b.Blob?))
    || (a.Text? && b.Blob?)
  }

  predicate Same(a: SqlValue, b: SqlValue) {
    || (IsNumber(a) && IsNumber(b) && NumberOf(a) == NumberOf(b))
    || (a.Text? && b.Text? && a.s == b.s)
    || (a.Blob? && b.Blob? && a.b == b.b)
  }

  lemma CompareIs(a: SqlValue, b: SqlValue)
    requires !a.Null? && !b.Null?
    ensures Compare(a, b) < 0 <==> Less(a, b)
    ensures Compare(a, b) > 0 <==> Less(b, a)
    ensures Compare(a, b) == 0 <==> Same(a, b)
  {
    if a.Text? && b.Text? {
      LexIs(a.s, b.s);
      LexIs(b.s, a.s);
      LexAntisymmetric(a.s, b.s);
    }
    if a.Blob? && b.Blob? {
      LexIs(a.b, b.b);
      LexIs(b.b, a.b);
      LexAntisymmetric(a.b, b.b);
    }
  }

  /** The value that a constraint compares. */
  predicate Compared(l: Layout, c: Constraint, rowid: int, row: Row, v: SqlValue)
    requires |l.kinds| == |l.idxs|
  {
    || (c.column == 0 && v == Integer(rowid))
    || (1 <= c.column <= |l.kinds| && l.kinds[c.column - 1] == PartitionKind
        && l.idxs[c.column - 1] < |row.partition| && v == row.partition[l.idxs[c.column - 1]])
    || (1 <= c.column <= |l.kinds| && l.kinds[c.column - 1] == MetadataKind
        && l.idxs[c.column - 1] < |row.metadata| && v == row.metadata[l.idxs[c.column - 1]])
  }

  /** What `v op x` means. */
  ghost predicate Means(op: ConstraintOp, v: SqlValue, x: SqlValue) {
    && !v.Null? && !x.Null?
    && match op
       case CEq => Same(v, x)
       case CNe => !Same(v, x)
       case CLt => Less(v, x)
       case CLe => Less(v, x) || Same(v, x)
       case CGt => Less(x, v)
       case CGe => Less(x, v) || Same(v, x)
       case _ => false
  }

  /** A row satisfies a comparison exactly when the value of the column it names stands in this
      relation to the right-hand side, and a list when it is the same as one of the values. */
  lemma ConstraintMeans(l: Layout, c: Constraint, rhs: Rhs, rowid: int, row: Row, v: SqlValue)
    requires |l.kinds| == |l.idxs| && Compared(l, c, rowid, row, v)
    ensures rhs.One? ==> (Satisfies(l, c, rhs, rowid, row) <==> Means(c.op, v, rhs.x.v))
    ensures rhs.Many? ==>
      (Satisfies(l, c, rhs, rowid, row) <==> exists i :: 0 <= i < |rhs.xs| && Means(CEq, v, rhs.xs[i].v))
  {
    assert PlanQuery.ValueOf(l, c.column, rowid, row) == v;
    match rhs
    case One(x) => if !v.Null? && !x.v.Null? { CompareIs(v, x.v); }
    case Many(xs) =>
      forall i | 0 <= i < |xs| ensures SqlTrue(EQ, v, xs[i].v) <==> Means(CEq, v, xs[i].v) {
        if !v.Null? && !xs[i].v.Null? { CompareIs(v, xs[i].v); }
      }
  }

  /** The table compares with the right-hand side as a value of the column's type: a boolean is true
      unless the lower 32 bits of the number are zero. */
  lemma ConvertedMeans(kind: MetaKind, c: Constraint, x: Operand, v: SqlValue)
    requires OpOf(c).Some? && Supported(kind, OpOf(c).value, One(x)) && IsStored(kind, v) && ValidOperand(x)
    ensures ValueMatches(OpOf(c).value, Convert(kind, One(x)), v) <==>
      match kind
      case BooleanKind => ((v.i == 1) == (x.asInt % 0x1_0000_0000 != 0)) == (c.op == CEq)
      case IntegerKind => Means(c.op, v, Integer(x.asInt))
      case FloatKind => Means(c.op, v, Float(x.asReal))
      case TextKind => Means(c.op, v, Text(x.asText))
  {
    CompareIs(v, Image(kind, x));
    ImageCompares(kind, OpOf(c).value, x, v);
  }

  /** An entry of a list is converted like a single value. */
  lemma ConvertedListMeans(kind: MetaKind, xs: seq<Operand>, v: SqlValue)
    requires Supported(kind, IN, Many(xs)) && IsStored(kind, v)
    ensures kind == IntegerKind || kind == TextKind
    ensures ValueMatches(IN, Convert(kind, Many(xs)), v) <==>
      exists i :: 0 <= i < |xs| && Same(v, if kind == IntegerKind then Integer(xs[i].asInt) else Text(xs[i].asText))
  {
  }
}
