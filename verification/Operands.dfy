/** The right-hand side of a metadata constraint: SQL compares it as it is, the table
    first converts it to the type of the column. */
module Operands {
  import opened Bitmap
  import opened Numbers
  import opened Schema
  import opened Metadata
  import opened Filters

  const INT64_MAX := 0x7FFF_FFFF_FFFF_FFFF
  const INT64_MIN := -0x8000_0000_0000_0000

  /** A value as SQLite hands it over, with what sqlite3_value_int64, _double and _text
      make of it, and vector_from_value. */
  datatype Operand = Operand(v: SqlValue, asInt: int, asReal: real, asText: seq<Byte>, asVector: Option<Vector>)

  /** The value of a comparison, or the list of `in (...)`. */
  datatype Rhs = One(x: Operand) | Many(xs: seq<Operand>)

  /** A real as a 64-bit integer: toward zero, and to the nearest end of the range. */
  function Truncated(f: real): int {
    var n := if f < 0.0 then -(-f).Floor else f.Floor;
    if n > INT64_MAX then INT64_MAX else if n < INT64_MIN then INT64_MIN else n
  }

  /** What the accessors promise. How a text is read as a number, and how a number is
      written as a text, is left open. */
  ghost predicate ValidOperand(x: Operand) {
    && INT64_MIN <= x.asInt <= INT64_MAX
    && (x.asVector.Some? ==> ValidVector(x.asVector.value))
    && match x.v
       case Null => x.asInt == 0 && x.asReal == 0.0 && x.asText == []
       case Integer(i) => x.asInt == i && x.asReal == i as real
       case Float(f) => x.asInt == Truncated(f) && x.asReal == f
       case Text(s) => x.asText == s
       case Blob(b) => x.asText == b
  }

  ghost predicate ValidRhs(rhs: Rhs) {
    match rhs
    case One(x) => ValidOperand(x)
    case Many(xs) => forall i | 0 <= i < |xs| :: ValidOperand(xs[i])
  }

  /** What vec0BestIndex admits for a column of this kind: operators only, the value is
      not known to it. */
  predicate Supported(kind: MetaKind, op: Op, rhs: Rhs) {
    && (rhs.Many? <==> op == IN)
    && (kind == BooleanKind ==> op == EQ || op == NE)
    && (kind == FloatKind ==> op != IN)
  }

  // ----- what SQL says -----

  function Rank(v: SqlValue): int {
    match v case Null => 0 case Integer(_) => 1 case Float(_) => 1 case Text(_) => 2 case Blob(_) => 3
  }

  /** SQL comparison of two non-NULL values that have no affinity: numbers before text
      before blobs. */
  function Compare(a: SqlValue, b: SqlValue): int {
    match (a, b)
    case (Integer(x), Integer(y)) => if x < y then -1 else if x > y then 1 else 0
    case (Float(x), Float(y)) => if x < y then -1 else if x > y then 1 else 0
    case (Integer(x), Float(y)) => if x as real < y then -1 else if x as real > y then 1 else 0
    case (Float(x), Integer(y)) => if x < y as real then -1 else if x > y as real then 1 else 0
    case (Text(x), Text(y)) => Lex(x, y)
    case (Blob(x), Blob(y)) => Lex(x, y)
    case _ => if Rank(a) < Rank(b) then -1 else 1
  }

  /** `a op b` is true; with a NULL it never is. */
  predicate SqlTrue(op: Op, a: SqlValue, b: SqlValue) {
    !a.Null? && !b.Null? && Holds(op, Compare(a, b))
  }

  predicate SqlIn(a: SqlValue, xs: seq<Operand>) {
    exists i :: 0 <= i < |xs| && SqlTrue(EQ, a, xs[i].v)
  }

  predicate SqlHolds(op: Op, rhs: Rhs, a: SqlValue) {
    match rhs
    case One(x) => SqlTrue(op, a, x.v)
    case Many(xs) => SqlIn(a, xs)
  }

  // ----- what the table does -----

  function Ints(xs: seq<Operand>): (r: seq<int>)
    ensures |r| == |xs| && forall i | 0 <= i < |xs| :: r[i] == xs[i].asInt
  {
    seq(|xs|, i requires 0 <= i < |xs| => xs[i].asInt)
  }

  function Texts(xs: seq<Operand>): (r: seq<seq<Byte>>)
    ensures |r| == |xs| && forall i | 0 <= i < |xs| :: r[i] == xs[i].asText
  {
    seq(|xs|, i requires 0 <= i < |xs| => xs[i].asText)
  }

  /** The four conversions. Lists are supported on integer and text columns only. */
  function Convert(kind: MetaKind, rhs: Rhs): Target {
    match (kind, rhs)
    case (BooleanKind, One(x)) => BoolTarget(Int32(x.asInt))
    case (IntegerKind, One(x)) => IntTarget(x.asInt)
    case (FloatKind, One(x)) => FloatTarget(x.asReal)
    case (TextKind, One(x)) => TextTarget(x.asText)
    case (TextKind, Many(xs)) => TextList(Texts(xs))
    case (_, Many(xs)) => IntList(Ints(xs))
  }

  lemma SupportedIsAdmissible(kind: MetaKind, op: Op, rhs: Rhs)
    requires Supported(kind, op, rhs)
    ensures Admissible(kind, op, Convert(kind, rhs))
  {
  }

  /** The value of the column's type that stands in for the right-hand side. */
  function Image(kind: MetaKind, x: Operand): SqlValue {
    match kind
    case BooleanKind => Integer(if Int32(x.asInt) != 0 then 1 else 0)
    case IntegerKind => Integer(x.asInt)
    case FloatKind => Float(x.asReal)
    case TextKind => Text(x.asText)
  }

  /** A value as a column of this kind holds it. */
  predicate IsStored(kind: MetaKind, v: SqlValue) {
    Accepts(kind, v) && Stored(kind, v) == v && (v.Integer? ==> INT64_MIN <= v.i <= INT64_MAX)
  }

  // ----- where the two differ -----

  /** The comparison of v with x comes out wrong. A NULL is never matched by SQL. A value
      of the column's own class matters only where the stored value equals its image and the
      operator can tell the image from it. A value of another class is before or behind all
      values of the column. */
  predicate DistortedOne(kind: MetaKind, op: Op, x: Operand, v: SqlValue) {
    var y := Image(kind, x);
    if x.v.Null? then Holds(op, Compare(v, y))
    else if Rank(x.v) == Rank(y) then v == y && Holds(op, 0) != Holds(op, Compare(y, x.v))
    else Holds(op, Compare(v, y)) != Holds(op, Rank(y) - Rank(x.v))
  }

  /** The stored value is the image of an entry, but equals none. */
  predicate DistortedList(kind: MetaKind, xs: seq<Operand>, v: SqlValue) {
    (exists i :: 0 <= i < |xs| && v == Image(kind, xs[i])) && !SqlIn(v, xs)
  }

  predicate Distorted(kind: MetaKind, op: Op, rhs: Rhs, v: SqlValue) {
    match rhs
    case One(x) => DistortedOne(kind, op, x, v)
    case Many(xs) => DistortedList(kind, xs, v)
  }

  /** Truncation moves a real only within the gap between two integers. */
  lemma TruncationGap(f: real, i: int)
    requires INT64_MIN <= i <= INT64_MAX
    ensures i < Truncated(f) ==> i as real < f
    ensures i > Truncated(f) ==> i as real > f
  {
  }

  lemma ImageCompares(kind: MetaKind, op: Op, x: Operand, v: SqlValue)
    requires ValidOperand(x) && Supported(kind, op, One(x)) && IsStored(kind, v)
    ensures ValueMatches(op, Convert(kind, One(x)), v) == Holds(op, Compare(v, Image(kind, x)))
  {
  }

  /** Away from its image a value compares with the operand as with the image. */
  lemma OffImage(kind: MetaKind, op: Op, x: Operand, v: SqlValue)
    requires ValidOperand(x) && Supported(kind, op, One(x)) && IsStored(kind, v)
    requires Rank(x.v) == Rank(v) && v != Image(kind, x)
    ensures Holds(op, Compare(v, x.v)) == Holds(op, Compare(v, Image(kind, x)))
  {
    if x.v.Float? && v.Integer? { TruncationGap(x.v.f, v.i); }
  }

  lemma ConvertedOne(kind: MetaKind, op: Op, x: Operand, v: SqlValue)
    requires ValidOperand(x) && Supported(kind, op, One(x)) && IsStored(kind, v)
    ensures ValueMatches(op, Convert(kind, One(x)), v) == SqlTrue(op, v, x.v) <==> !DistortedOne(kind, op, x, v)
  {
    ImageCompares(kind, op, x, v);
    if Rank(x.v) == Rank(v) && v != Image(kind, x) { OffImage(kind, op, x, v); }
  }

  /** An entry that equals the stored value has it as its image. */
  lemma EqualIsImage(kind: MetaKind, x: Operand, v: SqlValue)
    requires ValidOperand(x) && IsStored(kind, v) && SqlTrue(EQ, v, x.v)
    ensures v == Image(kind, x)
  {
  }

  lemma ImageListed(kind: MetaKind, xs: seq<Operand>, v: SqlValue)
    requires Supported(kind, IN, Many(xs)) && IsStored(kind, v)
    ensures ValueMatches(IN, Convert(kind, Many(xs)), v) <==> exists i :: 0 <= i < |xs| && v == Image(kind, xs[i])
  {
    if kind.IntegerKind? {
      assert v.i in Ints(xs) <==> exists i :: 0 <= i < |xs| && Ints(xs)[i] == v.i;
    } else {
      assert v.s in Texts(xs) <==> exists i :: 0 <= i < |xs| && Texts(xs)[i] == v.s;
    }
  }

  /** The exact condition: the converted comparison is SQL's unless the right-hand side is distorted. */
  lemma ConvertedIsSql(kind: MetaKind, op: Op, rhs: Rhs, v: SqlValue)
    requires ValidRhs(rhs) && Supported(kind, op, rhs) && IsStored(kind, v)
    ensures ValueMatches(op, Convert(kind, rhs), v) == SqlHolds(op, rhs, v) <==> !Distorted(kind, op, rhs, v)
  {
    match rhs
    case One(x) => ConvertedOne(kind, op, x, v);
    case Many(xs) =>
      ImageListed(kind, xs, v);
      forall i | 0 <= i < |xs| && SqlTrue(EQ, v, xs[i].v) ensures v == Image(kind, xs[i]) {
        EqualIsImage(kind, xs[i], v);
      }
  }

  // ----- a condition on the query alone -----

  /** Whether a constraint is right for every value its column can hold. Text in place of a
      number is one only at the ends of the ranges; NULL, where no text is below the empty one. */
  predicate FaithfulOne(kind: MetaKind, op: Op, x: Operand) {
    var y := Image(kind, x);
    if x.v.Null? then op == LT && kind.TextKind?
    else if Rank(x.v) == Rank(y) then Holds(op, 0) == Holds(op, Compare(y, x.v))
    else if Rank(x.v) < Rank(y) then (op == LT || op == GE) && x.asText == []
    else (op == LE || op == GT) && kind.IntegerKind? && x.asInt == INT64_MAX
  }

  predicate Faithful(kind: MetaKind, op: Op, rhs: Rhs) {
    match rhs
    case One(x) => FaithfulOne(kind, op, x)
    case Many(xs) => forall i | 0 <= i < |xs| :: SqlIn(Image(kind, xs[i]), xs)
  }

  /** A stored value below, and one above, a given one, where there is any. */
  function Below(v: SqlValue): SqlValue {
    match v
    case Integer(i) => if i > INT64_MIN then Integer(i - 1) else v
    case Float(f) => Float(f - 1.0)
    case Text(_) => Text([])
    case _ => v
  }

  function Above(v: SqlValue): SqlValue {
    match v
    case Integer(i) => if i < INT64_MAX then Integer(i + 1) else v
    case Float(f) => Float(f + 1.0)
    case Text(s) => Text(s + [97])
    case _ => v
  }

  lemma TextAbove(s: seq<Byte>)
    ensures Lex(s + [97], s) == 1
  {
    if s != [] {
      TextAbove(s[1..]);
      assert (s + [97])[1..] == s[1..] + [97];
    }
  }

  /** The value that shows an unfaithful comparison wrong. */
  function Witness(kind: MetaKind, op: Op, x: Operand): SqlValue {
    var y := Image(kind, x);
    if kind.BooleanKind? then
      if x.v.Null? then Integer(if op == EQ then 0 else 1) else y
    else if x.v.Null? then
      (match op case EQ => y case GE => y case LE => y case LT => Below(y) case _ => Above(y))
    else if Rank(x.v) == Rank(y) then y
    else if Rank(x.v) < Rank(y) then (if op == LT || op == GE then Below(y) else y)
    else (if op == LE || op == GT then Above(y) else y)
  }

  /** The witness is a value the column can hold, and is distorted. */
  ghost predicate Shows(kind: MetaKind, op: Op, x: Operand) {
    var v := Witness(kind, op, x);
    IsStored(kind, v) && DistortedOne(kind, op, x, v)
  }

  lemma TextWitness(op: Op, x: Operand)
    requires ValidOperand(x) && op != IN && !FaithfulOne(TextKind, op, x)
    ensures Shows(TextKind, op, x)
  {
    TextAbove(x.asText);
  }

  lemma IntegerWitness(op: Op, x: Operand)
    requires ValidOperand(x) && op != IN && !FaithfulOne(IntegerKind, op, x)
    ensures Shows(IntegerKind, op, x)
  {
  }

  lemma FloatWitness(op: Op, x: Operand)
    requires ValidOperand(x) && op != IN && !FaithfulOne(FloatKind, op, x)
    ensures Shows(FloatKind, op, x)
  {
  }

  lemma BooleanWitness(op: Op, x: Operand)
    requires ValidOperand(x) && (op == EQ || op == NE) && !FaithfulOne(BooleanKind, op, x)
    ensures Shows(BooleanKind, op, x)
  {
  }

  lemma WitnessDistorts(kind: MetaKind, op: Op, x: Operand)
    requires ValidOperand(x) && Supported(kind, op, One(x)) && !FaithfulOne(kind, op, x)
    ensures Shows(kind, op, x)
  {
    match kind
    case TextKind => TextWitness(op, x);
    case IntegerKind => IntegerWitness(op, x);
    case FloatKind => FloatWitness(op, x);
    case BooleanKind => BooleanWitness(op, x);
  }

  lemma FaithfulNotDistorted(kind: MetaKind, op: Op, x: Operand, v: SqlValue)
    requires ValidOperand(x) && Supported(kind, op, One(x)) && FaithfulOne(kind, op, x) && IsStored(kind, v)
    ensures !DistortedOne(kind, op, x, v)
  {
  }

  lemma FaithfulListIff(kind: MetaKind, xs: seq<Operand>)
    requires ValidRhs(Many(xs)) && Supported(kind, IN, Many(xs))
    ensures (forall v | IsStored(kind, v) :: !DistortedList(kind, xs, v)) <==> Faithful(kind, IN, Many(xs))
  {
    if forall v | IsStored(kind, v) :: !DistortedList(kind, xs, v) {
      forall i | 0 <= i < |xs| ensures SqlIn(Image(kind, xs[i]), xs) {
        var v := Image(kind, xs[i]);
        assert ValidOperand(xs[i]);
        assert IsStored(kind, v) && !DistortedList(kind, xs, v);
      }
    }
  }

  /** A constraint agrees with SQL on every value its column can hold exactly when it is
      faithful: something a caller can tell from the operator and the right-hand side. */
  lemma FaithfulIffAlwaysSql(kind: MetaKind, op: Op, rhs: Rhs)
    requires ValidRhs(rhs) && Supported(kind, op, rhs)
    ensures (forall v | IsStored(kind, v) :: ValueMatches(op, Convert(kind, rhs), v) == SqlHolds(op, rhs, v))
      <==> Faithful(kind, op, rhs)
  {
    forall v | IsStored(kind, v)
      ensures ValueMatches(op, Convert(kind, rhs), v) == SqlHolds(op, rhs, v) <==> !Distorted(kind, op, rhs, v)
    {
      ConvertedIsSql(kind, op, rhs, v);
    }
    match rhs
    case Many(xs) => FaithfulListIff(kind, xs);
    case One(x) =>
      if FaithfulOne(kind, op, x) {
        forall v | IsStored(kind, v) ensures !DistortedOne(kind, op, x, v) { FaithfulNotDistorted(kind, op, x, v); }
      } else {
        WitnessDistorts(kind, op, x);
        assert Distorted(kind, op, rhs, Witness(kind, op, x));
      }
  }

  // ----- one cell -----

  ghost predicate NulFreeRhs(kind: MetaKind, rhs: Rhs) {
    NulFreeTarget(Convert(kind, rhs))
  }

  /** One cell is decided as SQL decides the constraint on the full value, exactly when it
      is readable and either neither or both of a misjudged prefix and a distorted right-hand
      side are met. */
  lemma CellMatchesSql(kind: MetaKind, op: Op, rhs: Rhs, v: SqlValue)
    requires ValidRhs(rhs) && Supported(kind, op, rhs) && IsStored(kind, v)
    requires NulFreeValue(v) && NulFreeRhs(kind, rhs)
    ensures CellMatches(op, Convert(kind, rhs), CellFor(kind, v), SideRow(v)) == Some(SqlHolds(op, rhs, v))
      <==> !Unreadable(op, v) && (Misjudged(op, Convert(kind, rhs), v) <==> Distorted(kind, op, rhs, v))
  {
    CellMatchesValue(kind, op, Convert(kind, rhs), v);
    ConvertedIsSql(kind, op, rhs, v);
    CellReadable(kind, op, Convert(kind, rhs), v);
  }

  // ----- inputs at which the two differ -----

  /** The constraint `op x` finds v although SQL does not. */
  predicate FindsWrongly(kind: MetaKind, op: Op, x: Operand, v: SqlValue)
    requires Accepts(kind, v)
  {
    CellMatches(op, Convert(kind, One(x)), CellFor(kind, v), None) == Some(true) && !SqlTrue(op, v, x.v)
  }

  /** `flag = 2` finds the rows whose flag is 1, `n >= 3.5` those with n = 3, and `n = NULL`
      and `n = 'x'` those with n = 0; SQL finds none of them. */
  lemma DistortedExamples(x: Operand)
    requires ValidOperand(x)
    ensures x.v == Integer(2) ==> FindsWrongly(BooleanKind, EQ, x, Integer(1))
    ensures x.v == Float(3.5) ==> FindsWrongly(IntegerKind, GE, x, Integer(3))
    ensures x.v == Null ==> FindsWrongly(IntegerKind, EQ, x, Integer(0))
    ensures x.v.Text? && x.asInt == 0 ==> FindsWrongly(IntegerKind, EQ, x, Integer(0))
  {
    if x.v == Float(3.5) { assert Truncated(3.5) == 3; }
  }
}
