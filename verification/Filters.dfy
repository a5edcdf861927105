/** Metadata constraints of a KNN query, one cell at a time, against the meaning
    SQL gives them on the full value. */
module Filters {
  import opened Bitmap
  import opened Schema
  import opened Metadata

  datatype Op = EQ | GT | LE | LT | GE | NE | IN

  /** The right-hand side, already converted to the column's type. */
  datatype Target =
    | BoolTarget(truth: int)
    | IntTarget(i: int)
    | IntList(ints: seq<int>)
    | FloatTarget(f: real)
    | TextTarget(t: seq<Byte>)
    | TextList(texts: seq<seq<Byte>>)

  /** What vec0BestIndex admits for a column of this kind. */
  predicate Admissible(kind: MetaKind, op: Op, arg: Target) {
    match kind
    case BooleanKind => arg.BoolTarget? && (op == EQ || op == NE)
    case IntegerKind => if op == IN then arg.IntList? else arg.IntTarget?
    case FloatKind => op != IN && arg.FloatTarget?
    case TextKind => if op == IN then arg.TextList? else arg.TextTarget?
  }

  // ----- C string comparison -----

  function First(s: seq<Byte>): Byte {
    if s == [] then 0 else s[0]
  }

  function Rest(s: seq<Byte>): seq<Byte> {
    if s == [] then [] else s[1..]
  }

  /** strncmp on NUL-terminated strings: reading past the end yields the terminator. */
  function StrNCmp(a: seq<Byte>, b: seq<Byte>, n: nat): (r: int)
    ensures -1 <= r <= 1
    decreases n
  {
    if n == 0 then 0
    else if First(a) != First(b) then (if First(a) < First(b) then -1 else 1)
    else if First(a) == 0 then 0
    else StrNCmp(Rest(a), Rest(b), n - 1)
  }

  /** The order SQL compares text by: bytewise, a proper prefix first. */
  function Lex(a: seq<Byte>, b: seq<Byte>): (r: int)
    ensures -1 <= r <= 1
    ensures r == 0 <==> a == b
  {
    if a == [] && b == [] then 0
    else if a == [] then -1
    else if b == [] then 1
    else if a[0] != b[0] then (if a[0] < b[0] then -1 else 1)
    else
      assert a == [a[0]] + a[1..] && b == [b[0]] + b[1..];
      Lex(a[1..], b[1..])
  }

  predicate NulFree(s: seq<Byte>) {
    forall i | 0 <= i < |s| :: s[i] != 0
  }

  function Prefix(s: seq<Byte>, n: nat): seq<Byte> {
    if n < |s| then s[..n] else s
  }

  predicate IsProperPrefix(s: seq<Byte>, t: seq<Byte>) {
    |s| < |t| && s == t[..|s|]
  }

  /** On NUL-free strings strncmp compares the first n bytes in SQL order. */
  lemma {:induction false} StrNCmpIsLex(a: seq<Byte>, b: seq<Byte>, n: nat)
    requires NulFree(a) && NulFree(b)
    ensures StrNCmp(a, b, n) == Lex(Prefix(a, n), Prefix(b, n))
    decreases n
  {
    if n > 0 && a != [] && b != [] && a[0] == b[0] {
      StrNCmpIsLex(a[1..], b[1..], n - 1);
      assert Prefix(a, n)[1..] == Prefix(a[1..], n - 1) && Prefix(b, n)[1..] == Prefix(b[1..], n - 1);
    }
  }

  /** Only the first n bytes matter, so the cached prefix does for the full text. */
  lemma {:induction false} StrNCmpLocal(a: seq<Byte>, a': seq<Byte>, b: seq<Byte>, n: nat)
    requires n <= |a| && n <= |a'| && a[..n] == a'[..n]
    ensures StrNCmp(a, b, n) == StrNCmp(a', b, n)
    decreases n
  {
    if n > 0 {
      assert a[0] == a[..n][0] && a'[0] == a'[..n][0];
      assert a[1..][..n - 1] == a[..n][1..] && a'[1..][..n - 1] == a'[..n][1..];
      StrNCmpLocal(a[1..], a'[1..], Rest(b), n - 1);
    }
  }

  /** If the first |a| bytes decide nothing, lengths do. */
  lemma {:induction false} LexByPrefix(a: seq<Byte>, b: seq<Byte>, n: nat)
    requires n >= |a| || n >= |b|
    ensures var c := Lex(Prefix(a, n), Prefix(b, n));
            && (c != 0 && n >= |a| && n >= |b| ==> Lex(a, b) == c)
            && (n >= |a| && n < |b| ==> (c != 0 ==> Lex(a, b) == c) && (c == 0 ==> IsProperPrefix(a, b) && Lex(a, b) == -1))
            && (n >= |b| && n < |a| ==> (c != 0 ==> Lex(a, b) == c) && (c == 0 ==> Lex(a, b) == 1))
    decreases n
  {
    if n > 0 && a != [] && b != [] && a[0] == b[0] {
      LexByPrefix(a[1..], b[1..], n - 1);
      assert Prefix(a, n)[1..] == Prefix(a[1..], n - 1) && Prefix(b, n)[1..] == Prefix(b[1..], n - 1);
    }
  }

  /** A proper prefix of another text comes before it. */
  lemma {:induction false} ProperPrefixIsLess(a: seq<Byte>, b: seq<Byte>)
    requires IsProperPrefix(a, b)
    ensures Lex(a, b) == -1
  {
    if a != [] {
      assert a[0] == b[..|a|][0];
      assert a[1..] == b[1..][..|a| - 1];
      ProperPrefixIsLess(a[1..], b[1..]);
    }
  }

  // ----- the filter on one text cell -----

  function Min(a: int, b: int): int {
    if a < b then a else b
  }

  predicate Holds(op: Op, c: int) {
    match op
    case EQ => c == 0
    case NE => c != 0
    case GT => c > 0
    case GE => c >= 0
    case LT => c < 0
    case LE => c <= 0
    case IN => false
  }

  /** Equality of a cell with one text. `full` is what the side table has for the row;
      None is the error of a missing or mismatched side row. */
  function CellEquals(view: View, t: seq<Byte>, full: Option<seq<Byte>>): Option<bool> {
    if view.n != |t| then Some(false)
    else
      var cmp := StrNCmp(view.data, t, Min(view.n, VIEW_DATA_LENGTH));
      if view.n <= VIEW_DATA_LENGTH then Some(cmp == 0)
      else if cmp != 0 then Some(false)
      else match full
        case None => None
        case Some(f) => if view.n != |f| then None else Some(StrNCmp(f, t, |f|) == 0)
  }

  /** The range operators: cells shorter than 12 bytes are decided on the spot, all
      others by the full text. */
  function CellRange(op: Op, view: View, t: seq<Byte>, full: Option<seq<Byte>>): Option<bool>
    requires view.n >= 0
  {
    var cmp := StrNCmp(view.data, t, Min(Min(view.n, VIEW_DATA_LENGTH), |t|));
    if view.n < VIEW_DATA_LENGTH then Some(if cmp == 0 then Holds(op, view.n - |t|) else Holds(op, cmp))
    else match full
      case None => None
      case Some(f) => if view.n != |f| then None else Some(Holds(op, StrNCmp(f, t, |f|)))
  }

  function CellIn(view: View, ts: seq<seq<Byte>>, full: Option<seq<Byte>>): Option<bool> {
    if ts == [] then Some(false)
    else
      match CellEquals(view, ts[0], full)
      case None => None
      case Some(true) => Some(true)
      case Some(false) => CellIn(view, ts[1..], full)
  }

  /** One cell against one constraint. */
  function CellMatches(op: Op, arg: Target, c: Cell, full: Option<seq<Byte>>): Option<bool> {
    match (c, arg)
    case (BoolCell(b), BoolTarget(truth)) => Some(if (truth != 0 && op == EQ) || (truth == 0 && op == NE) then b else !b)
    case (IntCell(x), IntTarget(y)) => Some(Holds(op, x - y))
    case (IntCell(x), IntList(ys)) => Some(x in ys)
    case (FloatCell(x), FloatTarget(y)) => Some(Holds(op, if x < y then -1 else if x > y then 1 else 0))
    case (TextCell(view), TextTarget(t)) =>
      if view.n < 0 then None
      else if op == EQ then CellEquals(view, t, full)
      else if op == NE then (match CellEquals(view, t, full) case None => None case Some(e) => Some(!e))
      else CellRange(op, view, t, full)
    case (TextCell(view), TextList(ts)) => CellIn(view, ts, full)
    case _ => None
  }

  /** What the constraint means on the value itself. */
  predicate ValueMatches(op: Op, arg: Target, v: SqlValue) {
    match (v, arg)
    case (Integer(x), BoolTarget(truth)) => ((x != 0) == (truth != 0)) == (op == EQ)
    case (Integer(x), IntTarget(y)) => Holds(op, x - y)
    case (Integer(x), IntList(ys)) => x in ys
    case (Float(x), FloatTarget(y)) => Holds(op, if x < y then -1 else if x > y then 1 else 0)
    case (Text(s), TextTarget(t)) => Holds(op, Lex(s, t))
    case (Text(s), TextList(ts)) => s in ts
    case _ => false
  }

  predicate IsRange(op: Op) {
    op == GT || op == GE || op == LT || op == LE
  }

  /** Texts for which a range operator looks for a side row that is never written. */
  predicate Unreadable(op: Op, v: SqlValue) {
    IsRange(op) && v.Text? && |v.s| == VIEW_DATA_LENGTH
  }

  /** Texts for which >= and < give the wrong answer. */
  predicate Misjudged(op: Op, arg: Target, v: SqlValue) {
    && (op == GE || op == LT) && v.Text? && arg.TextTarget?
    && |v.s| > VIEW_DATA_LENGTH && IsProperPrefix(v.s, arg.t)
  }

  predicate NulFreeValue(v: SqlValue) {
    v.Text? ==> NulFree(v.s)
  }

  predicate NulFreeTarget(arg: Target) {
    match arg
    case TextTarget(t) => NulFree(t)
    case TextList(ts) => forall i | 0 <= i < |ts| :: NulFree(ts[i])
    case _ => true
  }

  /** What the side table has for a row under the column invariant. */
  function SideRow(v: SqlValue): Option<seq<Byte>> {
    if IsLong(v) then Some(v.s) else None
  }

  lemma CellEqualsIsEquality(s: seq<Byte>, t: seq<Byte>)
    requires NulFree(s) && NulFree(t)
    ensures CellEquals(MakeView(s), t, SideRow(Text(s))) == Some(s == t)
  {
    var m := Min(|s|, VIEW_DATA_LENGTH);
    if |s| == |t| {
      assert MakeView(s).data[..m] == s[..m];
      StrNCmpLocal(MakeView(s).data, s, t, m);
      StrNCmpIsLex(s, t, m);
      StrNCmpIsLex(s, t, |s|);
      assert Prefix(s, m) == s[..m] && Prefix(t, m) == t[..m];
      if |s| <= VIEW_DATA_LENGTH { assert s[..m] == s && t[..m] == t; }
    }
  }

  lemma {:induction false} CellInIsMembership(s: seq<Byte>, ts: seq<seq<Byte>>)
    requires NulFree(s) && forall i | 0 <= i < |ts| :: NulFree(ts[i])
    ensures CellIn(MakeView(s), ts, SideRow(Text(s))) == Some(s in ts)
  {
    if ts != [] {
      CellEqualsIsEquality(s, ts[0]);
      CellInIsMembership(s, ts[1..]);
    }
  }

  lemma ShortRange(op: Op, s: seq<Byte>, t: seq<Byte>)
    requires IsRange(op) && NulFree(s) && NulFree(t) && |s| < VIEW_DATA_LENGTH
    ensures CellRange(op, MakeView(s), t, None) == Some(Holds(op, Lex(s, t)))
  {
    var m := Min(|s|, |t|);
    assert MakeView(s).data[..m] == s[..m];
    StrNCmpLocal(MakeView(s).data, s, t, m);
    StrNCmpIsLex(s, t, m);
    LexByPrefix(s, t, m);
  }

  lemma LongRange(op: Op, s: seq<Byte>, t: seq<Byte>)
    requires IsRange(op) && NulFree(s) && NulFree(t) && |s| > VIEW_DATA_LENGTH
    ensures CellRange(op, MakeView(s), t, Some(s)) == Some(Holds(op, Lex(s, t)))
      <==> !Misjudged(op, TextTarget(t), Text(s))
  {
    StrNCmpIsLex(s, t, |s|);
    LexByPrefix(s, t, |s|);
    if IsProperPrefix(s, t) {
      ProperPrefixIsLess(s, t);
      assert Prefix(t, |s|) == s;
    }
  }

  /** Under the column invariant a constraint fails to be decided only on a range
      operator that meets a text of exactly 12 bytes. */
  lemma CellReadable(kind: MetaKind, op: Op, arg: Target, v: SqlValue)
    requires Accepts(kind, v) && Admissible(kind, op, arg)
    ensures CellMatches(op, arg, CellFor(kind, v), SideRow(v)).None? <==> Unreadable(op, v)
  {
    if kind.TextKind? && op == IN { CellInReadable(v.s, arg.texts); }
  }

  lemma {:induction false} CellInReadable(s: seq<Byte>, ts: seq<seq<Byte>>)
    ensures CellIn(MakeView(s), ts, SideRow(Text(s))).Some?
  {
    if ts != [] { CellInReadable(s, ts[1..]); }
  }

  /** On NUL-free texts a constraint is decided as SQL would decide it, except
      exactly for the two families above. */
  lemma CellMatchesValue(kind: MetaKind, op: Op, arg: Target, v: SqlValue)
    requires Accepts(kind, v) && Admissible(kind, op, arg) && NulFreeValue(v) && NulFreeTarget(arg)
    ensures CellMatches(op, arg, CellFor(kind, v), SideRow(v)) == Some(ValueMatches(op, arg, Stored(kind, v)))
      <==> !Unreadable(op, v) && !Misjudged(op, arg, v)
  {
    if kind.TextKind? {
      if op == IN {
        CellInIsMembership(v.s, arg.texts);
      } else if op == EQ || op == NE {
        CellEqualsIsEquality(v.s, arg.t);
      } else if |v.s| < VIEW_DATA_LENGTH {
        ShortRange(op, v.s, arg.t);
      } else if |v.s| > VIEW_DATA_LENGTH {
        LongRange(op, v.s, arg.t);
      }
    }
  }

  /** A vacant slot never asks for a side row. */
  lemma VacantCellReadable(kind: MetaKind, op: Op, arg: Target, full: Option<seq<Byte>>)
    requires Admissible(kind, op, arg)
    ensures CellMatches(op, arg, ZeroCell(kind), full).Some?
  {
    if kind.TextKind? && op == IN { EmptyCellIn(arg.texts, full); }
  }

  lemma {:induction false} EmptyCellIn(ts: seq<seq<Byte>>, full: Option<seq<Byte>>)
    ensures CellIn(MakeView([]), ts, full).Some?
  {
    if ts != [] { EmptyCellIn(ts[1..], full); }
  }

  /** A long text that is a proper prefix of t passes `>= t` although it comes before t. */
  lemma MisjudgedPasses(s: seq<Byte>, t: seq<Byte>)
    requires NulFree(s) && NulFree(t) && |s| > VIEW_DATA_LENGTH && IsProperPrefix(s, t)
    ensures CellMatches(GE, TextTarget(t), CellFor(TextKind, Text(s)), SideRow(Text(s))) == Some(true)
    ensures !ValueMatches(GE, TextTarget(t), Text(s))
  {
    ProperPrefixIsLess(s, t);
    LongRange(GE, s, t);
  }

  lemma MisjudgedExample() returns (s: seq<Byte>, t: seq<Byte>)
    ensures |s| == 13 && |t| == 14
    ensures CellMatches(GE, TextTarget(t), CellFor(TextKind, Text(s)), SideRow(Text(s))) == Some(true)
    ensures !ValueMatches(GE, TextTarget(t), Text(s))
  {
    s := seq(VIEW_DATA_LENGTH + 1, _ => 97);
    t := s + [98];
    MisjudgedPasses(s, t);
  }

  /** A text of 12 bytes makes `> t` fail, whatever t is. */
  lemma UnreadableExample(t: seq<Byte>) returns (s: seq<Byte>)
    ensures NulFree(s) && CellMatches(GT, TextTarget(t), CellFor(TextKind, Text(s)), SideRow(Text(s))) == None
  {
    s := seq(12, _ => 97);
  }
}
