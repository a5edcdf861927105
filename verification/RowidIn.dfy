/** `rowid in (...)`: the list is sorted with qsort and probed with bsearch, both
    through a comparison that subtracts two 64-bit integers and keeps 32 bits. */
module RowidIn {
  import opened Numbers

  const HALF := 0x8000_0000

  /** _cmp: the difference, truncated to int. */
  function Cmp(a: int, b: int): int {
    Int32(a - b)
  }

  function Sign(x: int): int {
    if x < 0 then -1 else if x > 0 then 1 else 0
  }

  lemma CmpExact(a: int, b: int)
    requires -HALF < a - b < HALF
    ensures Cmp(a, b) == a - b
  {
  }

  /** _cmp orders a range of rowids correctly exactly when the range is narrower than 2^31. */
  lemma CmpOrdersRange(lo: int, hi: int)
    requires lo <= hi
    ensures (forall a, b | lo <= a <= hi && lo <= b <= hi :: Sign(Cmp(a, b)) == Sign(a - b)) <==> hi - lo < HALF
  {
    if hi - lo >= HALF {
      assert Cmp(lo + HALF, lo) == -HALF;
      assert Sign(Cmp(lo + HALF, lo)) != Sign(lo + HALF - lo);
    }
  }

  // ----- the library calls -----

  function Insert(x: int, s: seq<int>): seq<int> {
    if s == [] then [x]
    else if Cmp(x, s[0]) <= 0 then [x] + s
    else [s[0]] + Insert(x, s[1..])
  }

  /** qsort, for which any correct sort by the comparison may stand. */
  function QSort(s: seq<int>): seq<int> {
    if s == [] then [] else Insert(s[0], QSort(s[1..]))
  }

  /** bsearch between lo and hi. */
  function BSearch(s: seq<int>, key: int, lo: nat, hi: nat): bool
    requires lo <= hi <= |s|
    decreases hi - lo
  {
    if lo == hi then false
    else
      var mid := (lo + hi) / 2;
      var c := Cmp(key, s[mid]);
      if c < 0 then BSearch(s, key, lo, mid)
      else if c > 0 then BSearch(s, key, mid + 1, hi)
      else true
  }

  /** Whether the probe of one chunk slot succeeds. */
  function Listed(list: seq<int>, rowid: int): bool {
    BSearch(QSort(list), rowid, 0, |QSort(list)|)
  }

  // ----- inside the bound -----

  predicate Narrow(list: seq<int>, key: int) {
    && (forall i | 0 <= i < |list| :: -HALF < list[i] - key < HALF)
    && (forall i, j | 0 <= i < |list| && 0 <= j < |list| :: -HALF < list[i] - list[j] < HALF)
  }

  predicate Sorted(s: seq<int>) {
    forall i, j | 0 <= i <= j < |s| :: s[i] <= s[j]
  }

  lemma {:induction false} InsertMembers(x: int, s: seq<int>)
    ensures forall y :: y in Insert(x, s) <==> y == x || y in s
  {
    if s != [] && Cmp(x, s[0]) > 0 {
      InsertMembers(x, s[1..]);
      assert s == [s[0]] + s[1..];
    }
  }

  lemma {:induction false} QSortMembers(s: seq<int>)
    ensures forall y :: y in QSort(s) <==> y in s
  {
    if s != [] {
      QSortMembers(s[1..]);
      InsertMembers(s[0], QSort(s[1..]));
      assert s == [s[0]] + s[1..];
    }
  }

  lemma {:induction false} InsertSorted(x: int, s: seq<int>)
    requires Sorted(s) && forall y | y in s :: -HALF < x - y < HALF
    ensures Sorted(Insert(x, s))
  {
    if s != [] {
      assert s[0] in s;
      CmpExact(x, s[0]);
      if Cmp(x, s[0]) > 0 {
        assert forall y | y in s[1..] :: y in s;
        InsertSorted(x, s[1..]);
        InsertMembers(x, s[1..]);
        var r := Insert(x, s[1..]);
        forall j | 0 <= j < |r| ensures s[0] <= r[j] { assert r[j] in r; }
      }
    }
  }

  lemma {:induction false} QSortSorted(s: seq<int>)
    requires forall i, j | 0 <= i < |s| && 0 <= j < |s| :: -HALF < s[i] - s[j] < HALF
    ensures Sorted(QSort(s))
  {
    if s != [] {
      QSortSorted(s[1..]);
      QSortMembers(s[1..]);
      forall y | y in QSort(s[1..]) ensures -HALF < s[0] - y < HALF {
        assert y in s[1..];
        var j :| 0 <= j < |s[1..]| && s[1..][j] == y;
        assert s[j + 1] == y;
      }
      InsertSorted(s[0], QSort(s[1..]));
    }
  }

  lemma {:induction false} BSearchFinds(s: seq<int>, key: int, lo: nat, hi: nat)
    requires lo <= hi <= |s| && Sorted(s)
    requires forall i | lo <= i < hi :: -HALF < key - s[i] < HALF
    ensures BSearch(s, key, lo, hi) <==> exists i :: lo <= i < hi && s[i] == key
    decreases hi - lo
  {
    if lo < hi {
      var mid := (lo + hi) / 2;
      CmpExact(key, s[mid]);
      if key < s[mid] {
        BSearchFinds(s, key, lo, mid);
      } else if key > s[mid] {
        BSearchFinds(s, key, mid + 1, hi);
      }
    }
  }

  /** When all differences fit in 32 bits, sorting and probing is set membership. */
  lemma ListedIsMembership(list: seq<int>, rowid: int)
    requires Narrow(list, rowid)
    ensures Listed(list, rowid) <==> rowid in list
  {
    var s := QSort(list);
    QSortSorted(list);
    QSortMembers(list);
    forall i | 0 <= i < |s| ensures -HALF < rowid - s[i] < HALF {
      assert s[i] in s && s[i] in list;
    }
    BSearchFinds(s, rowid, 0, |s|);
  }

  const WORD := 0x1_0000_0000

  /** The comparison sees the low 32 bits of a difference only. */
  lemma {:induction false} BSearchWraps(s: seq<int>, key: int, key': int, lo: nat, hi: nat)
    requires lo <= hi <= |s| && (key - key') % WORD == 0
    ensures BSearch(s, key, lo, hi) == BSearch(s, key', lo, hi)
    decreases hi - lo
  {
    if lo < hi {
      var mid := (lo + hi) / 2;
      CmpWraps(key, key', s[mid]);
      BSearchWraps(s, key, key', lo, mid);
      BSearchWraps(s, key, key', mid + 1, hi);
    }
  }

  lemma CmpWraps(key: int, key': int, x: int)
    requires (key - key') % WORD == 0
    ensures Cmp(key, x) == Cmp(key', x)
  {
    var q := (key - key') / WORD;
    assert key - x + HALF == key' - x + HALF + q * WORD;
    ModShift(key' - x + HALF, q);
  }

  lemma {:induction false} ModShift(x: int, q: int)
    ensures (x + q * WORD) % WORD == x % WORD
    decreases if q < 0 then -q else q
  {
    if q > 0 {
      ModShift(x, q - 1);
      assert x + q * WORD == (x + (q - 1) * WORD) + WORD;
    } else if q < 0 {
      ModShift(x, q + 1);
      assert x + q * WORD == (x + (q + 1) * WORD) - WORD;
    }
  }

  /** The exact condition for a list that fits in 32 bits around some number that agrees with
      the rowid in its low 32 bits: exactly the rowids that agree with an entry there are found. */
  lemma ListedIsCongruence(list: seq<int>, rowid: int, near: int)
    requires Narrow(list, near) && (rowid - near) % WORD == 0
    ensures Listed(list, rowid) <==> exists i :: 0 <= i < |list| && (rowid - list[i]) % WORD == 0
  {
    BSearchWraps(QSort(list), rowid, near, 0, |QSort(list)|);
    ListedIsMembership(list, near);
    if near in list {
      var i :| 0 <= i < |list| && list[i] == near;
      assert (rowid - list[i]) % WORD == 0;
    }
    if i :| 0 <= i < |list| && (rowid - list[i]) % WORD == 0 {
      SmallCongruence(rowid, near, list[i]);
    }
  }

  lemma SmallCongruence(rowid: int, near: int, x: int)
    requires (rowid - near) % WORD == 0 && (rowid - x) % WORD == 0 && -HALF < x - near < HALF
    ensures x == near
  {
    var a, b := (rowid - near) / WORD, (rowid - x) / WORD;
    assert x - near == WORD * (a - b);
  }

  /** For a one-element list, exactly the rowids that agree in the low 32 bits are found. */
  lemma ListedSingleton(x: int, rowid: int)
    ensures Listed([x], rowid) <==> (rowid - x) % 0x1_0000_0000 == 0
  {
    assert QSort([x]) == [x];
  }

  /** Outside the bound a rowid that is not listed can be found. */
  lemma ListedExample()
    ensures Listed([0], 0x1_0000_0000) && 0x1_0000_0000 !in [0]
  {
    ListedSingleton(0, 0x1_0000_0000);
  }
}
