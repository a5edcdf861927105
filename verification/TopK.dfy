/** Selection of the nearest candidates: `min_idx` picks the best offsets of one
    chunk, `merge_sorted_lists` folds them into the running list. Distances are
    values of a total order, represented by integers (a NaN is not a distance). */
module TopK {
  import opened Bitmap
  import Sets

  /** A candidate row: its distance, the chunk's place in the visit order, the
      offset inside the chunk and the rowid stored there. */
  datatype Slot = Slot(distance: int, chunk: int, offset: int, rowid: int)

  /** What a query returns for a slot. */
  datatype Hit = Hit(distance: int, rowid: int)

  function HitOf(s: Slot): Hit {
    Hit(s.distance, s.rowid)
  }

  function Hits(ss: seq<Slot>): (hs: seq<Hit>)
    ensures |hs| == |ss|
    ensures forall i | 0 <= i < |ss| :: hs[i] == HitOf(ss[i])
  {
    seq(|ss|, i requires 0 <= i < |ss| => HitOf(ss[i]))
  }

  /** The answer order: distance first; ties go to the earlier chunk, and inside
      a chunk to the larger offset. */
  predicate Before(a: Slot, b: Slot) {
    || a.distance < b.distance
    || (a.distance == b.distance && (a.chunk < b.chunk || (a.chunk == b.chunk && a.offset > b.offset)))
  }

  ghost predicate Ordered(ss: seq<Slot>) {
    forall i, j | 0 <= i < j < |ss| :: Before(ss[i], ss[j])
  }

  ghost predicate AllBefore(ss: seq<Slot>, x: Slot) {
    forall i | 0 <= i < |ss| :: Before(ss[i], x)
  }

  /** `r` lists the k best members of `s` in order (all of them when there are fewer). */
  ghost predicate IsTopK(r: seq<Slot>, s: set<Slot>, k: nat) {
    && |r| <= k
    && Ordered(r)
    && (forall x | x in r :: x in s)
    && forall x | x in s :: x in r || (|r| == k && AllBefore(r, x))
  }

  /** `full` is `s` sorted. */
  ghost predicate IsSortOf(full: seq<Slot>, s: set<Slot>) {
    && Ordered(full)
    && forall x :: x in s <==> x in full
  }

  /** Every finite set of slots has a sort, if no two of them stand in the same place. */
  lemma SortExists(s: set<Slot>) returns (full: seq<Slot>)
    requires forall x, y | x in s && y in s && x.chunk == y.chunk && x.offset == y.offset :: x == y
    ensures IsSortOf(full, s)
  {
    if s == {} {
      full := [];
    } else {
      var x := FirstOf(s);
      var rest := SortExists(s - {x});
      full := [x] + rest;
      forall y ensures y in s <==> y in full { assert y in s <==> y == x || y in s - {x}; }
      forall j | 0 < j < |full| ensures Before(x, full[j]) { assert full[j] in rest && full[j] in s - {x}; }
    }
  }

  lemma FirstOf(s: set<Slot>) returns (x: Slot)
    requires s != {}
    requires forall x, y | x in s && y in s && x.chunk == y.chunk && x.offset == y.offset :: x == y
    ensures x in s && forall y | y in s && y != x :: Before(x, y)
  {
    x := Sets.Pick(s);
    if s - {x} == {} {
      assert s == {x};
    } else {
      var z := FirstOf(s - {x});
      forall y | y in s && y != x && y != z ensures Before(z, y) { assert y in s - {x}; }
      if Before(z, x) {
        x := z;
      } else {
        forall y | y in s && y != x ensures Before(x, y) { if y != z { assert Before(z, y); } }
      }
    }
  }

  /** IsTopK says exactly "sort, then take k". */
  lemma TopKIsSortThenTake(r: seq<Slot>, s: set<Slot>, k: nat, full: seq<Slot>)
    requires IsSortOf(full, s)
    ensures IsTopK(r, s, k) <==> r == full[..if k < |full| then k else |full|]
  {
    var n := if k < |full| then k else |full|;
    if IsTopK(r, s, k) {
      var i := 0;
      while i < |r|
        invariant i <= |r| && i <= |full|
        invariant forall t | 0 <= t < i :: r[t] == full[t]
      {
        SameNext(r, s, k, full, i);
        i := i + 1;
      }
      if i < |full| {
        assert full[i] in s && full[i] !in r;
      }
      assert r == full[..n];
    }
    if r == full[..n] {
      forall x | x in s ensures x in r || (|r| == k && AllBefore(r, x)) {
        var j :| 0 <= j < |full| && full[j] == x;
        if j < n { assert r[j] == x; }
      }
    }
  }

  lemma SameNext(r: seq<Slot>, s: set<Slot>, k: nat, full: seq<Slot>, i: nat)
    requires IsSortOf(full, s) && IsTopK(r, s, k)
    requires i < |r| && i <= |full| && forall t | 0 <= t < i :: r[t] == full[t]
    ensures i < |full| && r[i] == full[i]
  {
    assert r[i] in s;
    var j :| 0 <= j < |full| && full[j] == r[i];
    assert i <= j && full[i] in s;
    assert full[i] in r || Before(r[i], full[i]);
    if full[i] in r {
      var m :| 0 <= m < |r| && r[m] == full[i];
      assert i <= m;
    }
  }

  // ----- merge_sorted_lists -----

  function Merge(a: seq<Slot>, b: seq<Slot>, n: nat): (r: seq<Slot>) {
    if n == 0 || (a == [] && b == []) then []
    else if a == [] || (b != [] && a[0].distance > b[0].distance) then [b[0]] + Merge(a, b[1..], n - 1)
    else [a[0]] + Merge(a[1..], b, n - 1)
  }

  /** `r` consists of the first i entries of `a` and the first j of `b`, and
      stops short of everything else in both. */
  ghost predicate Splits(r: seq<Slot>, a: seq<Slot>, i: nat, b: seq<Slot>, j: nat) {
    && i <= |a| && j <= |b| && i + j == |r| && Ordered(r)
    && (forall x :: x in r <==> x in a[..i] || x in b[..j])
    && (forall t | i <= t < |a| :: AllBefore(r, a[t]))
    && (forall t | j <= t < |b| :: AllBefore(r, b[t]))
  }

  lemma SplitsCons(r: seq<Slot>, a: seq<Slot>, i: nat, b: seq<Slot>, j: nat)
    requires a != [] && Splits(r, a[1..], i, b, j)
    requires forall x | x in a[1..] || x in b :: Before(a[0], x)
    ensures Splits([a[0]] + r, a, i + 1, b, j)
  {
    var r' := [a[0]] + r;
    assert a[..i + 1] == [a[0]] + a[1..][..i];
    forall t | i + 1 <= t < |a| ensures AllBefore(r', a[t]) {
      assert a[t] == a[1..][t - 1] && AllBefore(r, a[1..][t - 1]);
    }
    forall x | x in r ensures Before(a[0], x) {
      assert x in a[1..] || x in b;
    }
  }

  lemma {:induction false} MergeSplits(a: seq<Slot>, b: seq<Slot>, n: nat) returns (i: nat, j: nat)
    requires Ordered(a) && Ordered(b)
    requires forall x, y | x in a && y in b :: x.chunk < y.chunk
    ensures Splits(Merge(a, b, n), a, i, b, j)
    ensures |Merge(a, b, n)| <= n
    ensures |Merge(a, b, n)| == n || (i == |a| && j == |b|)
  {
    if n == 0 || (a == [] && b == []) {
      i, j := 0, 0;
    } else if a == [] || (b != [] && a[0].distance > b[0].distance) {
      i, j := MergeSplits(a, b[1..], n - 1);
      SplitsCons(Merge(a, b[1..], n - 1), b, j, a, i);
      j := j + 1;
    } else {
      i, j := MergeSplits(a[1..], b, n - 1);
      SplitsCons(Merge(a[1..], b, n - 1), a, i, b, j);
      i := i + 1;
    }
  }

  /** Merging the best of what was seen with the best of a new chunk gives the
      best of both: nothing outside the two short lists is ever needed. */
  lemma MergeIsTopK(a: seq<Slot>, sa: set<Slot>, b: seq<Slot>, sb: set<Slot>, k: nat)
    requires IsTopK(a, sa, k) && IsTopK(b, sb, k)
    requires forall x, y | x in sa && y in sb :: x.chunk < y.chunk
    ensures IsTopK(Merge(a, b, k), sa + sb, k)
  {
    var i, j := MergeSplits(a, b, k);
    var r := Merge(a, b, k);
    forall x | x in sa + sb ensures x in r || (|r| == k && AllBefore(r, x)) {
      if x in sa {
        Settled(a, sa, i, r, k, x, b[..j]);
      } else {
        Settled(b, sb, j, r, k, x, a[..i]);
      }
    }
  }

  lemma Settled(a: seq<Slot>, sa: set<Slot>, i: nat, r: seq<Slot>, k: nat, x: Slot, other: seq<Slot>)
    requires IsTopK(a, sa, k) && x in sa && i <= |a|
    requires i + |other| == |r| <= k && (|r| == k || i == |a|)
    requires forall y :: y in r <==> y in a[..i] || y in other
    requires forall t | i <= t < |a| :: AllBefore(r, a[t])
    ensures x in r || (|r| == k && AllBefore(r, x))
  {
    if x in a {
      var t :| 0 <= t < |a| && a[t] == x;
      if t < i { assert a[..i][t] == x; }
    } else if i < |a| {
      assert AllBefore(r, a[i]) && Before(a[i], x);
    } else {
      assert a[..i] == a && other == [];
      forall t | 0 <= t < |r| ensures Before(r[t], x) { assert r[t] in r; }
    }
  }

  /** The slots that `idxs` selects from chunk number `chunk`. */
  ghost function Picked(chunk: int, distances: seq<int>, rowids: seq<int>, idxs: seq<int>): (ss: seq<Slot>)
    requires forall t | 0 <= t < |idxs| :: 0 <= idxs[t] < |distances| && idxs[t] < |rowids|
    ensures |ss| == |idxs|
    ensures forall t | 0 <= t < |idxs| :: ss[t] == Slot(distances[idxs[t]], chunk, idxs[t], rowids[idxs[t]])
  {
    seq(|idxs|, t requires 0 <= t < |idxs| => Slot(distances[idxs[t]], chunk, idxs[t], rowids[idxs[t]]))
  }

  /** The next entry of a merge `r` of which the first `at` entries are known. */
  lemma MergeNext(r: seq<Slot>, at: nat, a: seq<Slot>, i: nat, b: seq<Slot>, j: nat, n: nat)
    requires i <= |a| && j <= |b| && at < n && at <= |r|
    requires r[at..] == Merge(a[i..], b[j..], n - at)
    ensures i == |a| && j == |b| ==> |r| == at
    ensures j < |b| && (i == |a| || a[i].distance > b[j].distance) ==>
      at < |r| && r[at] == b[j] && r[at + 1..] == Merge(a[i..], b[j + 1..], n - at - 1)
    ensures i < |a| && (j == |b| || a[i].distance <= b[j].distance) ==>
      at < |r| && r[at] == a[i] && r[at + 1..] == Merge(a[i + 1..], b[j..], n - at - 1)
  {
    if i < |a| { assert a[i..][1..] == a[i + 1..]; }
    if j < |b| { assert b[j..][1..] == b[j + 1..]; }
    if at < |r| { assert r[at] == r[at..][0] && r[at + 1..] == r[at..][1..]; }
  }

  method MergeSortedLists(a: array<int>, aRowids: array<int>, aLength: nat,
                          b: array<int>, bRowids: seq<int>, bTop: array<int>, bLength: nat,
                          out: array<int>, outRowids: array<int>, outLength: nat,
                          ghost sa: seq<Slot>, ghost sb: seq<Slot>)
    returns (used: nat)
    requires aLength <= a.Length && aLength <= aRowids.Length && bLength <= bTop.Length
    requires outLength <= out.Length && outLength <= outRowids.Length
    requires forall t | 0 <= t < bLength :: 0 <= bTop[t] < b.Length && bTop[t] < |bRowids|
    requires out != outRowids && out !in {a, aRowids, b, bTop} && outRowids !in {a, aRowids, b, bTop}
    requires |sa| == aLength && forall t | 0 <= t < aLength :: HitOf(sa[t]) == Hit(a[t], aRowids[t])
    requires |sb| == bLength && forall t | 0 <= t < bLength :: HitOf(sb[t]) == Hit(b[bTop[t]], bRowids[bTop[t]])
    modifies out, outRowids
    ensures used == |Merge(sa, sb, outLength)| <= outLength
    ensures forall t | 0 <= t < used :: Hit(out[t], outRowids[t]) == HitOf(Merge(sa, sb, outLength)[t])
  {
    var ptrA, ptrB := 0, 0;
    ghost var r := Merge(sa, sb, outLength);
    assert sa[0..] == sa && sb[0..] == sb;
    for i := 0 to outLength
      invariant ptrA <= aLength && ptrB <= bLength && i <= |r|
      invariant r[i..] == Merge(sa[ptrA..], sb[ptrB..], outLength - i)
      invariant forall t | 0 <= t < i :: Hit(out[t], outRowids[t]) == HitOf(r[t])
    {
      MergeNext(r, i, sa, ptrA, sb, ptrB, outLength);
      if ptrA >= aLength && ptrB >= bLength {
        return i;
      }
      if ptrA >= aLength {
        out[i], outRowids[i] := b[bTop[ptrB]], bRowids[bTop[ptrB]];
        ptrB := ptrB + 1;
      } else if ptrB >= bLength {
        out[i], outRowids[i] := a[ptrA], aRowids[ptrA];
        ptrA := ptrA + 1;
      } else if a[ptrA] <= b[bTop[ptrB]] {
        out[i], outRowids[i] := a[ptrA], aRowids[ptrA];
        ptrA := ptrA + 1;
      } else {
        out[i], outRowids[i] := b[bTop[ptrB]], bRowids[bTop[ptrB]];
        ptrB := ptrB + 1;
      }
    }
    return outLength;
  }

  // ----- min_idx -----

  predicate Closer(d: seq<int>, i: int, j: int)
    requires 0 <= i < |d| && 0 <= j < |d|
  {
    d[i] < d[j] || (d[i] == d[j] && i > j)
  }

  /** `r` lists the k best candidate offsets of one chunk, the best first. */
  ghost predicate IsSelection(r: seq<int>, d: seq<int>, candidates: seq<bool>, k: nat)
    requires |candidates| == |d|
  {
    && |r| <= k
    && (forall t | 0 <= t < |r| :: 0 <= r[t] < |d| && candidates[r[t]])
    && (forall s, t | 0 <= s < t < |r| :: Closer(d, r[s], r[t]))
    && (forall o | 0 <= o < |d| && candidates[o] :: o in r || (|r| == k && forall t | 0 <= t < |r| :: Closer(d, r[t], o)))
  }

  predicate Free(taken: seq<bool>, candidates: seq<bool>, i: int)
    requires 0 <= i < |taken| && i < |candidates|
  {
    !taken[i] && candidates[i]
  }

  /** The state of the outer loop of min_idx: `r` is chosen and marked as taken,
      and every candidate still free is farther than all of it. */
  ghost predicate Selecting(r: seq<int>, d: seq<int>, candidates: seq<bool>, taken: seq<bool>) {
    && |taken| == |candidates| == |d|
    && (forall t | 0 <= t < |r| :: 0 <= r[t] < |d| && candidates[r[t]])
    && (forall o | 0 <= o < |d| :: taken[o] <==> o in r)
    && (forall s, t | 0 <= s < t < |r| :: Closer(d, r[s], r[t]))
    && (forall t, o | 0 <= t < |r| && 0 <= o < |d| && Free(taken, candidates, o) :: Closer(d, r[t], o))
  }

  ghost predicate IsNearest(best: int, d: seq<int>, candidates: seq<bool>, taken: seq<bool>)
    requires |taken| == |candidates| == |d|
  {
    && 0 <= best < |d| && Free(taken, candidates, best)
    && forall o | 0 <= o < |d| && o != best && Free(taken, candidates, o) :: Closer(d, best, o)
  }

  lemma SelectingStep(r: seq<int>, d: seq<int>, candidates: seq<bool>, taken: seq<bool>, best: int)
    requires Selecting(r, d, candidates, taken) && IsNearest(best, d, candidates, taken)
    ensures Selecting(r + [best], d, candidates, taken[best := true])
  {
    var r', taken' := r + [best], taken[best := true];
    forall o | 0 <= o < |d| ensures taken'[o] <==> o in r' {
      assert o in r' <==> o in r || o == best;
    }
    forall t, o | 0 <= t < |r'| && 0 <= o < |d| && Free(taken', candidates, o) ensures Closer(d, r'[t], o) {
      assert Free(taken, candidates, o);
    }
    forall s, t | 0 <= s < t < |r'| ensures Closer(d, r'[s], r'[t]) {
      assert t < |r| || Closer(d, r[s], best);
    }
  }

  lemma SelectingDone(r: seq<int>, d: seq<int>, candidates: seq<bool>, taken: seq<bool>, k: nat)
    requires Selecting(r, d, candidates, taken) && |r| <= k
    requires |r| == k || forall o | 0 <= o < |d| :: !Free(taken, candidates, o)
    ensures IsSelection(r, d, candidates, k)
  {
    forall o | 0 <= o < |d| && candidates[o]
      ensures o in r || (|r| == k && forall t | 0 <= t < |r| :: Closer(d, r[t], o))
    {
      assert taken[o] || Free(taken, candidates, o);
    }
  }

  method MinIdx(distances: array<int>, candidates: array<Byte>, out: array<int>, k: nat, bTaken: array<Byte>)
    returns (kUsed: nat)
    requires candidates.Length == bTaken.Length && distances.Length == CHAR_BIT * candidates.Length
    requires 0 < k <= distances.Length && k <= out.Length
    requires candidates != bTaken && distances != out
    requires out as object !in {bTaken, candidates} && distances as object != bTaken
    modifies bTaken, out
    ensures kUsed <= k
    ensures IsSelection(out[..kUsed], distances[..], Bits(candidates[..]), k)
    ensures forall s, t | 0 <= s < t < kUsed ::
      && 0 <= out[s] < distances.Length && 0 <= out[t] < distances.Length
      && (distances[out[s]] < distances[out[t]] || (distances[out[s]] == distances[out[t]] && out[s] > out[t]))
  {
    var n := distances.Length;
    ghost var cand, d := Bits(candidates[..]), distances[..];
    BitmapClear(bTaken);
    ghost var chosen, taken := [], Bits(bTaken[..]);
    for ik := 0 to k
      invariant |chosen| == ik && forall t | 0 <= t < ik :: out[t] == chosen[t]
      invariant Selecting(chosen, d, cand, taken)
      invariant taken == Bits(bTaken[..]) && cand == Bits(candidates[..]) && d == distances[..]
    {
      var minIdx := NextFree(bTaken, candidates, taken, cand);
      if minIdx >= n {
        SelectingDone(chosen, d, cand, taken, k);
        assert out[..ik] == chosen;
        return ik;
      }
      minIdx := Nearest(distances, candidates, bTaken, minIdx, taken, cand);
      SelectingStep(chosen, d, cand, taken, minIdx);
      out[ik] := minIdx;
      BitmapSet(bTaken, minIdx, true);
      chosen, taken := chosen + [minIdx], taken[minIdx := true];
    }
    SelectingDone(chosen, d, cand, taken, k);
    assert out[..k] == chosen;
    return k;
  }

  method NextFree(bTaken: array<Byte>, candidates: array<Byte>, ghost taken: seq<bool>, ghost cand: seq<bool>)
    returns (i: nat)
    requires candidates.Length == bTaken.Length && taken == Bits(bTaken[..]) && cand == Bits(candidates[..])
    ensures i <= |taken|
    ensures forall o | 0 <= o < i :: !Free(taken, cand, o)
    ensures i < |taken| ==> Free(taken, cand, i)
  {
    i := 0;
    while i < CHAR_BIT * bTaken.Length
      invariant i <= CHAR_BIT * bTaken.Length
      invariant forall o | 0 <= o < i :: !Free(taken, cand, o)
    {
      var t := BitmapGet(bTaken, i);
      var c := BitmapGet(candidates, i);
      if !(t == 1 || c == 0) { return; }
      i := i + 1;
    }
  }

  /** The inner scan: the nearest free candidate, the last one among equals. */
  method Nearest(distances: array<int>, candidates: array<Byte>, bTaken: array<Byte>, start: nat,
                 ghost taken: seq<bool>, ghost cand: seq<bool>) returns (best: nat)
    requires candidates.Length == bTaken.Length && distances.Length == CHAR_BIT * candidates.Length
    requires taken == Bits(bTaken[..]) && cand == Bits(candidates[..])
    requires start < distances.Length && Free(taken, cand, start)
    requires forall o | 0 <= o < start :: !Free(taken, cand, o)
    ensures IsNearest(best, distances[..], cand, taken)
    ensures best < distances.Length && forall o | 0 <= o < distances.Length && !taken[o] && cand[o] ::
      distances[best] < distances[o] || (distances[best] == distances[o] && o <= best)
  {
    best := start;
    for i := 0 to distances.Length
      invariant best < distances.Length && Free(taken, cand, best)
      invariant best < i || best == start
      invariant forall o | 0 <= o < i && o != best && Free(taken, cand, o) :: Closer(distances[..], best, o)
    {
      var t := BitmapGet(bTaken, i);
      var c := BitmapGet(candidates, i);
      if distances[i] <= distances[best] && t == 0 && c == 1 {
        best := i;
      }
    }
    NearestIs(best, distances[..], cand, taken);
  }

  lemma NearestIs(best: int, d: seq<int>, cand: seq<bool>, taken: seq<bool>)
    requires |taken| == |cand| == |d| && IsNearest(best, d, cand, taken)
    ensures forall o | 0 <= o < |d| && !taken[o] && cand[o] :: d[best] < d[o] || (d[best] == d[o] && o <= best)
  {
    forall o | 0 <= o < |d| && !taken[o] && cand[o] ensures d[best] < d[o] || (d[best] == d[o] && o <= best) {
      assert Free(taken, cand, o);
    }
  }

  // ----- one chunk of the scan -----

  /** The candidates of one chunk. */
  ghost function ChunkSlots(chunk: int, d: seq<int>, candidates: seq<bool>, rowids: seq<int>): set<Slot>
    requires |candidates| == |d| == |rowids|
  {
    set o | 0 <= o < |d| && candidates[o] :: Slot(d[o], chunk, o, rowids[o])
  }

  /** min(k, chunk_size) offsets are enough: a chunk has no more candidates than that. */
  lemma SelectionIsTopK(chunk: int, d: seq<int>, candidates: seq<bool>, rowids: seq<int>, r: seq<int>, k: nat)
    requires |candidates| == |d| == |rowids|
    requires IsSelection(r, d, candidates, if k < |d| then k else |d|)
    ensures IsTopK(Picked(chunk, d, rowids, r), ChunkSlots(chunk, d, candidates, rowids), k)
  {
    var ss := Picked(chunk, d, rowids, r);
    forall x | x in ChunkSlots(chunk, d, candidates, rowids) ensures x in ss || (|ss| == k && AllBefore(ss, x)) {
      var o := x.offset;
      if o in r {
        var t :| 0 <= t < |r| && r[t] == o;
        assert ss[t] == x;
      } else {
        assert forall t | 0 <= t < |r| :: Closer(d, r[t], o);
        if |r| == |d| {
          Sets.Exhausted(r, |d|, o);
        }
      }
    }
  }

  /** The buffers of one KNN scan: the running list, a scratch pair for merging,
      and the per-chunk distances, offsets and bitmaps. */
  class KnnBuffers {
    const k: nat
    const bytes: nat
    const topkDistances: array<int>
    const topkRowids: array<int>
    const tmpDistances: array<int>
    const tmpRowids: array<int>
    const chunkDistances: array<int>
    const chunkTopkIdxs: array<int>
    const b: array<Byte>
    const bTaken: array<Byte>
    const bmRowids: array<Byte>
    const bmMetadata: array<Byte>
    var kUsed: nat
    ghost var top: seq<Slot>

    /** The sizes, and that no two buffers share memory. */
    ghost predicate Shape() {
      && 0 < k && 0 < bytes
      && topkDistances.Length == topkRowids.Length == tmpDistances.Length == tmpRowids.Length == k
      && chunkTopkIdxs.Length == k && chunkDistances.Length == CHAR_BIT * bytes
      && b.Length == bTaken.Length == bmRowids.Length == bmMetadata.Length == bytes
      && topkDistances !in {topkRowids, tmpDistances, tmpRowids, chunkDistances, chunkTopkIdxs}
      && topkRowids !in {tmpDistances, tmpRowids, chunkDistances, chunkTopkIdxs}
      && tmpDistances !in {tmpRowids, chunkDistances, chunkTopkIdxs}
      && tmpRowids !in {chunkDistances, chunkTopkIdxs} && chunkDistances != chunkTopkIdxs
      && b !in {bTaken, bmRowids, bmMetadata} && bTaken !in {bmRowids, bmMetadata} && bmRowids != bmMetadata
      && b as object !in IntBuffers() && bTaken as object !in IntBuffers()
      && bmRowids as object !in IntBuffers() && bmMetadata as object !in IntBuffers()
    }

    ghost function IntBuffers(): set<object> {
      {topkDistances, topkRowids, tmpDistances, tmpRowids, chunkDistances, chunkTopkIdxs}
    }

    ghost function BitBuffers(): set<object> {
      {b, bTaken, bmRowids, bmMetadata}
    }

    /** The running list holds the hits of `top`. */
    ghost predicate Valid()
      reads this, topkDistances, topkRowids
    {
      && Shape()
      && kUsed == |top| <= k
      && forall t | 0 <= t < kUsed :: HitOf(top[t]) == Hit(topkDistances[t], topkRowids[t])
    }

    constructor (k: nat, bytes: nat)
      requires 0 < k && 0 < bytes
      ensures Valid() && top == [] && this.k == k && this.bytes == bytes
      ensures fresh(topkDistances) && fresh(topkRowids) && fresh(tmpDistances) && fresh(tmpRowids)
      ensures fresh(chunkDistances) && fresh(chunkTopkIdxs)
      ensures fresh(b) && fresh(bTaken) && fresh(bmRowids) && fresh(bmMetadata)
    {
      this.k, this.bytes, kUsed, top := k, bytes, 0, [];
      topkDistances, topkRowids := new int[k], new int[k];
      tmpDistances, tmpRowids := new int[k], new int[k];
      chunkDistances, chunkTopkIdxs := new int[CHAR_BIT * bytes], new int[k];
      b, bTaken := new Byte[bytes], new Byte[bytes];
      bmRowids, bmMetadata := new Byte[bytes], new Byte[bytes];
    }

    /** One round of the chunk loop after the distances are known: select the best
        offsets of the chunk, merge them with the running list through the scratch
        pair, and copy the result back. */
    method FoldChunk(chunkRowids: seq<int>, ghost d: seq<int>, ghost cand: seq<bool>, ghost seen: set<Slot>, ghost chunk: int)
      requires Valid() && |chunkRowids| == CHAR_BIT * bytes
      requires d == chunkDistances[..] && cand == Bits(b[..])
      requires IsTopK(top, seen, k) && forall x | x in seen :: x.chunk < chunk
      modifies this, bTaken, chunkTopkIdxs, topkDistances, topkRowids, tmpDistances, tmpRowids
      ensures Valid()
      ensures IsTopK(top, seen + ChunkSlots(chunk, d, cand, chunkRowids), k)
    {
      var used1, sb := Select(chunkRowids, d, cand, chunk);
      MergeIsTopK(top, seen, sb, ChunkSlots(chunk, d, cand, chunkRowids), k);
      MergeBack(chunkRowids, used1, sb);
    }

    method Select(chunkRowids: seq<int>, ghost d: seq<int>, ghost cand: seq<bool>, ghost chunk: int)
      returns (used1: nat, ghost sb: seq<Slot>)
      requires Shape() && |chunkRowids| == CHAR_BIT * bytes
      requires d == chunkDistances[..] && cand == Bits(b[..])
      modifies bTaken, chunkTopkIdxs
      ensures used1 == |sb| <= k
      ensures IsTopK(sb, ChunkSlots(chunk, d, cand, chunkRowids), k)
      ensures forall t | 0 <= t < used1 ::
        0 <= chunkTopkIdxs[t] < |d| && HitOf(sb[t]) == Hit(d[chunkTopkIdxs[t]], chunkRowids[chunkTopkIdxs[t]])
    {
      var n := chunkDistances.Length;
      used1 := MinIdx(chunkDistances, b, chunkTopkIdxs, if k < n then k else n, bTaken);
      ghost var idxs := chunkTopkIdxs[..used1];
      SelectionIsTopK(chunk, d, cand, chunkRowids, idxs, k);
      sb := Picked(chunk, d, chunkRowids, idxs);
      assert forall t | 0 <= t < used1 :: chunkTopkIdxs[t] == idxs[t];
    }

    method MergeBack(chunkRowids: seq<int>, used1: nat, ghost sb: seq<Slot>)
      requires Valid() && |chunkRowids| == CHAR_BIT * bytes && used1 == |sb| <= k
      requires forall t | 0 <= t < used1 ::
        && 0 <= chunkTopkIdxs[t] < chunkDistances.Length
        && HitOf(sb[t]) == Hit(chunkDistances[chunkTopkIdxs[t]], chunkRowids[chunkTopkIdxs[t]])
      modifies this, topkDistances, topkRowids, tmpDistances, tmpRowids
      ensures Valid() && top == Merge(old(top), sb, k)
    {
      var used := MergeSortedLists(topkDistances, topkRowids, kUsed, chunkDistances, chunkRowids, chunkTopkIdxs, used1,
                                   tmpDistances, tmpRowids, k, top, sb);
      ghost var merged := Merge(top, sb, k);
      for i := 0 to used
        modifies topkDistances, topkRowids
        invariant forall t | 0 <= t < i :: HitOf(merged[t]) == Hit(topkDistances[t], topkRowids[t])
      {
        topkRowids[i] := tmpRowids[i];
        topkDistances[i] := tmpDistances[i];
      }
      kUsed, top := used, merged;
    }

    method Result() returns (hits: seq<Hit>)
      requires Valid()
      ensures hits == Hits(top)
    {
      hits := [];
      for i := 0 to kUsed
        invariant |hits| == i && forall t | 0 <= t < i :: hits[t] == HitOf(top[t])
      {
        hits := hits + [Hit(topkDistances[i], topkRowids[i])];
      }
    }
  }
}
