/** What becomes of top-k answers when rows are dropped from them afterwards, or when several of
    them are put together. */
module TopRows {
  import opened Sets
  import opened TopK
  import opened KnnAnswer

  ghost function Ids(hits: seq<Hit>): (r: set<int>)
    ensures forall x :: x in r <==> Returned(hits, x)
  {
    set i | 0 <= i < |hits| :: hits[i].rowid
  }

  ghost predicate Distinct(hits: seq<Hit>) {
    forall i, j | 0 <= i < j < |hits| :: hits[i].rowid != hits[j].rowid
  }

  ghost predicate Ranked(hits: seq<Hit>) {
    forall i, j | 0 <= i < j < |hits| :: hits[i].distance <= hits[j].distance
  }

  lemma IdsOfMore(hits: seq<Hit>, h: Hit)
    ensures Ids(hits + [h]) == Ids(hits) + {h.rowid}
  {
    var more := hits + [h];
    forall x ensures Returned(more, x) <==> Returned(hits, x) || x == h.rowid {
      if Returned(hits, x) {
        var i :| 0 <= i < |hits| && hits[i].rowid == x;
        assert more[i].rowid == x;
      }
      if x == h.rowid { assert more[|hits|].rowid == x; }
    }
  }

  lemma {:induction false} CountIds(hits: seq<Hit>)
    ensures |Ids(hits)| <= |hits|
    ensures |Ids(hits)| == |hits| <==> Distinct(hits)
  {
    if hits != [] {
      var n := |hits| - 1;
      CountIds(hits[..n]);
      IdsOfMore(hits[..n], hits[n]);
      assert hits == hits[..n] + [hits[n]];
      DistinctMore(hits[..n], hits[n]);
    }
  }

  lemma DistinctMore(hits: seq<Hit>, h: Hit)
    ensures Distinct(hits + [h]) <==> Distinct(hits) && h.rowid !in Ids(hits)
  {
    var n, more := |hits|, hits + [h];
    if Returned(hits, h.rowid) {
      var i :| 0 <= i < n && hits[i].rowid == h.rowid;
      assert more[i].rowid == more[n].rowid;
    }
    if i, j :| 0 <= i < j < n && hits[i].rowid == hits[j].rowid {
      assert more[i].rowid == more[j].rowid;
    }
  }

  /** The size of a top-k. */
  lemma TopSize(hits: seq<Hit>, k: nat, wanted: set<int>, d: map<int, int>)
    requires wanted <= d.Keys && IsTopKOf(hits, k, wanted, d)
    ensures Ids(hits) <= wanted && |Ids(hits)| == |hits|
    ensures |hits| == if |wanted| < k then |wanted| else k
  {
    CountIds(hits);
    CardSubset(Ids(hits), wanted);
    if |hits| < k {
      forall x | x in wanted ensures x in Ids(hits) { }
      assert Ids(hits) == wanted;
    }
  }

  // ----- rows dropped afterwards -----

  /** The hits that pass a test, in their order. */
  ghost function Kept(hits: seq<Hit>, keep: Hit -> bool): (r: seq<Hit>)
    ensures forall h :: h in r <==> h in hits && keep(h)
    ensures |r| <= |hits| && (|r| == |hits| ==> r == hits)
  {
    if hits == [] then []
    else
      var n := |hits| - 1;
      assert hits == hits[..n] + [hits[n]];
      Kept(hits[..n], keep) + if keep(hits[n]) then [hits[n]] else []
  }

  lemma {:induction false} KeptAll(hits: seq<Hit>, keep: Hit -> bool)
    requires forall h | h in hits :: keep(h)
    ensures Kept(hits, keep) == hits
  {
    if hits != [] {
      assert hits == hits[..|hits| - 1] + [hits[|hits| - 1]];
      KeptAll(hits[..|hits| - 1], keep);
    }
  }

  lemma {:induction false} KeptInOrder(hits: seq<Hit>, keep: Hit -> bool)
    requires Ranked(hits) && Distinct(hits)
    ensures Ranked(Kept(hits, keep)) && Distinct(Kept(hits, keep))
  {
    if hits != [] {
      var n := |hits| - 1;
      var before := hits[..n];
      assert hits == before + [hits[n]];
      assert Ranked(before) && Distinct(before) by { PrefixInOrder(hits, before, hits[n]); }
      KeptInOrder(before, keep);
      OneMoreInOrder(Kept(before, keep), before, hits, hits[n]);
    }
  }

  lemma PrefixInOrder(hits: seq<Hit>, before: seq<Hit>, h: Hit)
    requires Ranked(hits) && Distinct(hits) && hits == before + [h]
    ensures Ranked(before) && Distinct(before)
  {
    forall i, j | 0 <= i < j < |before|
      ensures before[i].distance <= before[j].distance && before[i].rowid != before[j].rowid
    {
      assert hits[i] == before[i] && hits[j] == before[j];
    }
  }

  lemma OneMoreInOrder(kept: seq<Hit>, before: seq<Hit>, hits: seq<Hit>, h: Hit)
    requires Ranked(kept) && Distinct(kept) && Ranked(hits) && Distinct(hits) && hits == before + [h]
    requires forall g | g in kept :: g in before
    ensures Ranked(kept + [h]) && Distinct(kept + [h])
  {
    forall i | 0 <= i < |kept| ensures kept[i].distance <= h.distance && kept[i].rowid != h.rowid {
      assert kept[i] in kept && kept[i] in before;
      var m :| 0 <= m < |before| && before[m] == kept[i];
      assert hits[m] == before[m] && hits[|before|] == h;
    }
  }

  /** Which rows are left. */
  lemma KeptRows(hits: seq<Hit>, k: int, passed: set<int>, wanted: set<int>, d: map<int, int>, keep: Hit -> bool, r: int)
    requires wanted <= passed <= d.Keys && IsTopKOf(hits, k, passed, d)
    requires forall x | x in passed :: x in wanted <==> keep(Hit(d[x], x))
    ensures Returned(Kept(hits, keep), r) <==> r in wanted && Returned(hits, r)
  {
    var kept := Kept(hits, keep);
    if Returned(kept, r) {
      var i :| 0 <= i < |kept| && kept[i].rowid == r;
      assert kept[i] in hits && keep(kept[i]);
    }
    if r in wanted && Returned(hits, r) {
      var i :| 0 <= i < |hits| && hits[i].rowid == r;
      assert hits[i] in kept;
    }
  }

  /** Hits that are all wanted and miss no row wanted, or none that is nearer. */
  lemma TopFrom(hits: seq<Hit>, k: int, wanted: set<int>, d: map<int, int>)
    requires wanted <= d.Keys && |hits| <= k && Ranked(hits) && Distinct(hits)
    requires forall h | h in hits :: h.rowid in wanted && h.distance == d[h.rowid]
    requires forall r | r in wanted && !Returned(hits, r) :: |hits| == k && forall h | h in hits :: h.distance <= d[r]
    ensures IsTopKOf(hits, k, wanted, d)
  {
    forall i | 0 <= i < |hits| ensures hits[i].rowid in wanted && hits[i].distance == d[hits[i].rowid] {
      assert hits[i] in hits;
    }
  }

  /** And the other way round. */
  lemma TopGives(hits: seq<Hit>, k: int, wanted: set<int>, d: map<int, int>)
    requires wanted <= d.Keys && IsTopKOf(hits, k, wanted, d)
    ensures Ranked(hits) && Distinct(hits) && |hits| <= k
    ensures forall h | h in hits :: h.rowid in wanted && h.distance == d[h.rowid]
    ensures forall r | r in wanted && !Returned(hits, r) :: |hits| == k && forall h | h in hits :: h.distance <= d[r]
  {
  }

  /** A top-k with rows dropped is the top-k of the rows wanted exactly when nothing was dropped
      or no row wanted is missing. */
  lemma KeptIsTopK(hits: seq<Hit>, k: int, passed: set<int>, wanted: set<int>, d: map<int, int>, keep: Hit -> bool)
    requires wanted <= passed <= d.Keys && IsTopKOf(hits, k, passed, d)
    requires forall x | x in passed :: x in wanted <==> keep(Hit(d[x], x))
    ensures IsTopKOf(Kept(hits, keep), k, wanted, d)
      <==> Kept(hits, keep) == hits || forall r | r in wanted :: Returned(hits, r)
  {
    var kept := Kept(hits, keep);
    TopGives(hits, k, passed, d);
    KeptInOrder(hits, keep);
    forall r | r in wanted ensures Returned(kept, r) <==> Returned(hits, r) {
      KeptRows(hits, k, passed, wanted, d, keep, r);
    }
    if IsTopKOf(kept, k, wanted, d) {
      TopGives(kept, k, wanted, d);
    } else if kept == hits || forall r | r in wanted :: Returned(hits, r) {
      TopFrom(kept, k, wanted, d);
    }
  }

  /** Nothing was dropped exactly when all hits are wanted. */
  lemma NoneDropped(hits: seq<Hit>, keep: Hit -> bool, k: int, passed: set<int>, wanted: set<int>, d: map<int, int>)
    requires wanted <= passed <= d.Keys && IsTopKOf(hits, k, passed, d)
    requires forall x | x in passed :: x in wanted <==> keep(Hit(d[x], x))
    ensures Kept(hits, keep) == hits <==> forall r | r in passed && Returned(hits, r) :: r in wanted
  {
    if Kept(hits, keep) == hits {
      forall r | r in passed && Returned(hits, r) ensures r in wanted {
        KeptRows(hits, k, passed, wanted, d, keep, r);
      }
    }
    if forall r | r in passed && Returned(hits, r) :: r in wanted {
      TopGives(hits, k, passed, d);
      forall h | h in hits ensures keep(h) {
        IdOfHit(hits, h);
        assert h == Hit(d[h.rowid], h.rowid);
      }
      KeptAll(hits, keep);
    }
  }

  /** What is left when only one row is wanted. */
  lemma OnlyHit(hits: seq<Hit>, k: int, passed: set<int>, x: int, d: map<int, int>, keep: Hit -> bool)
    requires x in passed && passed <= d.Keys && IsTopKOf(hits, k, passed, d)
    requires forall y | y in passed :: y == x <==> keep(Hit(d[y], y))
    ensures Kept(hits, keep) == if Returned(hits, x) then [Hit(d[x], x)] else []
  {
    var kept := Kept(hits, keep);
    TopGives(hits, k, passed, d);
    KeptInOrder(hits, keep);
    forall h | h in kept ensures h == Hit(d[x], x) {
      assert h in hits && h == Hit(d[h.rowid], h.rowid);
    }
    AtMostOne(kept, Hit(d[x], x));
    KeptRows(hits, k, passed, {x}, d, keep, x);
  }

  lemma AtMostOne(hits: seq<Hit>, h: Hit)
    requires Distinct(hits) && forall g | g in hits :: g == h
    ensures hits == if Returned(hits, h.rowid) then [h] else []
  {
    if hits != [] {
      assert |hits| > 1 ==> hits[0].rowid != hits[1].rowid;
      forall i | 0 <= i < |hits| ensures hits[i] == h { assert hits[i] in hits; }
      assert Returned(hits, h.rowid) by { assert hits[0].rowid == h.rowid; }
    }
  }

  ghost function Nearer(passed: set<int>, d: map<int, int>, r: int): set<int>
    requires passed <= d.Keys && r in d
  {
    set x | x in passed && d[x] < d[r]
  }

  ghost function NoFarther(passed: set<int>, d: map<int, int>, r: int): set<int>
    requires passed <= d.Keys && r in d
  {
    set x | x in passed && x != r && d[x] <= d[r]
  }

  /** Whether a row is among the hits can be told from the number of rows in front of it. */
  lemma ReturnedByRank(hits: seq<Hit>, k: nat, passed: set<int>, d: map<int, int>, r: int)
    requires passed <= d.Keys && IsTopKOf(hits, k, passed, d) && r in passed
    ensures |NoFarther(passed, d, r)| < k ==> Returned(hits, r)
    ensures |Nearer(passed, d, r)| >= k ==> !Returned(hits, r)
  {
    TopSize(hits, k, passed, d);
    if |NoFarther(passed, d, r)| < k && !Returned(hits, r) {
      CardSubset(Ids(hits), NoFarther(passed, d, r));
    }
    if |Nearer(passed, d, r)| >= k && Returned(hits, r) {
      var i :| 0 <= i < |hits| && hits[i].rowid == r;
      if Nearer(passed, d, r) <= Ids(hits) {
        CardSubset(Nearer(passed, d, r) + {r}, Ids(hits));
      } else {
        var x := Pick(Nearer(passed, d, r) - Ids(hits));
        assert false;
      }
    }
  }

  // ----- several answers -----

  ghost function Together(parts: seq<seq<Hit>>): (r: seq<Hit>)
    ensures forall h :: h in r <==> exists i :: 0 <= i < |parts| && h in parts[i]
  {
    if parts == [] then []
    else
      var n := |parts| - 1;
      assert parts == parts[..n] + [parts[n]];
      Together(parts[..n]) + parts[n]
  }

  /** The hits of all parts, in order of distance. */
  ghost predicate IsMerged(all: seq<Hit>, parts: seq<seq<Hit>>) {
    Ranked(all) && multiset(all) == multiset(Together(parts))
  }

  ghost predicate Divides(sets: seq<set<int>>, wanted: set<int>) {
    && (forall i | 0 <= i < |sets| :: sets[i] <= wanted)
    && (forall i, j | 0 <= i < j < |sets| :: sets[i] !! sets[j])
    && (forall r | r in wanted :: exists i :: 0 <= i < |sets| && r in sets[i])
  }

  /** Part i is a top-k of the i-th set, the sets have no row in common, and make up `wanted`. */
  ghost predicate Divided(parts: seq<seq<Hit>>, sets: seq<set<int>>, k: nat, wanted: set<int>, d: map<int, int>) {
    && |parts| == |sets| && wanted <= d.Keys && Divides(sets, wanted)
    && forall i | 0 <= i < |sets| :: IsTopKOf(parts[i], k, sets[i], d)
  }

  ghost predicate AllWithin(part: seq<Hit>, rows: set<int>) {
    forall h | h in part :: h.rowid in rows
  }

  lemma {:induction false} TogetherDistinct(parts: seq<seq<Hit>>, sets: seq<set<int>>)
    requires |parts| == |sets| && forall i, j | 0 <= i < j < |sets| :: sets[i] !! sets[j]
    requires forall i | 0 <= i < |parts| :: Distinct(parts[i]) && AllWithin(parts[i], sets[i])
    ensures Distinct(Together(parts))
  {
    if parts != [] {
      var n := |parts| - 1;
      TogetherDistinct(parts[..n], sets[..n]);
      forall g, h | g in Together(parts[..n]) && h in parts[n] ensures g.rowid != h.rowid {
        var i :| 0 <= i < n && g in parts[..n][i];
        assert g.rowid in sets[i] && h.rowid in sets[n];
      }
    }
  }

  lemma SameIds(a: seq<Hit>, b: seq<Hit>)
    requires multiset(a) == multiset(b)
    ensures Ids(a) == Ids(b) && |a| == |b|
    ensures forall h :: h in a <==> h in b
  {
    forall h ensures h in a <==> h in b { assert h in multiset(a) <==> h in multiset(b); }
    assert |multiset(a)| == |multiset(b)|;
    forall x ensures Returned(a, x) <==> Returned(b, x) {
      if i :| 0 <= i < |a| && a[i].rowid == x { assert a[i] in b; }
      if i :| 0 <= i < |b| && b[i].rowid == x { assert b[i] in a; }
    }
  }

  lemma DividedParts(parts: seq<seq<Hit>>, sets: seq<set<int>>, k: nat, wanted: set<int>, d: map<int, int>)
    requires Divided(parts, sets, k, wanted, d)
    ensures forall i | 0 <= i < |parts| :: Distinct(parts[i]) && AllWithin(parts[i], sets[i])
  {
    forall i | 0 <= i < |parts| ensures Distinct(parts[i]) && AllWithin(parts[i], sets[i]) {
      TopGives(parts[i], k, sets[i], d);
    }
  }

  /** What the merged hits are. */
  lemma MergedHits(all: seq<Hit>, parts: seq<seq<Hit>>, sets: seq<set<int>>, k: nat, wanted: set<int>, d: map<int, int>)
    requires Divided(parts, sets, k, wanted, d) && IsMerged(all, parts)
    ensures Distinct(all) && |Ids(all)| == |all|
    ensures forall h :: h in all <==> exists i :: 0 <= i < |parts| && h in parts[i]
    ensures forall i | 0 <= i < |parts| :: Ids(parts[i]) <= Ids(all)
    ensures forall i | 0 <= i < |parts| :: Ids(all) * sets[i] <= Ids(parts[i])
    ensures Ids(all) <= wanted
  {
    DividedParts(parts, sets, k, wanted, d);
    TogetherDistinct(parts, sets);
    SameIds(all, Together(parts));
    CountIds(all);
    CountIds(Together(parts));
    forall i, x | 0 <= i < |parts| && x in Ids(parts[i]) ensures x in Ids(all) {
      var h := HitOfId(parts[i], x);
      IdOfHit(all, h);
    }
    forall x | x in Ids(all) ensures x in wanted && forall i | 0 <= i < |parts| && x in sets[i] :: x in Ids(parts[i]) {
      var h := HitOfId(all, x);
      var j :| 0 <= j < |parts| && h in parts[j];
      assert AllWithin(parts[j], sets[j]) && x in sets[j];
      IdOfHit(parts[j], h);
    }
  }

  lemma HitOfId(hits: seq<Hit>, x: int) returns (h: Hit)
    requires x in Ids(hits)
    ensures h in hits && h.rowid == x
  {
    var m :| 0 <= m < |hits| && hits[m].rowid == x;
    h := hits[m];
  }

  lemma IdOfHit(hits: seq<Hit>, h: Hit)
    requires h in hits
    ensures h.rowid in Ids(hits)
  {
  }

  /** Each part was cut to k, the whole was not: it is a top-k exactly when it has no more than
      k hits. */
  lemma MergedIsTopK(all: seq<Hit>, parts: seq<seq<Hit>>, sets: seq<set<int>>, k: nat, wanted: set<int>, d: map<int, int>)
    requires Divided(parts, sets, k, wanted, d) && IsMerged(all, parts)
    ensures IsTopKOf(all, k, wanted, d) <==> |all| <= k
  {
    MergedHits(all, parts, sets, k, wanted, d);
    if |all| <= k {
      forall h | h in all ensures h.rowid in wanted && h.distance == d[h.rowid] {
        var j :| 0 <= j < |parts| && h in parts[j];
        TopGives(parts[j], k, sets[j], d);
      }
      forall r | r in wanted && !Returned(all, r)
        ensures |all| == k && forall h | h in all :: h.distance <= d[r]
      {
        RowLeftOut(all, parts, sets, k, wanted, d, r);
      }
      TopFrom(all, k, wanted, d);
    }
  }

  lemma RowLeftOut(all: seq<Hit>, parts: seq<seq<Hit>>, sets: seq<set<int>>, k: nat, wanted: set<int>, d: map<int, int>,
                   r: int)
    requires Divided(parts, sets, k, wanted, d) && IsMerged(all, parts) && |all| <= k
    requires r in wanted && !Returned(all, r)
    ensures |all| == k && forall h | h in all :: h.distance <= d[r]
  {
    MergedHits(all, parts, sets, k, wanted, d);
    var i :| 0 <= i < |sets| && r in sets[i];
    assert !Returned(parts[i], r) by { assert r !in Ids(parts[i]); }
    TopGives(parts[i], k, sets[i], d);
    FullPart(all, parts[i]);
    forall h | h in all ensures h.distance <= d[r] {
      assert h in parts[i] by { SameHit(all, parts[i], h); }
    }
  }

  /** A part as large as the whole is the whole. */
  lemma FullPart(all: seq<Hit>, part: seq<Hit>)
    requires Distinct(all) && Distinct(part) && Ids(part) <= Ids(all) && |all| <= |part|
    ensures |all| == |part| && Ids(all) == Ids(part)
  {
    CountIds(all);
    CountIds(part);
    CardSubset(Ids(part), Ids(all));
    assert Ids(all) == Ids(part) + (Ids(all) - Ids(part));
    if Ids(all) - Ids(part) != {} {
      var x := Pick(Ids(all) - Ids(part));
      CardSubset(Ids(part) + {x}, Ids(all));
    }
  }

  lemma SameHit(all: seq<Hit>, part: seq<Hit>, h: Hit)
    requires Distinct(all) && Ids(all) == Ids(part) && h in all
    requires forall g | g in part :: g in all
    ensures h in part
  {
    var m :| 0 <= m < |all| && all[m] == h;
    assert h.rowid in Ids(all);
    var n :| 0 <= n < |part| && part[n].rowid == h.rowid;
    assert part[n] in part && part[n] in all;
    var i :| 0 <= i < |all| && all[i] == part[n];
  }

  /** The same in terms of the rows: they are at most k in all, or all in one part. */
  lemma MergedFits(all: seq<Hit>, parts: seq<seq<Hit>>, sets: seq<set<int>>, k: nat, wanted: set<int>, d: map<int, int>)
    requires Divided(parts, sets, k, wanted, d) && IsMerged(all, parts)
    ensures |all| <= k <==> k == 0 || |wanted| <= k || exists i :: 0 <= i < |sets| && wanted <= sets[i]
  {
    MergedHits(all, parts, sets, k, wanted, d);
    if k == 0 {
      assert forall i | 0 <= i < |parts| :: parts[i] == [];
      assert forall h :: h !in all;
    }
    if |wanted| <= k { CardSubset(Ids(all), wanted); }
    if i :| 0 <= i < |sets| && wanted <= sets[i] {
      WithinPart(all, parts[i], k, sets[i], d);
    }
    if 0 < k && |all| <= k && |wanted| > k { OnePart(all, parts, sets, k, wanted, d); }
  }

  lemma WithinPart(all: seq<Hit>, part: seq<Hit>, k: nat, wanted: set<int>, d: map<int, int>)
    requires wanted <= d.Keys && IsTopKOf(part, k, wanted, d)
    requires Distinct(all) && Ids(all) <= wanted && Ids(all) * wanted <= Ids(part)
    ensures |all| <= k
  {
    TopSize(part, k, wanted, d);
    CountIds(all);
    assert Ids(all) * wanted == Ids(all);
    CardSubset(Ids(all), Ids(part));
  }

  lemma OnePart(all: seq<Hit>, parts: seq<seq<Hit>>, sets: seq<set<int>>, k: nat, wanted: set<int>, d: map<int, int>)
    requires Divided(parts, sets, k, wanted, d) && IsMerged(all, parts)
    requires 0 < k && |all| <= k < |wanted|
    ensures exists i :: 0 <= i < |sets| && wanted <= sets[i]
  {
    MergedHits(all, parts, sets, k, wanted, d);
    assert wanted <= Ids(all) + (wanted - Ids(all));
    if wanted - Ids(all) == {} { CardSubset(wanted, Ids(all)); }
    var r := Pick(wanted - Ids(all));
    RowLeftOut(all, parts, sets, k, wanted, d, r);
    var i :| 0 <= i < |sets| && r in sets[i];
    FullPart(all, parts[i]);
    TopSize(parts[i], k, sets[i], d);
    EachIsHit(all, parts, sets, k, wanted, d);
    OneSet(sets, wanted, Ids(all), i);
  }

  lemma EachIsHit(all: seq<Hit>, parts: seq<seq<Hit>>, sets: seq<set<int>>, k: nat, wanted: set<int>, d: map<int, int>)
    requires Divided(parts, sets, k, wanted, d) && IsMerged(all, parts) && 0 < k
    requires forall j | 0 <= j < |parts| :: Ids(parts[j]) <= Ids(all)
    ensures forall j | 0 <= j < |sets| && sets[j] != {} :: sets[j] * Ids(all) != {}
  {
    forall j | 0 <= j < |sets| && sets[j] != {} ensures sets[j] * Ids(all) != {} {
      SomeHit(parts[j], k, sets[j], d);
      assert parts[j][0].rowid in sets[j] * Ids(all);
    }
  }

  lemma SomeHit(hits: seq<Hit>, k: nat, wanted: set<int>, d: map<int, int>)
    requires wanted <= d.Keys && IsTopKOf(hits, k, wanted, d) && 0 < k && wanted != {}
    ensures hits != [] && Ids(hits) <= wanted && hits[0].rowid in Ids(hits)
  {
    TopSize(hits, k, wanted, d);
  }

  lemma OneSet(sets: seq<set<int>>, wanted: set<int>, ids: set<int>, i: nat)
    requires Divides(sets, wanted) && i < |sets| && ids <= sets[i]
    requires forall j | 0 <= j < |sets| && sets[j] != {} :: sets[j] * ids != {}
    ensures wanted <= sets[i]
  {
    forall x | x in wanted ensures x in sets[i] {
      var j :| 0 <= j < |sets| && x in sets[j];
      var y := Pick(sets[j] * ids);
    }
  }
}
