/** Facts about finite sets. */
module Sets {
  lemma Pick<T>(xs: set<T>) returns (x: T)
    requires xs != {}
    ensures x in xs
  {
    x :| x in xs;
  }

  lemma MaxOf(xs: set<int>) returns (m: int)
    requires xs != {}
    ensures m in xs && forall x | x in xs :: x <= m
  {
    m := Pick(xs);
    var rest := xs - {m};
    if rest == {} {
      assert xs == {m};
    } else {
      var n := MaxOf(rest);
      assert forall x | x in xs :: x == m || x in rest;
      if m < n { m := n; }
    }
  }

  lemma CardSubset<T>(a: set<T>, b: set<T>)
    requires a <= b
    ensures |a| <= |b|
  {
    assert b == a + (b - a);
  }

  ghost function Range(n: nat): (r: set<int>)
    ensures forall i :: i in r <==> 0 <= i < n
    ensures |r| == n
  {
    if n == 0 then {} else Range(n - 1) + {n - 1}
  }

  lemma CardSeq<T>(r: seq<T>)
    requires forall s, t | 0 <= s < t < |r| :: r[s] != r[t]
    ensures |(set x | x in r)| == |r|
  {
    if r != [] {
      var m := |r| - 1;
      CardSeq(r[..m]);
      assert r == r[..m] + [r[m]];
      assert (set x | x in r) == (set x | x in r[..m]) + {r[m]};
    }
  }

  /** n distinct numbers below n are all of them. */
  lemma Exhausted(r: seq<int>, n: nat, o: int)
    requires |r| == n && 0 <= o < n
    requires forall t | 0 <= t < n :: 0 <= r[t] < n
    requires forall s, t | 0 <= s < t < n :: r[s] != r[t]
    ensures o in r
  {
    if o !in r {
      var seen := set x | x in r;
      CardSeq(r);
      CardSubset(seen, Range(n) - {o});
    }
  }
}
