/** Sums of reals over finite sets, in no particular order. */
module RealSums {

  ghost function Adding<K(!new)>(s: set<K>, f: K -> real): real
    decreases |s|
  {
    if s == {} then 0.0
    else
      var k :| k in s;
      Adding(s - {k}, f) + f(k)
  }

  /** The sum of f over the elements of s. */
  ghost function SumOf<K(!new)>(s: set<K>, f: K -> real): real {
    Adding(s, f)
  }

  lemma SumOfEmpty<K(!new)>(f: K -> real)
    ensures SumOf({}, f) == 0.0
  {
  }

  lemma SumOfPicks<K(!new)>(s: set<K>, f: K -> real) returns (k: K)
    requires s != {}
    ensures k in s && SumOf(s, f) == SumOf(s - {k}, f) + f(k)
  {
    k :| k in s && Adding(s, f) == Adding(s - {k}, f) + f(k);
  }

  /** Any element can be taken out. */
  lemma {:induction false} SumOfTakes<K(!new)>(s: set<K>, f: K -> real, k: K)
    requires k in s
    ensures SumOf(s, f) == SumOf(s - {k}, f) + f(k)
    decreases |s|
  {
    hide SumOf;
    var j := SumOfPicks(s, f);
    if j != k {
      SumOfTakes(s - {j}, f, k);
      SumOfTakes(s - {k}, f, j);
      assert s - {k} - {j} == s - {j} - {k};
    }
  }

  lemma SumOfNext<K(!new)>(s: set<K>, f: K -> real, k: K, next: set<K>)
    requires k !in s && next == s + {k}
    ensures SumOf(next, f) == SumOf(s, f) + f(k)
  {
    hide SumOf;
    SumOfTakes(next, f, k);
    assert next - {k} == s;
  }

  /** Sums over disjoint sets add up. */
  lemma {:induction false} SumOfUnion<K(!new)>(s: set<K>, u: set<K>, f: K -> real)
    requires s !! u
    ensures SumOf(s + u, f) == SumOf(s, f) + SumOf(u, f)
    decreases |u|
  {
    hide SumOf;
    SumOfEmpty(f);
    if u == {} {
      assert s + u == s;
    } else {
      var k :| k in u;
      SumOfUnion(s, u - {k}, f);
      SumOfNext(s + (u - {k}), f, k, s + u);
      SumOfNext(u - {k}, f, k, u);
    }
  }

  lemma {:induction false} SumOfZeros<K(!new)>(s: set<K>, f: K -> real)
    requires forall k :: k in s ==> f(k) == 0.0
    ensures SumOf(s, f) == 0.0
    decreases |s|
  {
    hide SumOf;
    SumOfEmpty(f);
    if s != {} {
      var k :| k in s;
      SumOfZeros(s - {k}, f);
      SumOfTakes(s, f, k);
    }
  }

  /** Elements that add nothing can be left out. */
  lemma SumOfWithin<K(!new)>(s: set<K>, u: set<K>, f: K -> real)
    requires u <= s && forall k :: k in s - u ==> f(k) == 0.0
    ensures SumOf(s, f) == SumOf(u, f)
  {
    hide SumOf;
    SumOfZeros(s - u, f);
    SumOfUnion(u, s - u, f);
    assert u + (s - u) == s;
  }

  /** Sums of two functions over the same set add up. */
  lemma {:induction false} SumOfPairs<K(!new)>(s: set<K>, f: K -> real, g: K -> real, h: K -> real)
    requires forall k :: k in s ==> h(k) == f(k) + g(k)
    ensures SumOf(s, h) == SumOf(s, f) + SumOf(s, g)
    decreases |s|
  {
    hide SumOf;
    SumOfEmpty(f);
    SumOfEmpty(g);
    SumOfEmpty(h);
    if s != {} {
      var k :| k in s;
      SumOfPairs(s - {k}, f, g, h);
      SumOfTakes(s, f, k);
      SumOfTakes(s, g, k);
      SumOfTakes(s, h, k);
    }
  }
}
