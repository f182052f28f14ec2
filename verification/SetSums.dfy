/** Sums of loads over finite sets, in no particular order. */
module SetSums {
  import opened LoadSums

  ghost function Adding<K(!new)>(s: set<K>, f: K -> Load): Load
    decreases |s|
  {
    if s == {} then NONE
    else
      var k :| k in s;
      Plus(Adding(s - {k}, f), f(k))
  }

  /** The sum of f over the elements of s. */
  ghost function SetSum<K(!new)>(s: set<K>, f: K -> Load): Load {
    Adding(s, f)
  }

  lemma SetSumEmpty<K(!new)>(f: K -> Load)
    ensures SetSum({}, f) == NONE
  {
  }

  lemma SetSumPicks<K(!new)>(s: set<K>, f: K -> Load) returns (k: K)
    requires s != {}
    ensures k in s && SetSum(s, f) == Plus(SetSum(s - {k}, f), f(k))
  {
    hide Plus;
    k :| k in s && Adding(s, f) == Plus(Adding(s - {k}, f), f(k));
  }

  /** Any element can be taken out. */
  lemma {:induction false} SetSumTakes<K(!new)>(s: set<K>, f: K -> Load, k: K)
    requires k in s
    ensures SetSum(s, f) == Plus(SetSum(s - {k}, f), f(k))
    decreases |s|
  {
    hide SetSum, Plus;
    var j := SetSumPicks(s, f);
    if j != k {
      var rest := s - {j} - {k};
      SetSumTakes(s - {j}, f, k);
      SetSumTakes(s - {k}, f, j);
      assert s - {k} - {j} == rest;
      PlusLaws(SetSum(rest, f), f(k), f(j));
      PlusLaws(f(k), f(j), NONE);
      PlusLaws(SetSum(rest, f), f(j), f(k));
    }
  }

  lemma SetSumNext<K(!new)>(s: set<K>, f: K -> Load, k: K, next: set<K>)
    requires k !in s && next == s + {k}
    ensures SetSum(next, f) == Plus(SetSum(s, f), f(k))
  {
    hide SetSum, Plus;
    SetSumTakes(next, f, k);
    assert next - {k} == s;
  }

  /** Sums over disjoint sets add up. */
  lemma {:induction false} SetSumUnion<K(!new)>(s: set<K>, u: set<K>, f: K -> Load)
    requires s !! u
    ensures SetSum(s + u, f) == Plus(SetSum(s, f), SetSum(u, f))
    decreases |u|
  {
    hide SetSum, Plus;
    SetSumEmpty(f);
    if u == {} {
      assert s + u == s;
      PlusLaws(SetSum(s, f), NONE, NONE);
    } else {
      var k :| k in u;
      SetSumUnion(s, u - {k}, f);
      SetSumNext(s + (u - {k}), f, k, s + u);
      SetSumNext(u - {k}, f, k, u);
      PlusLaws(SetSum(s, f), SetSum(u - {k}, f), f(k));
    }
  }

  lemma {:induction false} SetSumZeros<K(!new)>(s: set<K>, f: K -> Load)
    requires forall k :: k in s ==> f(k) == NONE
    ensures SetSum(s, f) == NONE
    decreases |s|
  {
    hide SetSum, Plus;
    SetSumEmpty(f);
    if s != {} {
      var k :| k in s;
      SetSumZeros(s - {k}, f);
      SetSumTakes(s, f, k);
      PlusLaws(NONE, NONE, NONE);
    }
  }

  /** Elements that add nothing can be left out. */
  lemma SetSumWithin<K(!new)>(s: set<K>, u: set<K>, f: K -> Load)
    requires u <= s && forall k :: k in s - u ==> f(k) == NONE
    ensures SetSum(s, f) == SetSum(u, f)
  {
    hide SetSum, Plus;
    SetSumZeros(s - u, f);
    SetSumUnion(u, s - u, f);
    assert u + (s - u) == s;
    PlusLaws(SetSum(u, f), NONE, NONE);
  }

  lemma {:induction false} SetSumSame<K(!new)>(s: set<K>, f: K -> Load, g: K -> Load)
    requires forall k :: k in s ==> f(k) == g(k)
    ensures SetSum(s, f) == SetSum(s, g)
    decreases |s|
  {
    hide SetSum, Plus;
    SetSumEmpty(f);
    SetSumEmpty(g);
    if s != {} {
      var k :| k in s;
      SetSumSame(s - {k}, f, g);
      SetSumTakes(s, f, k);
      SetSumTakes(s, g, k);
    }
  }

  /** Sums of two functions over the same set add up. */
  lemma {:induction false} SetSumPairs<K(!new)>(s: set<K>, f: K -> Load, g: K -> Load, h: K -> Load)
    requires forall k :: k in s ==> h(k) == Plus(f(k), g(k))
    ensures SetSum(s, h) == Plus(SetSum(s, f), SetSum(s, g))
    decreases |s|
  {
    hide SetSum, Plus;
    SetSumEmpty(f);
    SetSumEmpty(g);
    SetSumEmpty(h);
    PlusLaws(NONE, NONE, NONE);
    if s != {} {
      var k :| k in s;
      SetSumPairs(s - {k}, f, g, h);
      SetSumTakes(s, f, k);
      SetSumTakes(s, g, k);
      SetSumTakes(s, h, k);
      PlusSwap(SetSum(s - {k}, f), SetSum(s - {k}, g), f(k), g(k));
    }
  }

  /** The energy of a sum depends on the energies only. */
  lemma {:induction false} SetSumEnergy<K(!new)>(s: set<K>, f: K -> Load, g: K -> Load)
    requires forall k :: k in s ==> f(k).u == g(k).u
    ensures SetSum(s, f).u == SetSum(s, g).u
    decreases |s|
  {
    hide SetSum;
    SetSumEmpty(f);
    SetSumEmpty(g);
    if s != {} {
      var k :| k in s;
      SetSumEnergy(s - {k}, f, g);
      SetSumTakes(s, f, k);
      SetSumTakes(s, g, k);
    }
  }

  lemma {:induction false} SetSumForceOnly<K(!new)>(s: set<K>, f: K -> Load)
    requires forall k :: k in s ==> f(k).u == 0.0 && f(k).rho == 0.0
    ensures SetSum(s, f).u == 0.0 && SetSum(s, f).rho == 0.0
    decreases |s|
  {
    hide SetSum;
    SetSumEmpty(f);
    if s != {} {
      var k :| k in s;
      SetSumForceOnly(s - {k}, f);
      SetSumTakes(s, f, k);
    }
  }
}
