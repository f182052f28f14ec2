/** How a row of zones is split among the processes along one axis. */
module ZoneSplit {

  function Times(a: nat, b: nat): nat {
    a * b
  }

  /** zxoffset, zyoffset: the first of g zones that process k of n gets. */
  function Start(k: nat, g: nat, n: nat): nat
    requires n >= 1
  {
    Times(k, g) / n
  }

  lemma StartEnds(g: nat, n: nat)
    requires n >= 1
    ensures Start(0, g, n) == 0 && Start(n, g, n) == g
  {
    assert Times(0, g) == 0;
    ExactQuotient(Times(n, g), g, n);
  }

  lemma ExactQuotient(a: nat, q: nat, n: nat)
    requires n >= 1 && a == n * q
    ensures a / n == q
  {
    var p, r := a / n, a % n;
    assert a == n * p + r;
    assert n * (q - p) == r;
    if q > p {
      TimesMono(1, q - p, n);
    }
  }

  lemma DivGrows(a: nat, g: nat, n: nat)
    requires 1 <= n <= g
    ensures (a + g) / n >= a / n + 1
  {
    var q, r := a / n, a % n;
    assert a == q * n + r;
    assert a + g >= (q + 1) * n by {
      assert (q + 1) * n == q * n + n;
    }
    QuotientAbove(a + g, q + 1, n);
  }

  lemma QuotientAbove(a: nat, q: nat, n: nat)
    requires n >= 1 && a >= q * n
    ensures a / n >= q
  {
    var p := a / n;
    assert (p + 1) * n == p * n + n > a;
    if p < q {
      TimesMono(p + 1, q, n);
    }
  }

  lemma TimesMono(a: nat, b: nat, n: nat)
    requires a <= b
    ensures a * n <= b * n
  {
  }

  lemma TimesNext(k: nat, g: nat)
    ensures Times(k + 1, g) == Times(k, g) + g
  {
  }

  /** With no more processes than zones, every process gets one at least. */
  lemma StartGrows(k: nat, g: nat, n: nat)
    requires 1 <= n <= g
    ensures Start(k + 1, g, n) >= Start(k, g, n) + 1
  {
    TimesNext(k, g);
    DivGrows(Times(k, g), g, n);
  }

  lemma {:induction false} StartInOrder(k: nat, l: nat, g: nat, n: nat)
    requires 1 <= n <= g && k <= l
    ensures Start(k, g, n) + (l - k) <= Start(l, g, n)
    decreases l - k
  {
    hide Start;
    if k < l {
      StartInOrder(k, l - 1, g, n);
      StartGrows(l - 1, g, n);
    }
  }

  lemma StartBounds(k: nat, g: nat, n: nat)
    requires 1 <= n <= g && k <= n
    ensures Start(k, g, n) <= g
    ensures Start(k, g, n) == 0 <==> k == 0
    ensures Start(k, g, n) == g <==> k == n
  {
    hide Start;
    StartEnds(g, n);
    StartInOrder(0, k, g, n);
    StartInOrder(k, n, g, n);
  }

  /** The number of zones of process k. */
  function Zones(k: nat, g: nat, n: nat): (z: nat)
    requires 1 <= n <= g
    ensures z >= 1
  {
    StartGrows(k, g, n);
    Start(k + 1, g, n) - Start(k, g, n)
  }

  /** A grid line belongs to one process: the one it is inside of, or the one it ends,
      except that line 0 belongs to process 0. */
  predicate Owns(k: nat, g: nat, n: nat, i: nat)
    requires 1 <= n <= g
  {
    i <= Zones(k, g, n) && (k == 0 || i > 0)
  }

  lemma OneLineOwner(k: nat, l: nat, g: nat, n: nat, i: nat, j: nat)
    requires 1 <= n <= g && Owns(k, g, n, i) && Owns(l, g, n, j)
    requires Start(k, g, n) + i == Start(l, g, n) + j
    ensures k == l && i == j
  {
    hide Start;
    if k < l {
      StartInOrder(k + 1, l, g, n);
    } else if l < k {
      StartInOrder(l + 1, k, g, n);
    }
  }

  /** Every zone is in the range of exactly one process. */
  lemma {:induction false} ZoneIsIn(z: nat, g: nat, n: nat, m: nat) returns (k: nat)
    requires 1 <= n <= g && m <= n && z < Start(m, g, n)
    ensures k < m && Start(k, g, n) <= z < Start(k + 1, g, n)
    ensures forall l: nat :: Start(l, g, n) <= z < Start(l + 1, g, n) ==> l == k
    decreases m
  {
    hide Start;
    StartEnds(g, n);
    if Start(m - 1, g, n) <= z {
      k := m - 1;
    } else {
      k := ZoneIsIn(z, g, n, m - 1);
    }
    forall l: nat | Start(l, g, n) <= z < Start(l + 1, g, n)
      ensures l == k
    {
      if l < k {
        StartInOrder(l + 1, k, g, n);
      } else if k < l {
        StartInOrder(k + 1, l, g, n);
      }
    }
  }
}
