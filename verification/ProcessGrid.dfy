/** How the processes are arranged in a grid: of all the ways to factor their number, the
    one whose blocks of zones have the shortest long side. */
module ProcessGrid {
  import opened Triples

  const EPS: real := 0.000000000001

  /** Zone counts are C ints. */
  const INT_LIMIT: int := 0x8000_0000

  function Ceil(x: real): int {
    -((-x).Floor)
  }

  function Max(a: real, b: real): real {
    if a >= b then a else b
  }

  /** The long side of a block when nx zones are split in a and ny in b. */
  function LongSide(nx: real, ny: real, a: int, b: int): real
    requires a > 0 && b > 0
  {
    Max(nx / (a as real), ny / (b as real))
  }

  lemma DivLess(a: real, b: real, c: real, d: real)
    requires b > 0.0 && d > 0.0 && a * d <= c * b
    ensures a / b <= c / d
  {
    Cancel(a, b, d);
    Cancel(c, d, b);
    if a / b > c / d {
      ProductMono(c / d, a / b, b * d);
    }
  }

  lemma Cancel(a: real, b: real, d: real)
    requires b > 0.0
    ensures (a / b) * (b * d) == a * d && (a / b) * (d * b) == a * d
  {
    assert (a / b) * b == a;
    assert (a / b) * (b * d) == ((a / b) * b) * d;
    assert b * d == d * b;
  }

  lemma ProductMono(x: real, y: real, z: real)
    requires x < y && z > 0.0
    ensures x * z < y * z
  {
    assert (y - x) * z > 0.0;
  }

  function Times(a: real, b: real): real {
    a * b
  }

  lemma TimesLess(a: real, b: real, c: real)
    requires a <= b && c >= 0.0
    ensures Times(a, c) <= Times(b, c)
  {
    assert (b - a) * c >= 0.0;
  }

  /** n is the square root of numpe * nx / ny. */
  predicate IsRoot(numpe: nat, nx: real, ny: real, n: real) {
    n > 0.0 && nx > 0.0 && ny > 0.0 && Times(Times(n, n), ny) == Times(numpe as real, nx)
  }

  /** x is below y if that holds a times over. */
  lemma Below(x: real, y: real, a: real, t: real, s: real)
    requires a > 0.0 && Times(x, a) == t <= s == Times(y, a)
    ensures x <= y
  {
    if y < x {
      ProductMono(y, x, a);
    }
  }

  lemma Regroup(x: real, y: real, z: real)
    ensures Times(Times(x, y), z) == Times(x, Times(y, z)) == Times(Times(x, z), y) && Times(x, y) == Times(y, x)
  {
  }

  /** The other side of a grid shrinks as one side grows. */
  lemma OtherSide(a: real, c: real, b: real, e: real)
    requires a > 0.0 && b > 0.0 && c > 0.0 && Times(a, c) == Times(b, e) && b <= a
    ensures c <= e
  {
    TimesLess(b, a, c);
    Below(c, e, b, Times(c, b), Times(e, b));
  }

  /** Fewer columns than the largest divisor below the root are no better. */
  lemma FewerColumns(numpe: real, nx: real, ny: real, nn: real, a: real, c: real, b: real, e: real)
    requires nx > 0.0 && ny > 0.0 && a > 0.0 && b > 0.0 && c > 0.0 && e > 0.0 && a <= b
    requires Times(a, c) == numpe == Times(b, e) && Times(nn, ny) == Times(numpe, nx) && Times(a, b) <= nn
    ensures nx / b <= nx / a && ny / e <= nx / a
  {
    TimesLess(a, b, nx);
    Regroup(a, nx, b);
    Regroup(b, nx, a);
    assert nx * a <= nx * b;
    DivLess(nx, b, nx, a);
    assert Times(ny, a) <= Times(nx, e) by {
      TimesLess(Times(a, b), nn, ny);
      Regroup(a, b, ny);
      Regroup(b, e, nx);
      Regroup(ny, a, b);
      Regroup(nx, e, b);
      Regroup(a, ny, b);
      Regroup(e, nx, b);
      hide Times;
      Below(Times(ny, a), Times(nx, e), b, Times(Times(ny, a), b), Times(Times(nx, e), b));
    }
    DivLess(ny, e, nx, a);
  }

  /** More columns than the smallest divisor above the root are no better. */
  lemma MoreColumns(numpe: real, nx: real, ny: real, nn: real, a: real, c: real, b: real, e: real)
    requires nx > 0.0 && ny > 0.0 && a > 0.0 && b > 0.0 && c > 0.0 && e > 0.0 && b <= a
    requires Times(a, c) == numpe == Times(b, e) && Times(nn, ny) == Times(numpe, nx) && Times(a, b) >= nn
    ensures ny / e <= ny / c && nx / b <= ny / c
  {
    OtherSide(a, c, b, e);
    TimesLess(c, e, ny);
    assert ny * c <= ny * e;
    DivLess(ny, e, ny, c);
    assert Times(nx, c) <= Times(ny, b) by {
      TimesLess(nn, Times(a, b), ny);
      Regroup(a, b, ny);
      Regroup(a, c, nx);
      Regroup(ny, b, a);
      Regroup(nx, c, a);
      Regroup(c, nx, a);
      Regroup(b, ny, a);
      hide Times;
      Below(Times(nx, c), Times(ny, b), a, Times(Times(nx, c), a), Times(Times(ny, b), a));
    }
    DivLess(nx, b, ny, c);
  }

  lemma Squares(x: real, y: real)
    requires 0.0 <= x && 0.0 <= y && Times(x, x) <= Times(y, y)
    ensures x <= y
  {
    if y < x {
      TimesLess(y, x, y);
      ProductMono(y, x, x);
    }
  }

  /** The root lies between 1e-12 and the number of processes. */
  lemma RootBounds(numpe: nat, nx: real, ny: real, n: real)
    requires IsRoot(numpe, nx, ny, n) && numpe >= 1 && 1.0 <= nx <= ny <= INT_LIMIT as real
    ensures EPS < n <= numpe as real
  {
    var m := numpe as real;
    assert n <= m by {
      TimesLess(nx, ny, m);
      Regroup(m, nx, ny);
      Regroup(m, ny, nx);
      Regroup(m, m, ny);
      Below(Times(n, n), m, ny, Times(m, nx), Times(m, ny));
      TimesLess(1.0, m, m);
      Squares(n, m);
    }
    if n <= EPS {
      TimesLess(n, EPS, n);
      TimesLess(n, EPS, EPS);
      Regroup(n, EPS, n);
      TimesLess(Times(n, n), Times(EPS, EPS), ny);
      TimesLess(ny, INT_LIMIT as real, Times(EPS, EPS));
      Regroup(ny, Times(EPS, EPS), ny);
      Regroup(m, nx, nx);
      TimesLess(1.0, m, nx);
    }
  }

  lemma BelowRoot(n: real, k: nat, n1: nat)
    requires n > 0.0 && 1 <= k < n1 && n1 as real <= n + EPS
    ensures Times(k as real, n1 as real) <= Times(n, n)
  {
    var b := n1 as real;
    TimesLess(k as real, b - 1.0, b);
    TimesLess(b - EPS, n, b - EPS);
    TimesLess(b - EPS, n, n);
    Regroup(n, b - EPS, n);
    assert Times(b - EPS, b - EPS) >= Times(b - 1.0, b);
  }

  lemma AboveRoot(n: real, k: nat, n2: nat)
    requires n > 0.0 && 1 <= n2 < k && n2 as real >= n - EPS
    ensures Times(k as real, n2 as real) >= Times(n, n)
  {
    var b := n2 as real;
    TimesLess(b + 1.0, k as real, b);
    TimesLess(n, b + EPS, n);
    TimesLess(n, b + EPS, b + EPS);
    Regroup(n, b + EPS, n);
    assert Times(b + EPS, b + EPS) <= Times(b + 1.0, b);
  }

  /** k columns and q rows make up all the processes. */
  predicate Factors(numpe: nat, k: nat, q: nat) {
    k >= 1 && q >= 1 && k * q == numpe
  }

  lemma FactorsReal(numpe: nat, k: nat, q: nat)
    requires Factors(numpe, k, q)
    ensures Times(k as real, q as real) == numpe as real && k as real > 0.0 && q as real > 0.0
  {
  }

  /** The better of the two divisors next to the root is the best of all. */
  lemma BestDivisor(numpe: nat, nx: real, ny: real, n: real, n1: nat, q1: nat, n2: nat, q2: nat, k: nat, q: nat)
    requires IsRoot(numpe, nx, ny, n) && Factors(numpe, n1, q1) && Factors(numpe, n2, q2) && Factors(numpe, k, q)
    requires n1 as real <= n + EPS || n1 == 1
    requires n2 as real >= n - EPS
    requires k <= n1 || k >= n2
    ensures LongSide(nx, ny, n1, q1) <= LongSide(nx, ny, k, q) || LongSide(nx, ny, n2, q2) <= LongSide(nx, ny, k, q)
  {
    FactorsReal(numpe, n1, q1);
    FactorsReal(numpe, n2, q2);
    FactorsReal(numpe, k, q);
    hide Times;
    if k == n1 {
      SameOther(numpe, k, q, q1);
    } else if k == n2 {
      SameOther(numpe, k, q, q2);
    } else if k < n1 {
      BelowRoot(n, k, n1);
      FewerColumns(numpe as real, nx, ny, Times(n, n), k as real, q as real, n1 as real, q1 as real);
    } else {
      AboveRoot(n, k, n2);
      MoreColumns(numpe as real, nx, ny, Times(n, n), k as real, q as real, n2 as real, q2 as real);
    }
  }

  lemma SameOther(numpe: nat, k: nat, q: nat, r: nat)
    requires Factors(numpe, k, q) && Factors(numpe, k, r)
    ensures q == r
  {
    if q < r {
      MulMono(q + 1, r, k);
    } else if r < q {
      MulMono(r + 1, q, k);
    }
  }

  lemma DivisorFactors(numpe: nat, k: nat)
    requires numpe >= 1 && k >= 1 && numpe % k == 0
    ensures Factors(numpe, k, numpe / k)
  {
    var q := numpe / k;
    assert numpe == k * q + numpe % k;
  }

  lemma FactorDivides(numpe: nat, k: nat, q: nat)
    requires Factors(numpe, k, q)
    ensures numpe % k == 0 && k <= numpe
  {
    DivModUnique(q, 0, k);
    MulMono(1, q, k);
  }

  /** The largest divisor up to n1. */
  method DivisorBelow(numpe: nat, start: nat) returns (n1: nat)
    requires numpe >= 1 && start >= 1
    ensures 1 <= n1 <= start && numpe % n1 == 0
    ensures forall k :: n1 < k <= start ==> numpe % k != 0
  {
    n1 := start;
    while numpe % n1 != 0
      invariant 1 <= n1 <= start && forall k :: n1 < k <= start ==> numpe % k != 0
      decreases n1
    {
      n1 := n1 - 1;
    }
  }

  /** The smallest divisor from n2 on. */
  method DivisorAbove(numpe: nat, start: nat) returns (n2: nat)
    requires 1 <= start <= numpe
    ensures start <= n2 <= numpe && numpe % n2 == 0
    ensures forall k :: start <= k < n2 ==> numpe % k != 0
  {
    n2 := start;
    while numpe % n2 != 0
      invariant start <= n2 <= numpe && forall k :: start <= k < n2 ==> numpe % k != 0
      decreases numpe - n2
    {
      n2 := n2 + 1;
    }
  }

  lemma StartBounds(numpe: nat, n: real)
    requires EPS < n <= numpe as real
    ensures 1 <= Ceil(n - EPS) <= numpe && Ceil(n - EPS) as real >= n - EPS
    ensures (n + EPS).Floor as real <= n + EPS
    ensures (n + EPS).Floor + 1 >= Ceil(n - EPS)
  {
  }

  /** With the axes ordered by length: the divisor whose blocks have the shortest long
      side. */
  method ChooseColumns(numpe: nat, nx: real, ny: real, n: real) returns (c: nat, r: nat)
    requires numpe >= 1 && 1.0 <= nx <= ny <= INT_LIMIT as real && IsRoot(numpe, nx, ny, n)
    ensures Factors(numpe, c, r)
    ensures forall k: nat, q: nat :: Factors(numpe, k, q) ==> LongSide(nx, ny, c, r) <= LongSide(nx, ny, k, q)
  {
    RootBounds(numpe, nx, ny, n);
    StartBounds(numpe, n);
    var floor := (n + EPS).Floor;
    var n1 := DivisorBelow(numpe, if floor >= 1 then floor else 1);
    var n2 := DivisorAbove(numpe, Ceil(n - EPS));
    DivisorFactors(numpe, n1);
    DivisorFactors(numpe, n2);
    var longside1, longside2 := LongSide(nx, ny, n1, numpe / n1), LongSide(nx, ny, n2, numpe / n2);
    c := if longside1 <= longside2 then n1 else n2;
    r := numpe / c;
    hide IsRoot, LongSide, Ceil, Factors;
    forall k: nat, q: nat | Factors(numpe, k, q)
      ensures LongSide(nx, ny, c, r) <= LongSide(nx, ny, k, q)
    {
      FactorDivides(numpe, k, q);
      FactorsReal(numpe, k, q);
      BestDivisor(numpe, nx, ny, n, n1, numpe / n1, n2, numpe / n2, k, q);
    }
  }

  /** calcNumPE; n is what sqrt returns. */
  method CalcNumPE(numpe: nat, mype: nat, gnzx: nat, gnzy: nat, n: real)
    returns (numpex: nat, numpey: nat, mypex: nat, mypey: nat)
    requires mype < numpe && 1 <= gnzx < INT_LIMIT && 1 <= gnzy < INT_LIMIT
    requires gnzx <= gnzy ==> IsRoot(numpe, gnzx as real, gnzy as real, n)
    requires gnzx > gnzy ==> IsRoot(numpe, gnzy as real, gnzx as real, n)
    ensures Factors(numpe, numpex, numpey)
    ensures mypex < numpex && mypey < numpey && mype == mypey * numpex + mypex
    ensures forall k: nat, q: nat :: Factors(numpe, k, q) ==>
              LongSide(gnzx as real, gnzy as real, numpex, numpey) <= LongSide(gnzx as real, gnzy as real, k, q)
  {
    hide LongSide, Factors, IsRoot;
    var nx, ny := gnzx as real, gnzy as real;
    var swapflag := nx > ny;
    if swapflag {
      nx, ny := ny, nx;
    }
    numpex, numpey := ChooseColumns(numpe, nx, ny, n);
    if swapflag {
      FactorsTurn(numpe, numpex, numpey);
      Swapped(numpe, nx, ny, numpex, numpey);
      numpex, numpey := numpey, numpex;
    }
    mypex, mypey := PlaceOf(numpe, mype, numpex, numpey);
  }

  method PlaceOf(numpe: nat, mype: nat, numpex: nat, numpey: nat) returns (mypex: nat, mypey: nat)
    requires Factors(numpe, numpex, numpey) && mype < numpe
    ensures mypex < numpex && mypey < numpey && mype == mypey * numpex + mypex
  {
    GridPlace(numpe, mype, numpex, numpey);
    mypex := mype % numpex;
    mypey := mype / numpex;
  }

  /** The best factors for exchanged axes are the exchanged factors. */
  lemma Swapped(numpe: nat, nx: real, ny: real, c: nat, r: nat)
    requires Factors(numpe, c, r)
    requires forall k: nat, q: nat :: Factors(numpe, k, q) ==> LongSide(nx, ny, c, r) <= LongSide(nx, ny, k, q)
    ensures Factors(numpe, r, c) && c > 0 && r > 0
    ensures forall k: nat, q: nat :: Factors(numpe, k, q) ==> LongSide(ny, nx, r, c) <= LongSide(ny, nx, k, q)
  {
    FactorsTurn(numpe, c, r);
    hide LongSide, Factors;
    forall k: nat, q: nat | Factors(numpe, k, q)
      ensures LongSide(ny, nx, r, c) <= LongSide(ny, nx, k, q)
    {
      FactorsTurn(numpe, k, q);
      SideTurn(nx, ny, c, r);
      SideTurn(nx, ny, q, k);
    }
  }

  lemma FactorsTurn(numpe: nat, k: nat, q: nat)
    requires Factors(numpe, k, q)
    ensures Factors(numpe, q, k) && k > 0 && q > 0
  {
  }

  lemma SideTurn(nx: real, ny: real, a: int, b: int)
    requires a > 0 && b > 0
    ensures LongSide(nx, ny, a, b) == LongSide(ny, nx, b, a)
  {
  }

  lemma GridPlace(numpe: nat, mype: nat, numpex: nat, numpey: nat)
    requires Factors(numpe, numpex, numpey) && mype < numpe
    ensures numpex > 0 && mype % numpex < numpex && mype / numpex < numpey
    ensures mype == mype / numpex * numpex + mype % numpex
  {
    var q, r := mype / numpex, mype % numpex;
    assert mype == q * numpex + r;
    if q >= numpey {
      MulMono(numpey, q, numpex);
    }
  }
}
