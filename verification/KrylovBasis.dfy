/** Computing in coefficient space over a monomial Krylov basis: q + 1 powers of
    one vector followed by q powers of another.  Grid operations become operations
    on short coefficient vectors, products with the operator become a shift of the
    coefficients, and dot products become products with a Gram matrix. */
module KrylovBasis {
  import opened GridVectors

  type Matrix = seq<seq<real>>

  /** n is the grid size, m the number of basis vectors. */
  predicate Family(V: seq<Vec>, n: nat, m: nat) {
    |V| == m && forall i :: 0 <= i < m ==> |V[i]| == n
  }

  /** The combination of the basis vectors from index lo on. */
  ghost function Comb(V: seq<Vec>, c: Vec, n: nat, lo: nat): (v: Vec)
    requires Family(V, n, |c|) && lo <= |c|
    ensures |v| == n
    decreases |c| - lo
  {
    if lo == |c| then Zero(n) else Lin(c[lo], V[lo], 1.0, Comb(V, c, n, lo + 1))
  }

  /** [P,R] c: the grid that a coefficient vector stands for. */
  ghost function Value(V: seq<Vec>, n: nat, c: Vec): (v: Vec)
    requires Family(V, n, |c|)
    ensures |v| == n
  {
    Comb(V, c, n, 0)
  }

  // ----- identities on grids, component by component

  lemma SwapSums(a: real, u: real, x: real, b: real, v: real, y: real, w: real, z: real)
    ensures Axby(Axby(a, u, b, v), w, 1.0, Axby(a, x, b, y)) == Axby(a, Axby(u, w, 1.0, x), b, Axby(v, w, 1.0, y))
  {
    assert (a * u + b * v) * w == a * (u * w) + b * (v * w);
    assert a * (u * w + x) == a * (u * w) + a * x;
    assert b * (v * w + y) == b * (v * w) + b * y;
  }

  lemma LinSwap(a: real, u: real, x: Vec, b: real, v: real, y: Vec, w: Vec)
    requires |x| == |y| == |w|
    ensures Lin(Axby(a, u, b, v), w, 1.0, Lin(a, x, b, y)) == Lin(a, Lin(u, w, 1.0, x), b, Lin(v, w, 1.0, y))
  {
    var left, right := Lin(Axby(a, u, b, v), w, 1.0, Lin(a, x, b, y)), Lin(a, Lin(u, w, 1.0, x), b, Lin(v, w, 1.0, y));
    hide Axby, Lin;
    forall i | 0 <= i < |w|
      ensures left[i] == right[i]
    {
      SwapSums(a, u, x[i], b, v, y[i], w[i], 0.0);
    }
  }

  lemma LinZeroFirst(x: Vec, y: Vec)
    requires |x| == |y|
    ensures Lin(0.0, x, 1.0, y) == y
    ensures Lin(1.0, y, 0.0, x) == y
  {
  }

  lemma LinZeroZero(a: real, b: real, n: nat)
    ensures Lin(a, Zero(n), b, Zero(n)) == Zero(n)
  {
  }

  lemma LinOneZero(x: Vec)
    ensures Lin(1.0, x, 1.0, Zero(|x|)) == x
  {
  }

  lemma LinRegroup(x: Vec, c: real, v: Vec, w: Vec)
    requires |x| == |v| == |w|
    ensures Lin(1.0, x, 1.0, Lin(c, v, 1.0, w)) == Lin(1.0, Lin(1.0, x, c, v), 1.0, w)
  {
    var left, right := Lin(1.0, x, 1.0, Lin(c, v, 1.0, w)), Lin(1.0, Lin(1.0, x, c, v), 1.0, w);
    hide Axby, Lin;
    forall i | 0 <= i < |x|
      ensures left[i] == right[i]
    {
      RegroupAt(x[i], c, v[i], w[i]);
    }
  }

  lemma RegroupAt(x: real, c: real, v: real, w: real)
    ensures Axby(1.0, x, 1.0, Axby(c, v, 1.0, w)) == Axby(1.0, Axby(1.0, x, c, v), 1.0, w)
  {
  }

  lemma LinMove(x: Vec, u: Vec, a: real, v: Vec)
    requires |x| == |u| == |v|
    ensures Lin(1.0, x, 1.0, Lin(1.0, u, a, v)) == Lin(1.0, Lin(1.0, x, 1.0, u), a, v)
  {
    var left, right := Lin(1.0, x, 1.0, Lin(1.0, u, a, v)), Lin(1.0, Lin(1.0, x, 1.0, u), a, v);
    hide Axby, Lin;
    forall i | 0 <= i < |x|
      ensures left[i] == right[i]
    {
      MoveAt(x[i], u[i], a, v[i]);
    }
  }

  lemma MoveAt(x: real, u: real, a: real, v: real)
    ensures Axby(1.0, x, 1.0, Axby(1.0, u, a, v)) == Axby(1.0, Axby(1.0, x, 1.0, u), a, v)
  {
  }

  // ----- combinations are linear in their coefficients

  lemma {:induction false} CombLin(V: seq<Vec>, n: nat, a: real, c: Vec, b: real, e: Vec, lo: nat)
    requires |c| == |e| && Family(V, n, |c|) && lo <= |c|
    ensures Comb(V, Lin(a, c, b, e), n, lo) == Lin(a, Comb(V, c, n, lo), b, Comb(V, e, n, lo))
    decreases |c| - lo
  {
    hide Axby, Lin;
    if lo == |c| {
      LinZeroZero(a, b, n);
    } else {
      CombLin(V, n, a, c, b, e, lo + 1);
      LinSwap(a, c[lo], Comb(V, c, n, lo + 1), b, e[lo], Comb(V, e, n, lo + 1), V[lo]);
    }
  }

  function Unit(m: nat, j: nat): (u: Vec)
    ensures |u| == m && forall i :: 0 <= i < m ==> u[i] == if i == j then 1.0 else 0.0
  {
    seq(m, i requires 0 <= i < m => if i == j then 1.0 else 0.0)
  }

  lemma {:induction false} CombOfZeros(V: seq<Vec>, c: Vec, n: nat, lo: nat)
    requires Family(V, n, |c|) && lo <= |c| && forall i :: lo <= i < |c| ==> c[i] == 0.0
    ensures Comb(V, c, n, lo) == Zero(n)
    decreases |c| - lo
  {
    if lo < |c| {
      CombOfZeros(V, c, n, lo + 1);
      LinZeroFirst(V[lo], Zero(n));
    }
  }

  lemma {:induction false} CombUnit(V: seq<Vec>, n: nat, m: nat, j: nat, lo: nat)
    requires Family(V, n, m) && lo <= j < m
    ensures Comb(V, Unit(m, j), n, lo) == V[j]
    decreases m - lo
  {
    var u := Unit(m, j);
    if lo == j {
      CombOfZeros(V, u, n, lo + 1);
      LinOneZeroRight(V[j], n);
    } else {
      CombUnit(V, n, m, j, lo + 1);
      LinZeroFirst(V[lo], V[j]);
    }
  }

  lemma LinOneZeroRight(x: Vec, n: nat)
    requires |x| == n
    ensures Lin(1.0, x, 1.0, Zero(n)) == x
  {
  }

  lemma ValueLin(V: seq<Vec>, n: nat, a: real, c: Vec, b: real, e: Vec)
    requires |c| == |e| && Family(V, n, |c|)
    ensures Value(V, n, Lin(a, c, b, e)) == Lin(a, Value(V, n, c), b, Value(V, n, e))
  {
    hide Axby, Lin;
    CombLin(V, n, a, c, b, e, 0);
  }

  lemma ValueStart(V: seq<Vec>, n: nat, m: nat, j: nat)
    requires Family(V, n, m) && j < m
    ensures Value(V, n, Unit(m, j)) == V[j]
    ensures Value(V, n, Zero(m)) == Zero(n)
  {
    hide Lin;
    CombUnit(V, n, m, j, 0);
    CombOfZeros(V, Zero(m), n, 0);
  }

  // ----- dot products through the basis

  /** g_i = V_i . w */
  function DotWith(V: seq<Vec>, n: nat, w: Vec): (g: Vec)
    requires Family(V, n, |V|) && |w| == n
    ensures |g| == |V| && forall i :: 0 <= i < |V| ==> g[i] == Dot(V[i], w)
  {
    seq(|V|, i requires 0 <= i < |V| => Dot(V[i], w))
  }

  lemma {:induction false} DotComb(V: seq<Vec>, c: Vec, n: nat, w: Vec, lo: nat)
    requires Family(V, n, |c|) && lo <= |c| && |w| == n
    ensures Dot(DotWith(V, n, w)[lo..], c[lo..]) == Dot(Comb(V, c, n, lo), w)
    decreases |c| - lo
  {
    hide Axby, Mul, Lin;
    if lo == |c| {
      DotZero(n, w);
    } else {
      var g := DotWith(V, n, w);
      DotComb(V, c, n, w, lo + 1);
      assert g[lo..][1..] == g[lo + 1..] && c[lo..][1..] == c[lo + 1..];
      assert Dot(g[lo..], c[lo..]) == Mul(g[lo], c[lo]) + Dot(g[lo + 1..], c[lo + 1..]);
      DotLin(c[lo], V[lo], 1.0, Comb(V, c, n, lo + 1), w);
      MulAxby(c[lo], g[lo], Dot(Comb(V, c, n, lo + 1), w));
    }
  }

  lemma MulAxby(a: real, b: real, z: real)
    ensures Mul(b, a) + z == Axby(a, b, 1.0, z)
  {
  }

  /** The product of the coefficients with g is the grid product. */
  lemma DotThroughBasis(V: seq<Vec>, c: Vec, n: nat, w: Vec)
    requires Family(V, n, |c|) && |w| == n
    ensures Dot(DotWith(V, n, w), c) == Dot(Value(V, n, c), w)
  {
    DotComb(V, c, n, w, 0);
    var g := DotWith(V, n, w);
    assert g[0..] == g && c[0..] == c;
  }

  /** __gemv with unit scale: one dot product per row. */
  function MatVec(M: Matrix, c: Vec): (z: Vec)
    requires forall i :: 0 <= i < |M| ==> |M[i]| == |c|
    ensures |z| == |M| && forall i :: 0 <= i < |M| ==> z[i] == Dot(M[i], c)
  {
    seq(|M|, i requires 0 <= i < |M| => Dot(M[i], c))
  }

  /** matmul_grids: the Gram matrix of the basis. */
  function Gram(V: seq<Vec>, n: nat): (G: Matrix)
    requires Family(V, n, |V|)
    ensures |G| == |V| && forall i :: 0 <= i < |V| ==> |G[i]| == |V|
    ensures forall i, j :: 0 <= i < |V| && 0 <= j < |V| ==> G[i][j] == Dot(V[i], V[j])
  {
    seq(|V|, i requires 0 <= i < |V| => seq(|V|, j requires 0 <= j < |V| => Dot(V[i], V[j])))
  }

  /** G c */
  function GramTimes(V: seq<Vec>, n: nat, c: Vec): (z: Vec)
    requires Family(V, n, |c|)
    ensures |z| == |c|
  {
    MatVec(Gram(V, n), c)
  }

  /** Products with the Gram matrix are products of grids. */
  lemma GramProduct(V: seq<Vec>, n: nat, d: Vec, c: Vec)
    requires |d| == |c| && Family(V, n, |c|)
    ensures Dot(d, GramTimes(V, n, c)) == Dot(Value(V, n, d), Value(V, n, c))
  {
    var v := Value(V, n, c);
    var gc := GramTimes(V, n, c);
    hide Comb, Dot;
    forall i | 0 <= i < |c|
      ensures gc[i] == Dot(V[i], v)
    {
      assert Gram(V, n)[i] == DotWith(V, n, V[i]) by {
        forall j | 0 <= j < |V|
          ensures Gram(V, n)[i][j] == DotWith(V, n, V[i])[j]
        {
          DotSym(V[i], V[j]);
        }
      }
      DotThroughBasis(V, c, n, V[i]);
      DotSym(v, V[i]);
    }
    assert gc == DotWith(V, n, v);
    DotThroughBasis(V, d, n, v);
    DotSym(d, gc);
  }

  // ----- the operator as a shift

  /** Columns whose power is in the basis: all but the last of each block. */
  predicate HasShift(q: nat, j: int) {
    0 <= j < q || q + 1 <= j < 2 * q
  }

  /** T': the (j + 1, j) entries of the columns that have a successor. */
  function ShiftMatrix(q: nat): (T: Matrix)
    ensures |T| == 2 * q + 1 && forall i :: 0 <= i < |T| ==> |T[i]| == 2 * q + 1
    ensures forall i, j :: 0 <= i < 2 * q + 1 && 0 <= j < 2 * q + 1 ==>
              T[i][j] == if i == j + 1 && HasShift(q, j) then 1.0 else 0.0
  {
    seq(2 * q + 1, i requires 0 <= i < 2 * q + 1 =>
      seq(2 * q + 1, j requires 0 <= j < 2 * q + 1 => if i == j + 1 && HasShift(q, j) then 1.0 else 0.0))
  }

  /** T'': the (j + 2, j) entries of the columns that have two. */
  function DoubleShiftMatrix(q: nat): (T: Matrix)
    ensures |T| == 2 * q + 1 && forall i :: 0 <= i < |T| ==> |T[i]| == 2 * q + 1
    ensures forall i, j :: 0 <= i < 2 * q + 1 && 0 <= j < 2 * q + 1 ==>
              T[i][j] == if i == j + 2 && (j < q - 1 || q + 1 <= j < 2 * q - 1) then 1.0 else 0.0
  {
    seq(2 * q + 1, i requires 0 <= i < 2 * q + 1 =>
      seq(2 * q + 1, j requires 0 <= j < 2 * q + 1 =>
        if i == j + 2 && (j < q - 1 || q + 1 <= j < 2 * q - 1) then 1.0 else 0.0))
  }

  lemma {:induction false} DotUnit(u: Vec, c: Vec, j: int)
    requires |u| == |c|
    requires forall i :: 0 <= i < |u| ==> u[i] == if i == j then 1.0 else 0.0
    ensures Dot(u, c) == if 0 <= j < |c| then c[j] else 0.0
  {
    if u != [] {
      DotUnit(u[1..], c[1..], j - 1);
      MulUnit(c[0]);
      hide Mul;
    }
  }

  lemma MulUnit(x: real)
    ensures Mul(1.0, x) == x && Mul(0.0, x) == 0.0
  {
  }

  lemma ShiftEntries(q: nat, c: Vec)
    requires |c| == 2 * q + 1
    ensures forall i :: 0 <= i < 2 * q + 1 ==>
              MatVec(ShiftMatrix(q), c)[i] == if HasShift(q, i - 1) then c[i - 1] else 0.0
  {
    hide Dot;
    var T := ShiftMatrix(q);
    forall i | 0 <= i < 2 * q + 1
      ensures MatVec(T, c)[i] == if HasShift(q, i - 1) then c[i - 1] else 0.0
    {
      DotUnit(T[i], c, if HasShift(q, i - 1) then i - 1 else -1);
    }
  }

  /** T' c */
  function Shift(q: nat, c: Vec): (t: Vec)
    requires |c| == 2 * q + 1
    ensures |t| == 2 * q + 1
  {
    MatVec(ShiftMatrix(q), c)
  }

  /** T'' c */
  function ShiftTwo(q: nat, c: Vec): (t: Vec)
    requires |c| == 2 * q + 1
    ensures |t| == 2 * q + 1
  {
    MatVec(DoubleShiftMatrix(q), c)
  }

  /** T'' is T' applied twice. */
  lemma DoubleShift(q: nat, c: Vec)
    requires |c| == 2 * q + 1
    ensures ShiftTwo(q, c) == Shift(q, Shift(q, c))
  {
    hide Dot;
    var T := DoubleShiftMatrix(q);
    ShiftEntries(q, c);
    ShiftEntries(q, Shift(q, c));
    forall i | 0 <= i < 2 * q + 1
      ensures MatVec(T, c)[i] == if HasShift(q, i - 1) && HasShift(q, i - 2) then c[i - 2] else 0.0
    {
      DotUnit(T[i], c, if HasShift(q, i - 1) && HasShift(q, i - 2) then i - 2 else -1);
    }
  }

  /** The basis: q + 1 powers of p, then q powers of r. */
  ghost predicate Powers(M: Vec -> Vec, n: nat, V: seq<Vec>, q: nat, p: Vec, r: Vec) {
    && q >= 1 && Family(V, n, 2 * q + 1)
    && V[0] == p && V[q + 1] == r
    && forall j :: 0 <= j < 2 * q && HasShift(q, j) ==> V[j + 1] == Apply(M, V[j])
  }

  /** No coefficient on a basis vector whose successor is missing. */
  predicate Shiftable(q: nat, c: Vec) {
    |c| == 2 * q + 1 && c[q] == 0.0 && c[2 * q] == 0.0
  }

  /** One basis vector moves to its successor, or carries no weight. */
  lemma ShiftOne(M: Vec -> Vec, n: nat, c: real, v: Vec, tc: real, next: Vec, rest: Vec, moved: Vec)
    requires Linear(M, n) && |v| == |rest| == |next| == |moved| == n
    requires Apply(M, rest) == moved
    requires (tc == c && next == Apply(M, v)) || (tc == 0.0 && c == 0.0)
    ensures Apply(M, Lin(c, v, 1.0, rest)) == Lin(tc, next, 1.0, moved)
  {
    hide Axby, Lin, Apply, Linear;
    ApplyLin(M, n, c, v, 1.0, rest);
    if tc == 0.0 && c == 0.0 {
      LinZeroFirst(Apply(M, v), moved);
      LinZeroFirst(next, moved);
    }
  }

  lemma ShiftAt(q: nat, c: Vec, i: nat)
    requires |c| == 2 * q + 1 && i < 2 * q + 1
    ensures Shift(q, c)[i] == if HasShift(q, i - 1) then c[i - 1] else 0.0
  {
    ShiftEntries(q, c);
    hide Dot;
  }

  lemma {:induction false} ShiftFrom(M: Vec -> Vec, n: nat, V: seq<Vec>, q: nat, p: Vec, r: Vec, c: Vec, lo: nat)
    requires Linear(M, n) && Powers(M, n, V, q, p, r) && Shiftable(q, c) && lo <= 2 * q
    ensures Apply(M, Comb(V, c, n, lo)) == Comb(V, Shift(q, c), n, lo + 1)
    decreases 2 * q - lo
  {
    hide Axby, Lin, Apply, Linear, Dot, MatVec, Shift;
    var tc := Shift(q, c);
    if lo == 2 * q {
      CombOfZeros(V, c, n, lo);
      LinearZero(M, n);
    } else {
      ShiftAt(q, c, lo + 1);
      ShiftFrom(M, n, V, q, p, r, c, lo + 1);
      ShiftOne(M, n, c[lo], V[lo], tc[lo + 1], V[lo + 1], Comb(V, c, n, lo + 1), Comb(V, tc, n, lo + 2));
    }
  }

  /** T' acts as the operator on shiftable coefficients. */
  lemma ShiftIsOperator(M: Vec -> Vec, n: nat, V: seq<Vec>, q: nat, p: Vec, r: Vec, c: Vec)
    requires Linear(M, n) && Powers(M, n, V, q, p, r) && Shiftable(q, c)
    ensures Value(V, n, Shift(q, c)) == Apply(M, Value(V, n, c))
  {
    hide Axby, Lin, Apply, Linear, Dot, MatVec, Shift;
    var tc := Shift(q, c);
    ShiftAt(q, c, 0);
    ShiftFrom(M, n, V, q, p, r, c, 0);
    LinZeroFirst(V[0], Comb(V, tc, n, 1));
  }

  // ----- which powers a coefficient vector reaches

  /** Only powers 0..dp of the first vector and 0..dr of the second; dr may be -1. */
  predicate Reach(q: nat, c: Vec, dp: int, dr: int) {
    && |c| == 2 * q + 1
    && (forall i :: 0 <= i <= q && i > dp ==> c[i] == 0.0)
    && (forall i :: q + 1 <= i <= 2 * q && i > q + 1 + dr ==> c[i] == 0.0)
  }

  lemma ReachLin(q: nat, a: real, c: Vec, b: real, e: Vec, dp: int, dr: int)
    requires Reach(q, c, dp, dr) && Reach(q, e, dp, dr)
    ensures Reach(q, Lin(a, c, b, e), dp, dr)
  {
    AxbyZero(a, b);
    hide Axby;
  }

  lemma ReachShift(q: nat, c: Vec, dp: int, dr: int)
    requires Reach(q, c, dp, dr) && dp >= -1 && dr >= -1
    ensures Reach(q, Shift(q, c), dp + 1, dr + 1)
  {
    ShiftEntries(q, c);
    hide Shift;
  }

  lemma ReachMore(q: nat, c: Vec, dp: int, dr: int, ep: int, er: int)
    requires Reach(q, c, dp, dr) && dp <= ep && dr <= er
    ensures Reach(q, c, ep, er)
  {
  }

  lemma ReachShiftable(q: nat, c: Vec, dp: int, dr: int)
    requires q >= 1 && Reach(q, c, dp, dr) && dp < q && dr < q - 1
    ensures Shiftable(q, c)
  {
  }

  // ----- what the communication-avoiding solvers compute with

  lemma MatricesGive(V: seq<Vec>, n: nat, q: nat, c: Vec)
    requires |c| == 2 * q + 1 && Family(V, n, 2 * q + 1)
    ensures |ShiftMatrix(q)| == |DoubleShiftMatrix(q)| == |Gram(V, n)| == 2 * q + 1
    ensures forall i :: 0 <= i < 2 * q + 1 ==> |ShiftMatrix(q)[i]| == |c|
    ensures forall i :: 0 <= i < 2 * q + 1 ==> |DoubleShiftMatrix(q)[i]| == |c|
    ensures forall i :: 0 <= i < 2 * q + 1 ==> |Gram(V, n)[i]| == |c|
    ensures MatVec(ShiftMatrix(q), c) == Shift(q, c)
    ensures MatVec(DoubleShiftMatrix(q), c) == ShiftTwo(q, c)
    ensures MatVec(Gram(V, n), c) == GramTimes(V, n, c)
  {
    hide Dot;
  }

  /** sqrt, as a function the solver is given: results are only ever compared. */
  function Sqrt(root: real -> real, square: real): real {
    root(square)
  }

  /** The norm from its square, which rounding could make negative. */
  function L2(root: real -> real, square: real): real {
    if square > 0.0 then Sqrt(root, square) else 0.0
  }

  /** The powers of two grids, one application of the operator at a time. */
  method MakeBasis(M: Vec -> Vec, n: nat, q: nat, p: Vec, r: Vec) returns (V: seq<Vec>)
    requires Linear(M, n) && |p| == |r| == n && q >= 1
    ensures Powers(M, n, V, q, p, r)
  {
    hide Apply, Linear;
    V := [p];
    var i := 1;
    while i < q + 1
      invariant 1 <= i <= q + 1 && Family(V, n, i) && V[0] == p
      invariant forall j :: 0 <= j < i - 1 ==> V[j + 1] == Apply(M, V[j])
    {
      ApplySize(M, n, V[i - 1]);
      V := V + [Apply(M, V[i - 1])];
      i := i + 1;
    }
    V := V + [r];
    i := 1;
    while i < q
      invariant 1 <= i <= q && Family(V, n, q + 1 + i) && V[0] == p && V[q + 1] == r
      invariant forall j :: 0 <= j < q + i && j != q ==> V[j + 1] == Apply(M, V[j])
    {
      ApplySize(M, n, V[q + i]);
      V := V + [Apply(M, V[q + i])];
      i := i + 1;
    }
  }

  /** x + [P,R] c, one basis grid at a time. */
  method AddCombination(V: seq<Vec>, n: nat, c: Vec, x: Vec) returns (z: Vec)
    requires Family(V, n, |c|) && |x| == n
    ensures |z| == n && z == Lin(1.0, x, 1.0, Value(V, n, c))
  {
    hide Lin;
    z := x;
    var i := 0;
    while i < |c|
      invariant 0 <= i <= |c| && |z| == n
      invariant Lin(1.0, z, 1.0, Comb(V, c, n, i)) == Lin(1.0, x, 1.0, Value(V, n, c))
    {
      LinRegroup(z, c[i], V[i], Comb(V, c, n, i + 1));
      z := Lin(1.0, z, c[i], V[i]);
      i := i + 1;
    }
    LinOneZero(z);
  }

  /** [P,R] c, the first term overwriting the grid. */
  method Combine(V: seq<Vec>, n: nat, c: Vec, was: Vec) returns (z: Vec)
    requires Family(V, n, |c|) && |was| == n && |c| > 0
    ensures z == Value(V, n, c)
  {
    hide Lin;
    z := Lin(0.0, was, c[0], V[0]);
    FirstTerm(was, c[0], V[0], Comb(V, c, n, 1));
    var i := 1;
    while i < |c|
      invariant 1 <= i <= |c| && |z| == n
      invariant Lin(1.0, z, 1.0, Comb(V, c, n, i)) == Value(V, n, c)
    {
      LinRegroup(z, c[i], V[i], Comb(V, c, n, i + 1));
      z := Lin(1.0, z, c[i], V[i]);
      i := i + 1;
    }
    LinOneZero(z);
  }

  lemma FirstTerm(was: Vec, c: real, v: Vec, w: Vec)
    requires |was| == |v| == |w|
    ensures Lin(1.0, Lin(0.0, was, c, v), 1.0, w) == Lin(c, v, 1.0, w)
  {
    var left, right := Lin(1.0, Lin(0.0, was, c, v), 1.0, w), Lin(c, v, 1.0, w);
    hide Axby, Lin;
    forall i | 0 <= i < |w|
      ensures left[i] == right[i]
    {
      FirstAt(was[i], c, v[i], w[i]);
    }
  }

  lemma FirstAt(was: real, c: real, v: real, w: real)
    ensures Axby(1.0, Axby(0.0, was, c, v), 1.0, w) == Axby(c, v, 1.0, w)
  {
  }
}
