/** Grids of the bottom solver as vectors of exact reals, with the handful of
    operations the Krylov solvers use. */
module GridVectors {

  type Vec = seq<real>

  // Products are written through these two functions, so that a proof can choose
  // when the solver sees nonlinear arithmetic.

  function Mul(a: real, b: real): real {
    a * b
  }

  function Neg(a: real): real {
    -a
  }

  function Axby(a: real, x: real, b: real, y: real): real {
    a * x + b * y
  }

  /** add_grids: a*x + b*y */
  function Lin(a: real, x: Vec, b: real, y: Vec): (z: Vec)
    requires |x| == |y|
    ensures |z| == |x|
    ensures forall i :: 0 <= i < |x| ==> z[i] == Axby(a, x[i], b, y[i])
  {
    seq(|x|, i requires 0 <= i < |x| => Axby(a, x[i], b, y[i]))
  }

  /** mul_grids with unit scale */
  function Times(x: Vec, y: Vec): (z: Vec)
    requires |x| == |y|
    ensures |z| == |x|
    ensures forall i :: 0 <= i < |x| ==> z[i] == Mul(x[i], y[i])
  {
    seq(|x|, i requires 0 <= i < |x| => Mul(x[i], y[i]))
  }

  function Zero(n: nat): (z: Vec)
    ensures |z| == n && forall i :: 0 <= i < n ==> z[i] == 0.0
  {
    seq(n, i requires 0 <= i < n => 0.0)
  }

  function Dot(x: Vec, y: Vec): real
    requires |x| == |y|
  {
    if x == [] then 0.0 else Mul(x[0], y[0]) + Dot(x[1..], y[1..])
  }

  function Abs(x: real): real {
    if x < 0.0 then -x else x
  }

  /** norm: the largest magnitude */
  function Norm(x: Vec): real {
    if x == [] then 0.0 else if Abs(x[0]) > Norm(x[1..]) then Abs(x[0]) else Norm(x[1..])
  }

  lemma LinTail(a: real, x: Vec, b: real, y: Vec)
    requires |x| == |y| && x != []
    ensures Lin(a, x, b, y)[1..] == Lin(a, x[1..], b, y[1..])
  {
    hide Axby;
    var z, w := Lin(a, x, b, y)[1..], Lin(a, x[1..], b, y[1..]);
    forall i | 0 <= i < |w|
      ensures z[i] == w[i]
    {
      assert x[1..][i] == x[i + 1] && y[1..][i] == y[i + 1];
    }
  }

  lemma Distribute(a: real, x: real, b: real, y: real, z: real)
    ensures Mul(Axby(a, x, b, y), z) == Axby(a, Mul(x, z), b, Mul(y, z))
  {
    assert (a * x + b * y) * z == a * (x * z) + b * (y * z);
  }

  lemma Spread(a: real, u: real, v: real, b: real, s: real, t: real)
    ensures Axby(a, u + v, b, s + t) == Axby(a, u, b, s) + Axby(a, v, b, t)
  {
    assert a * (u + v) == a * u + a * v;
    assert b * (s + t) == b * s + b * t;
  }

  lemma AxbyZero(a: real, b: real)
    ensures Axby(a, 0.0, b, 0.0) == 0.0
  {
  }

  lemma {:induction false} DotLin(a: real, x: Vec, b: real, y: Vec, z: Vec)
    requires |x| == |y| == |z|
    ensures Dot(Lin(a, x, b, y), z) == Axby(a, Dot(x, z), b, Dot(y, z))
  {
    hide Axby, Mul, Lin;
    AxbyZero(a, b);
    if x != [] {
      LinTail(a, x, b, y);
      DotLin(a, x[1..], b, y[1..], z[1..]);
      Distribute(a, x[0], b, y[0], z[0]);
      Spread(a, Mul(x[0], z[0]), Dot(x[1..], z[1..]), b, Mul(y[0], z[0]), Dot(y[1..], z[1..]));
    }
  }

  lemma MulSym(x: real, y: real)
    ensures Mul(x, y) == Mul(y, x)
  {
  }

  lemma {:induction false} DotSym(x: Vec, y: Vec)
    requires |x| == |y|
    ensures Dot(x, y) == Dot(y, x)
  {
    hide Mul;
    if x != [] {
      MulSym(x[0], y[0]);
      DotSym(x[1..], y[1..]);
    }
  }

  lemma {:induction false} DotZero(n: nat, x: Vec)
    requires |x| == n
    ensures Dot(Zero(n), x) == 0.0
  {
    if n > 0 {
      assert Zero(n)[1..] == Zero(n - 1);
      DotZero(n - 1, x[1..]);
    }
  }

  /** apply_op */
  function Apply(A: Vec -> Vec, x: Vec): Vec {
    A(x)
  }

  /** An operator on grids of n points that is linear. */
  ghost predicate Linear(A: Vec -> Vec, n: nat) {
    && (forall x: Vec :: |x| == n ==> |Apply(A, x)| == n)
    && (forall a: real, x: Vec, b: real, y: Vec :: |x| == |y| == n ==>
          Apply(A, Lin(a, x, b, y)) == Lin(a, Apply(A, x), b, Apply(A, y)))
  }

  ghost predicate SelfAdjoint(A: Vec -> Vec, n: nat) {
    forall x: Vec, y: Vec :: |x| == |y| == n && |Apply(A, x)| == |Apply(A, y)| == n ==>
      Dot(Apply(A, x), y) == Dot(x, Apply(A, y))
  }

  lemma LinZeros(n: nat, x: Vec, y: Vec)
    requires |x| == |y| == n
    ensures Lin(0.0, x, 0.0, y) == Zero(n)
  {
  }

  lemma ApplySize(A: Vec -> Vec, n: nat, x: Vec)
    requires Linear(A, n) && |x| == n
    ensures |Apply(A, x)| == n
  {
  }

  lemma ApplyLin(A: Vec -> Vec, n: nat, a: real, x: Vec, b: real, y: Vec)
    requires Linear(A, n) && |x| == |y| == n
    ensures |Apply(A, x)| == |Apply(A, y)| == n
    ensures Apply(A, Lin(a, x, b, y)) == Lin(a, Apply(A, x), b, Apply(A, y))
  {
    hide Apply;
  }

  lemma LinearZero(A: Vec -> Vec, n: nat)
    requires Linear(A, n)
    ensures Apply(A, Zero(n)) == Zero(n)
  {
    hide Apply, Lin, Zero;
    var z := Zero(n);
    LinZeros(n, z, z);
    ApplyLin(A, n, 0.0, z, 0.0, z);
    LinZeros(n, Apply(A, z), Apply(A, z));
  }
}
