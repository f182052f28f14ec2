/** The conjugate gradient solver of the bottom level, in exact arithmetic: its
    sequence of iterates, the loop that computes them, and the orthogonality that
    the method is built on. */
module ConjugateGradient {
  import opened GridVectors
  import opened SolverRuns

  /** The linear system: an operator on grids of n points, a right-hand side and an
      initial guess. */
  datatype System = System(n: nat, A: Vec -> Vec, b: Vec, x0: Vec)

  ghost predicate ValidSystem(y: System) {
    Linear(y.A, y.n) && |y.b| == y.n && |y.x0| == y.n
  }

  datatype CgState = CgState(x: Vec, r: Vec, p: Vec)

  /** Division as the solver uses it, after testing its divisor. */
  function Quot(a: real, b: real): real {
    if b == 0.0 then 0.0 else a / b
  }

  lemma QuotTimes(a: real, b: real)
    requires b != 0.0
    ensures Mul(Quot(a, b), b) == a
    ensures a != 0.0 ==> Quot(a, b) != 0.0
  {
  }

  function Residual(A: Vec -> Vec, b: Vec, x: Vec): Vec
    requires |Apply(A, x)| == |b|
  {
    Lin(1.0, b, -1.0, Apply(A, x))
  }

  /** Shape of a state of the iteration. */
  ghost predicate Sized(n: nat, s: CgState) {
    |s.x| == n && |s.r| == n && |s.p| == n
  }

  ghost function CgAlpha(A: Vec -> Vec, n: nat, s: CgState): real
    requires Linear(A, n) && Sized(n, s)
  {
    Quot(Dot(s.r, s.r), Dot(Apply(A, s.p), s.p))
  }

  ghost function CgBeta(A: Vec -> Vec, n: nat, s: CgState): real
    requires Linear(A, n) && Sized(n, s)
  {
    var r := Lin(1.0, s.r, Neg(CgAlpha(A, n, s)), Apply(A, s.p));
    Quot(Dot(r, r), Dot(s.r, s.r))
  }

  /** One iteration without its stopping tests (Saad, Algorithm 6.18). */
  ghost function CgNext(A: Vec -> Vec, n: nat, s: CgState): (t: CgState)
    requires Linear(A, n) && Sized(n, s)
    ensures Sized(n, t)
  {
    var alpha := CgAlpha(A, n, s);
    var r := Lin(1.0, s.r, Neg(alpha), Apply(A, s.p));
    CgState(Lin(1.0, s.x, alpha, s.p), r, Lin(1.0, r, CgBeta(A, n, s), s.p))
  }

  ghost function Cg(y: System, k: nat): (s: CgState)
    requires ValidSystem(y)
    ensures Sized(y.n, s)
  {
    if k == 0 then
      var r := Residual(y.A, y.b, y.x0);
      CgState(y.x0, r, r)
    else
      CgNext(y.A, y.n, Cg(y, k - 1))
  }

  /** Neither divisor of step j vanishes. */
  ghost predicate CgSound(y: System, j: nat)
    requires ValidSystem(y)
  {
    var s := Cg(y, j);
    Dot(Apply(y.A, s.p), s.p) != 0.0 && Dot(s.r, s.r) != 0.0
  }

  ghost predicate CgSoundUpTo(y: System, k: nat)
    requires ValidSystem(y)
  {
    forall j {:trigger CgSound(y, j)} :: 0 <= j < k ==> CgSound(y, j)
  }

  const JMAX: nat := 200

  lemma CgUnfold(y: System, k: nat)
    requires ValidSystem(y)
    ensures Cg(y, k + 1) == CgNext(y.A, y.n, Cg(y, k))
  {
  }

  /** The update the loop makes from state s, when its divisor is not zero. */
  lemma CgStep(y: System, k: nat, s: CgState, ApDotP: real, alpha: real, r: Vec, beta: real)
    requires ValidSystem(y) && Cg(y, k) == s && |Apply(y.A, s.p)| == y.n == |r|
    requires ApDotP == Dot(Apply(y.A, s.p), s.p) && alpha == Quot(Dot(s.r, s.r), ApDotP)
    requires r == Lin(1.0, s.r, Neg(alpha), Apply(y.A, s.p)) && beta == Quot(Dot(r, r), Dot(s.r, s.r))
    ensures Cg(y, k + 1) == CgState(Lin(1.0, s.x, alpha, s.p), r, Lin(1.0, r, beta, s.p))
  {
    CgUnfold(y, k);
    hide Dot, Lin, Quot;
  }

  lemma CgSoundExtend(y: System, k: nat)
    requires ValidSystem(y) && CgSoundUpTo(y, k)
    requires Dot(Apply(y.A, Cg(y, k).p), Cg(y, k).p) != 0.0 && Dot(Cg(y, k).r, Cg(y, k).r) != 0.0
    ensures CgSoundUpTo(y, k + 1)
  {
    assert CgSound(y, k);
    hide CgSound;
  }

  /** What one pass through the loop establishes once its divisor is not zero. */
  lemma CgUpdate(y: System, k: nat, x: Vec, r: Vec, p: Vec)
    requires ValidSystem(y) && CgSoundUpTo(y, k) && Cg(y, k) == CgState(x, r, p)
    requires |x| == |r| == |p| == |Apply(y.A, p)| == y.n
    requires Dot(Apply(y.A, p), p) != 0.0 && Dot(r, r) != 0.0
    ensures CgSoundUpTo(y, k + 1)
    ensures var alpha := Quot(Dot(r, r), Dot(Apply(y.A, p), p));
            var next := Lin(1.0, r, Neg(alpha), Apply(y.A, p));
            Cg(y, k + 1) == CgState(Lin(1.0, x, alpha, p), next, Lin(1.0, next, Quot(Dot(next, next), Dot(r, r)), p))
  {
    hide *;
    var alpha := Quot(Dot(r, r), Dot(Apply(y.A, p), p));
    var next := Lin(1.0, r, Neg(alpha), Apply(y.A, p));
    CgStep(y, k, CgState(x, r, p), Dot(Apply(y.A, p), p), alpha, next, Quot(Dot(next, next), Dot(r, r)));
    CgSoundExtend(y, k);
  }

  /** Why the loop stops with a given state. */
  ghost predicate CgStopped(y: System, reduction: real, updates: nat, outcome: Outcome)
    requires ValidSystem(y)
  {
    var s := Cg(y, updates);
    match outcome
    case OutOfIterations => updates == JMAX
    case Converged => Norm(s.r) == 0.0 || Norm(s.r) < Mul(reduction, Norm(Cg(y, 0).r))
    case Failed => Dot(Apply(y.A, s.p), s.p) == 0.0 || Dot(s.r, s.r) == 0.0
  }

  lemma StoppedNow(y: System, reduction: real, updates: nat, outcome: Outcome, r: Vec, p: Vec)
    requires ValidSystem(y) && Cg(y, updates).r == r && |p| == y.n && |Apply(y.A, p)| == y.n
    requires match outcome
             case OutOfIterations => updates == JMAX
             case Converged => Norm(r) == 0.0 || Norm(r) < Mul(reduction, Norm(Cg(y, 0).r))
             case Failed => (p == Cg(y, updates).p && Dot(Apply(y.A, p), p) == 0.0) || Dot(r, r) == 0.0
    ensures CgStopped(y, reduction, updates, outcome)
  {
    hide Cg, Norm, Mul, Dot, Apply, Linear;
  }

  ghost predicate CgSmall(y: System, reduction: real, k: nat)
    requires ValidSystem(y)
  {
    Norm(Cg(y, k).r) == 0.0 || Norm(Cg(y, k).r) < Mul(reduction, Norm(Cg(y, 0).r))
  }

  /** The tests of the update from iterate k, in their order. */
  ghost function CgTest(y: System, reduction: real, k: nat): Stop
    requires ValidSystem(y)
  {
    if Dot(AP(y, k), P(y, k)) == 0.0 then Stop(k, false, Failed)
    else if CgSmall(y, reduction, k + 1) then Stop(k + 1, false, Converged)
    else if Dot(R(y, k + 1), R(y, k + 1)) == 0.0 then Stop(k + 1, false, Failed)
    else Stop(k + 1, false, OutOfIterations)
  }

  ghost function CgTests(y: System, reduction: real): nat -> Stop
    requires ValidSystem(y)
  {
    (k: nat) => CgTest(y, reduction, k)
  }

  lemma CgTestIs(y: System, reduction: real, k: nat, x: Vec, r: Vec, p: Vec)
    requires ValidSystem(y) && Cg(y, k) == CgState(x, r, p) && |Apply(y.A, p)| == |p| == y.n
    ensures Dot(Apply(y.A, p), p) == 0.0 ==> CgTests(y, reduction)(k) == Stop(k, false, Failed)
    ensures Dot(Apply(y.A, p), p) != 0.0 ==>
              CgTests(y, reduction)(k) ==
              var next := Cg(y, k + 1).r;
              if Norm(next) == 0.0 || Norm(next) < Mul(reduction, Norm(Cg(y, 0).r)) then Stop(k + 1, false, Converged)
              else if Dot(next, next) == 0.0 then Stop(k + 1, false, Failed)
              else Stop(k + 1, false, OutOfIterations)
  {
    hide Cg, Norm, Mul, Dot, Apply, Linear;
  }

  lemma CgStart(y: System)
    requires ValidSystem(y)
    ensures |Apply(y.A, y.x0)| == |y.b| == |y.x0| == y.n
    ensures var r := Residual(y.A, y.b, y.x0);
            Cg(y, 0) == CgState(y.x0, r, r) && |r| == y.n && (Dot(r, r) == 0.0 ==> Norm(r) == 0.0)
    ensures CgSoundUpTo(y, 0)
  {
    ZeroNorm(Residual(y.A, y.b, y.x0));
  }

  /** CG.  The result is the iterate after the number of updates made; the updates
      never divided by zero; and it stops where the first of its tests fires.  The infinity
      tests of the original cannot succeed in exact arithmetic. */
  method CG(y: System, reduction: real) returns (x: Vec, r: Vec, updates: nat, outcome: Outcome)
    requires ValidSystem(y)
    ensures updates <= JMAX
    ensures CgSoundUpTo(y, updates)
    ensures x == Cg(y, updates).x && r == Cg(y, updates).r
    ensures CgStopped(y, reduction, updates, outcome)
    ensures Stop(updates, false, outcome) == Run(CgTests(y, reduction), Norm(R(y, 0)) == 0.0, JMAX)
  {
    hide *;
    FirstResidual(y);
    ghost var step, done := CgTests(y, reduction), Norm(R(y, 0)) == 0.0;
    CgStart(y);
    x := y.x0;
    r := Residual(y.A, y.b, y.x0);
    var p := r;
    var normOfR0 := Norm(r);
    var rDotR := Dot(r, r);
    updates := 0;
    outcome := OutOfIterations;
    SizeOf(y, p);
    if normOfR0 == 0.0 {
      outcome := Converged;
      StoppedNow(y, reduction, 0, outcome, r, p);
    }
    SoFarStarts(step, done, JMAX);
    while updates < JMAX && outcome == OutOfIterations
      invariant updates <= JMAX
      invariant CgSoundUpTo(y, updates)
      invariant Cg(y, updates).x == x && Cg(y, updates).r == r && |x| == |r| == |p| == y.n
      invariant outcome == OutOfIterations ==> Cg(y, updates).p == p && rDotR == Dot(r, r) && rDotR != 0.0
      invariant outcome != OutOfIterations ==> CgStopped(y, reduction, updates, outcome)
      invariant normOfR0 == Norm(Cg(y, 0).r)
      invariant SoFar(step, done, updates, JMAX, Stop(updates, false, outcome))
      decreases JMAX - updates, outcome == OutOfIterations
    {
      SizeOf(y, p);
      ghost var k := updates;
      CgTestIs(y, reduction, k, x, r, p);
      var Ap := Apply(y.A, p);
      var ApDotP := Dot(Ap, p);
      if ApDotP == 0.0 {
        outcome := Failed;
      } else {
        CgUpdate(y, updates, x, r, p);
        var alpha := Quot(rDotR, ApDotP);
        x := Lin(1.0, x, alpha, p);
        r := Lin(1.0, r, Neg(alpha), Ap);
        updates := updates + 1;
        var normOfR := Norm(r);
        var rDotRNew := Dot(r, r);
        if normOfR == 0.0 || normOfR < Mul(reduction, normOfR0) {
          outcome := Converged;
        } else if rDotRNew == 0.0 {
          outcome := Failed;
        } else {
          var beta := Quot(rDotRNew, rDotR);
          p := Lin(1.0, r, beta, p);
          rDotR := rDotRNew;
        }
      }
      if outcome != OutOfIterations {
        StoppedNow(y, reduction, updates, outcome, r, p);
      }
      OneMore(step, done, k, JMAX, Stop(updates, false, outcome));
    }
    SoFarEnds(step, done, updates, JMAX, Stop(updates, false, outcome));
    if outcome == OutOfIterations {
      SizeOf(y, p);
      StoppedNow(y, reduction, updates, outcome, r, p);
    }
  }

  lemma FirstResidual(y: System)
    requires ValidSystem(y)
    ensures R(y, 0) == Cg(y, 0).r
  {
  }

  lemma SizeOf(y: System, v: Vec)
    requires ValidSystem(y) && |v| == y.n
    ensures |Apply(y.A, v)| == y.n
  {
  }

  lemma PositiveProduct(x: real, y: real)
    requires x > 0.0 && y > 0.0
    ensures Mul(x, y) > 0.0
  {
  }

  lemma NegateSquare(x: real)
    ensures Mul(x, x) == Mul(-x, -x)
  {
  }

  lemma SquareZero(x: real)
    ensures Mul(x, x) >= 0.0
    ensures Mul(x, x) == 0.0 ==> x == 0.0
  {
    NegateSquare(x);
    if x > 0.0 {
      PositiveProduct(x, x);
    } else if x < 0.0 {
      PositiveProduct(-x, -x);
    }
  }

  lemma {:induction false} ZeroNorm(v: Vec)
    ensures Dot(v, v) >= 0.0
    ensures Norm(v) >= 0.0
    ensures Dot(v, v) == 0.0 ==> Norm(v) == 0.0
  {
    if v != [] {
      ZeroNorm(v[1..]);
      SquareZero(v[0]);
    }
  }

  // ----- orthogonality

  ghost function R(y: System, k: nat): (v: Vec)
    requires ValidSystem(y)
    ensures |v| == y.n
  {
    Cg(y, k).r
  }

  ghost function P(y: System, k: nat): (v: Vec)
    requires ValidSystem(y)
    ensures |v| == y.n
  {
    Cg(y, k).p
  }

  ghost function AP(y: System, k: nat): (v: Vec)
    requires ValidSystem(y)
    ensures |v| == y.n
  {
    Apply(y.A, P(y, k))
  }

  ghost function Alpha(y: System, k: nat): real
    requires ValidSystem(y)
  {
    Quot(Dot(R(y, k), R(y, k)), Dot(AP(y, k), P(y, k)))
  }

  ghost function Beta(y: System, k: nat): real
    requires ValidSystem(y)
  {
    Quot(Dot(R(y, k + 1), R(y, k + 1)), Dot(R(y, k), R(y, k)))
  }

  /** The recurrences of one step, by themselves. */
  lemma Recurrences(y: System, k: nat)
    requires ValidSystem(y)
    ensures Cg(y, k + 1).x == Lin(1.0, Cg(y, k).x, Alpha(y, k), P(y, k))
    ensures R(y, k + 1) == Lin(1.0, R(y, k), Neg(Alpha(y, k)), AP(y, k))
    ensures P(y, k + 1) == Lin(1.0, R(y, k + 1), Beta(y, k), P(y, k))
    ensures P(y, 0) == R(y, 0)
  {
    var s := Cg(y, k);
    ApplySize(y.A, y.n, s.p);
    var alpha := Quot(Dot(s.r, s.r), Dot(Apply(y.A, s.p), s.p));
    var r := Lin(1.0, s.r, Neg(alpha), Apply(y.A, s.p));
    CgStep(y, k, s, Dot(Apply(y.A, s.p), s.p), alpha, r, Quot(Dot(r, r), Dot(s.r, s.r)));
  }

  lemma AxbyOne(x: real, b: real, y: real)
    ensures Axby(1.0, x, b, y) == x + Mul(b, y)
    ensures Axby(1.0, x, Neg(b), y) == x - Mul(b, y)
  {
  }

  /** Products with the next residual and the next direction. */
  lemma DotNextR(y: System, k: nat, v: Vec)
    requires ValidSystem(y) && |v| == y.n
    ensures Dot(R(y, k + 1), v) == Dot(R(y, k), v) - Mul(Alpha(y, k), Dot(AP(y, k), v))
  {
    hide *;
    Recurrences(y, k);
    DotLin(1.0, R(y, k), Neg(Alpha(y, k)), AP(y, k), v);
    AxbyOne(Dot(R(y, k), v), Alpha(y, k), Dot(AP(y, k), v));
  }

  lemma DotNextP(y: System, k: nat, v: Vec)
    requires ValidSystem(y) && |v| == y.n
    ensures Dot(P(y, k + 1), v) == Dot(R(y, k + 1), v) + Mul(Beta(y, k), Dot(P(y, k), v))
  {
    hide *;
    Recurrences(y, k);
    DotLin(1.0, R(y, k + 1), Beta(y, k), P(y, k), v);
    AxbyOne(Dot(R(y, k + 1), v), Beta(y, k), Dot(P(y, k), v));
  }

  /** Orthogonality of everything up to step k. */
  ghost predicate Orthogonal(y: System, k: nat)
    requires ValidSystem(y)
  {
    && (forall i, j :: 0 <= i < j <= k ==> Dot(R(y, j), R(y, i)) == 0.0)
    && (forall i, j :: 0 <= i < j <= k ==> Dot(AP(y, j), P(y, i)) == 0.0)
  }

  lemma OrthogonalAt(y: System, k: nat, i: nat, j: nat)
    requires ValidSystem(y) && Orthogonal(y, k) && i < j <= k
    ensures Dot(R(y, j), R(y, i)) == 0.0 && Dot(AP(y, j), P(y, i)) == 0.0
  {
    hide R, P, AP, Dot, Linear;
  }

  lemma Symmetric(y: System, i: nat, j: nat)
    requires ValidSystem(y) && SelfAdjoint(y.A, y.n)
    ensures Dot(AP(y, j), P(y, i)) == Dot(AP(y, i), P(y, j))
  {
    ApplySize(y.A, y.n, P(y, i));
    ApplySize(y.A, y.n, P(y, j));
    assert Dot(Apply(y.A, P(y, j)), P(y, i)) == Dot(P(y, j), Apply(y.A, P(y, i)));
    hide Dot;
    DotSym(P(y, j), AP(y, i));
  }

  lemma MulZero(a: real)
    ensures Mul(a, 0.0) == 0.0
  {
  }

  /** A p_k is conjugate to r_i for i < k, and has the same product with r_k as
      with p_k. */
  lemma ApWithResidual(y: System, k: nat, i: nat)
    requires ValidSystem(y) && SelfAdjoint(y.A, y.n) && Orthogonal(y, k) && i <= k
    ensures i < k ==> Dot(AP(y, k), R(y, i)) == 0.0
    ensures i == k ==> Dot(AP(y, k), R(y, k)) == Dot(AP(y, k), P(y, k))
  {
    hide Cg, P, R, AP, Dot, Alpha, Beta, Mul, Linear, SelfAdjoint;
    if i == 0 {
      Recurrences(y, 0);
    } else {
      DotNextP(y, i - 1, AP(y, k));
      DotSym(P(y, i), AP(y, k));
      DotSym(R(y, i), AP(y, k));
      DotSym(P(y, i - 1), AP(y, k));
      assert Dot(AP(y, k), P(y, i - 1)) == 0.0;
      MulZero(Beta(y, i - 1));
    }
  }

  lemma AlphaTimes(y: System, k: nat)
    requires ValidSystem(y) && CgSound(y, k)
    ensures Mul(Alpha(y, k), Dot(AP(y, k), P(y, k))) == Dot(R(y, k), R(y, k))
    ensures Alpha(y, k) != 0.0
    ensures Dot(R(y, k), R(y, k)) != 0.0
    ensures Beta(y, k) == Quot(Dot(R(y, k + 1), R(y, k + 1)), Dot(R(y, k), R(y, k)))
    ensures Mul(Beta(y, k), Dot(R(y, k), R(y, k))) == Dot(R(y, k + 1), R(y, k + 1))
  {
    hide Dot, Mul, Linear;
    QuotTimes(Dot(R(y, k), R(y, k)), Dot(AP(y, k), P(y, k)));
    QuotTimes(Dot(R(y, k + 1), R(y, k + 1)), Dot(R(y, k), R(y, k)));
  }

  lemma NextResidualOrthogonal(y: System, k: nat, i: nat)
    requires ValidSystem(y) && SelfAdjoint(y.A, y.n) && Orthogonal(y, k) && CgSound(y, k) && i <= k
    ensures Dot(R(y, k + 1), R(y, i)) == 0.0
  {
    AlphaTimes(y, k);
    hide Cg, P, R, AP, Dot, Alpha, Beta, Mul, Linear, SelfAdjoint, CgSound;
    DotNextR(y, k, R(y, i));
    ApWithResidual(y, k, i);
    MulZero(Alpha(y, k));
  }

  lemma MulDifference(a: real, x: real, u: real, b: real, w: real)
    requires a != 0.0 && Mul(a, x) == -u && Mul(a, w) == b && Mul(Quot(u, b), b) == u && b != 0.0
    ensures x + Mul(Quot(u, b), w) == 0.0
  {
    assert a * (x + (u / b) * w) == a * x + (u / b) * (a * w);
  }

  /** How A p_i meets the new direction, through the residuals on both sides of
      step i. */
  lemma NextDirectionProduct(y: System, k: nat, i: nat)
    requires ValidSystem(y) && SelfAdjoint(y.A, y.n)
    ensures Dot(AP(y, i), P(y, k + 1)) == Dot(AP(y, i), R(y, k + 1)) + Mul(Beta(y, k), Dot(AP(y, k), P(y, i)))
    ensures Mul(Alpha(y, i), Dot(AP(y, i), R(y, k + 1))) == Dot(R(y, k + 1), R(y, i)) - Dot(R(y, i + 1), R(y, k + 1))
  {
    hide Cg, P, R, AP, Dot, Alpha, Beta, Mul, Linear, SelfAdjoint, CgSound, Quot;
    DotNextR(y, i, R(y, k + 1));
    DotSym(R(y, i), R(y, k + 1));
    DotNextP(y, k, AP(y, i));
    DotSym(P(y, k + 1), AP(y, i));
    DotSym(R(y, k + 1), AP(y, i));
    DotSym(P(y, k), AP(y, i));
    Symmetric(y, i, k);
  }

  lemma EarlierDirectionConjugate(y: System, k: nat, i: nat)
    requires ValidSystem(y) && SelfAdjoint(y.A, y.n) && Orthogonal(y, k) && CgSound(y, k) && CgSound(y, i) && i < k
    ensures Dot(AP(y, i), P(y, k + 1)) == 0.0
  {
    hide *;
    AlphaTimes(y, i);
    OrthogonalAt(y, k, i, k);
    NextResidualOrthogonal(y, k, i);
    NextResidualOrthogonal(y, k, i + 1);
    DotSym(R(y, i + 1), R(y, k + 1));
    NextDirectionProduct(y, k, i);
    FactorZero(Alpha(y, i), Dot(AP(y, i), R(y, k + 1)));
    MulZero(Beta(y, k));
  }

  lemma LastDirectionConjugate(y: System, k: nat)
    requires ValidSystem(y) && SelfAdjoint(y.A, y.n) && Orthogonal(y, k) && CgSound(y, k)
    ensures Dot(AP(y, k), P(y, k + 1)) == 0.0
  {
    hide *;
    AlphaTimes(y, k);
    NextResidualOrthogonal(y, k, k);
    NextDirectionProduct(y, k, k);
    MulDifference(Alpha(y, k), Dot(AP(y, k), R(y, k + 1)), Dot(R(y, k + 1), R(y, k + 1)),
                  Dot(R(y, k), R(y, k)), Dot(AP(y, k), P(y, k)));
  }

  lemma SoundAt(y: System, k: nat, j: nat)
    requires ValidSystem(y) && CgSoundUpTo(y, k) && j < k
    ensures CgSound(y, j)
  {
    hide CgSound, Linear;
  }

  lemma SoundBelow(y: System, k: nat)
    requires ValidSystem(y) && CgSoundUpTo(y, k + 1)
    ensures CgSoundUpTo(y, k)
  {
    hide CgSound, Linear;
  }

  /** The new direction is conjugate to every earlier one. */
  lemma NextDirectionConjugate(y: System, k: nat, i: nat)
    requires ValidSystem(y) && SelfAdjoint(y.A, y.n) && Orthogonal(y, k) && CgSoundUpTo(y, k + 1) && i <= k
    ensures Dot(AP(y, k + 1), P(y, i)) == 0.0
  {
    hide *;
    SoundAt(y, k + 1, i);
    SoundAt(y, k + 1, k);
    if i < k {
      EarlierDirectionConjugate(y, k, i);
    } else {
      LastDirectionConjugate(y, k);
    }
    Symmetric(y, i, k + 1);
  }

  lemma FactorZero(a: real, x: real)
    requires a != 0.0 && Mul(a, x) == 0.0
    ensures x == 0.0
  {
  }

  lemma OrthogonalExtend(y: System, k: nat)
    requires ValidSystem(y) && Orthogonal(y, k)
    requires forall i :: 0 <= i <= k ==> Dot(R(y, k + 1), R(y, i)) == 0.0
    requires forall i :: 0 <= i <= k ==> Dot(AP(y, k + 1), P(y, i)) == 0.0
    ensures Orthogonal(y, k + 1)
  {
    hide Cg, P, R, AP, Dot, Linear;
  }

  /** In every run of the method on a self-adjoint operator all residuals are
      mutually orthogonal and all directions mutually A-conjugate. */
  lemma {:induction false} CgOrthogonal(y: System, k: nat)
    requires ValidSystem(y) && SelfAdjoint(y.A, y.n) && CgSoundUpTo(y, k)
    ensures Orthogonal(y, k)
  {
    hide Cg, P, R, AP, Dot, Linear, SelfAdjoint, CgSound, CgSoundUpTo;
    if k > 0 {
      SoundBelow(y, k - 1);
      SoundAt(y, k, k - 1);
      CgOrthogonal(y, k - 1);
      forall i | 0 <= i <= k - 1
        ensures Dot(R(y, k), R(y, i)) == 0.0
        ensures Dot(AP(y, k), P(y, i)) == 0.0
      {
        NextResidualOrthogonal(y, k - 1, i);
        NextDirectionConjugate(y, k - 1, i);
      }
      OrthogonalExtend(y, k - 1);
    }
  }

  /** The recursively updated residual is the true residual of the iterate. */
  lemma {:induction false} CgResidual(y: System, k: nat)
    requires ValidSystem(y)
    ensures |Apply(y.A, Cg(y, k).x)| == y.n
    ensures R(y, k) == Residual(y.A, y.b, Cg(y, k).x)
  {
    hide Cg, P, R, Linear, Lin, Alpha, Dot, Residual, Apply;
    ApplySize(y.A, y.n, Cg(y, k).x);
    if k == 0 {
      CgResidualStart(y);
    } else {
      CgResidual(y, k - 1);
      Recurrences(y, k - 1);
      var x, a, p := Cg(y, k - 1).x, Alpha(y, k - 1), P(y, k - 1);
      ApplySize(y.A, y.n, x);
      ApplySize(y.A, y.n, p);
      ApplyLin(y.A, y.n, 1.0, x, a, p);
      ResidualIs(y, x);
      ResidualIs(y, Cg(y, k).x);
      ResidualStep(y.b, Apply(y.A, x), a, Apply(y.A, p));
    }
  }

  lemma CgResidualStart(y: System)
    requires ValidSystem(y)
    ensures |Apply(y.A, Cg(y, 0).x)| == y.n
    ensures R(y, 0) == Residual(y.A, y.b, Cg(y, 0).x)
  {
  }

  lemma ResidualIs(y: System, x: Vec)
    requires ValidSystem(y) && |x| == y.n
    ensures |Apply(y.A, x)| == |y.b| == y.n
    ensures Residual(y.A, y.b, x) == Lin(1.0, y.b, -1.0, Apply(y.A, x))
  {
  }

  lemma ResidualStep(b: Vec, ax: Vec, a: real, ap: Vec)
    requires |b| == |ax| == |ap|
    ensures Lin(1.0, Lin(1.0, b, -1.0, ax), Neg(a), ap) == Lin(1.0, b, -1.0, Lin(1.0, ax, a, ap))
  {
    var left, right := Lin(1.0, Lin(1.0, b, -1.0, ax), Neg(a), ap), Lin(1.0, b, -1.0, Lin(1.0, ax, a, ap));
    hide Axby, Lin;
    forall i | 0 <= i < |b|
      ensures left[i] == right[i]
    {
      ResidualStepAt(b[i], ax[i], a, ap[i]);
    }
  }

  lemma ResidualStepAt(b: real, ax: real, a: real, ap: real)
    ensures Axby(1.0, Axby(1.0, b, -1.0, ax), Neg(a), ap) == Axby(1.0, b, -1.0, Axby(1.0, ax, a, ap))
  {
  }
}
