/** The stabilised biconjugate gradient solver of the bottom level with right
    preconditioning, in exact arithmetic: its sequence of iterates and the loop that
    computes them. */
module BiCGStab {
  import opened GridVectors
  import opened SolverRuns
  import opened ConjugateGradient

  /** lambda holds the reciprocals of the operator's diagonal. */
  datatype Problem = Problem(n: nat, A: Vec -> Vec, lambda: Vec, b: Vec, x0: Vec)

  ghost predicate ValidProblem(y: Problem) {
    Linear(y.A, y.n) && |y.lambda| == |y.b| == |y.x0| == y.n
  }

  /** mul_grids by lambda, then apply_op. */
  function Preconditioned(A: Vec -> Vec, lambda: Vec): Vec -> Vec {
    v => if |v| == |lambda| then Apply(A, Times(lambda, v)) else []
  }

  lemma PreconditionedIs(A: Vec -> Vec, lambda: Vec, v: Vec)
    requires |v| == |lambda|
    ensures Apply(Preconditioned(A, lambda), v) == Apply(A, Times(lambda, v))
  {
  }

  lemma TimesLin(l: Vec, a: real, x: Vec, b: real, y: Vec)
    requires |l| == |x| == |y|
    ensures Times(l, Lin(a, x, b, y)) == Lin(a, Times(l, x), b, Times(l, y))
  {
    var left, right := Times(l, Lin(a, x, b, y)), Lin(a, Times(l, x), b, Times(l, y));
    hide Axby, Mul, Times, Lin;
    forall i | 0 <= i < |l|
      ensures left[i] == right[i]
    {
      TimesAxby(l[i], a, x[i], b, y[i]);
    }
  }

  lemma TimesAxby(l: real, a: real, x: real, b: real, y: real)
    ensures Mul(l, Axby(a, x, b, y)) == Axby(a, Mul(l, x), b, Mul(l, y))
  {
    assert l * (a * x + b * y) == a * (l * x) + b * (l * y);
  }

  /** The preconditioned operator is linear too. */
  lemma PreconditionedLinear(A: Vec -> Vec, lambda: Vec)
    requires Linear(A, |lambda|)
    ensures Linear(Preconditioned(A, lambda), |lambda|)
  {
    var M, n := Preconditioned(A, lambda), |lambda|;
    forall x: Vec | |x| == n
      ensures |Apply(M, x)| == n
    {
      PreconditionedIs(A, lambda, x);
      ApplySize(A, n, Times(lambda, x));
    }
    forall a: real, x: Vec, b: real, y: Vec | |x| == |y| == n
      ensures Apply(M, Lin(a, x, b, y)) == Lin(a, Apply(M, x), b, Apply(M, y))
    {
      PreconditionedAt(A, lambda, a, x, b, y);
    }
  }

  lemma PreconditionedAt(A: Vec -> Vec, lambda: Vec, a: real, x: Vec, b: real, y: Vec)
    requires Linear(A, |lambda|) && |x| == |y| == |lambda|
    ensures |Apply(Preconditioned(A, lambda), x)| == |Apply(Preconditioned(A, lambda), y)| == |lambda|
    ensures Apply(Preconditioned(A, lambda), Lin(a, x, b, y)) ==
            Lin(a, Apply(Preconditioned(A, lambda), x), b, Apply(Preconditioned(A, lambda), y))
  {
    hide *;
    PreconditionedIs(A, lambda, x);
    PreconditionedIs(A, lambda, y);
    PreconditionedIs(A, lambda, Lin(a, x, b, y));
    TimesLin(lambda, a, x, b, y);
    ApplyLin(A, |lambda|, a, Times(lambda, x), b, Times(lambda, y));
  }

  // ----- the iterates

  ghost function Op(y: Problem): Vec -> Vec {
    Preconditioned(y.A, y.lambda)
  }

  ghost function M(y: Problem, v: Vec): (w: Vec)
    requires ValidProblem(y) && |v| == y.n
    ensures |w| == y.n
  {
    ApplySize(y.A, y.n, Times(y.lambda, v));
    Apply(y.A, Times(y.lambda, v))
  }

  /** The operator the iterates are built with is M, and it is linear. */
  lemma OpIs(y: Problem)
    requires ValidProblem(y)
    ensures Linear(Op(y), y.n)
    ensures forall v: Vec {:trigger M(y, v)} :: |v| == y.n ==> Apply(Op(y), v) == M(y, v)
  {
    PreconditionedLinear(y.A, y.lambda);
    hide Linear, Apply;
    forall v: Vec | |v| == y.n
      ensures Apply(Op(y), v) == M(y, v)
    {
      PreconditionedIs(y.A, y.lambda, v);
    }
  }

  ghost function R0(y: Problem): (r: Vec)
    requires ValidProblem(y)
    ensures |r| == y.n
  {
    ApplySize(y.A, y.n, y.x0);
    Residual(y.A, y.b, y.x0)
  }

  datatype State = State(x: Vec, r: Vec, p: Vec)

  ghost predicate Shaped(n: nat, s: State) {
    |s.x| == n && |s.r| == n && |s.p| == n
  }

  ghost function AlphaOf(y: Problem, s: State): real
    requires ValidProblem(y) && Shaped(y.n, s)
  {
    Quot(Dot(s.r, R0(y)), Dot(M(y, s.p), R0(y)))
  }

  /** The residual after half a step. */
  ghost function HalfOf(y: Problem, s: State): (v: Vec)
    requires ValidProblem(y) && Shaped(y.n, s)
    ensures |v| == y.n
  {
    Lin(1.0, s.r, Neg(AlphaOf(y, s)), M(y, s.p))
  }

  ghost function OmegaOf(y: Problem, s: State): real
    requires ValidProblem(y) && Shaped(y.n, s)
  {
    var h := HalfOf(y, s);
    Quot(Dot(M(y, h), h), Dot(M(y, h), M(y, h)))
  }

  /** The residual after the whole step. */
  ghost function ResidualOf(y: Problem, s: State): (v: Vec)
    requires ValidProblem(y) && Shaped(y.n, s)
    ensures |v| == y.n
  {
    Lin(1.0, HalfOf(y, s), Neg(OmegaOf(y, s)), M(y, HalfOf(y, s)))
  }

  ghost function BetaOf(y: Problem, s: State): real
    requires ValidProblem(y) && Shaped(y.n, s)
  {
    Mul(Quot(Dot(ResidualOf(y, s), R0(y)), Dot(s.r, R0(y))), Quot(AlphaOf(y, s), OmegaOf(y, s)))
  }

  /** One iteration without its stopping tests (Saad, Algorithm 7.7). */
  ghost function Next(y: Problem, s: State): (t: State)
    requires ValidProblem(y) && Shaped(y.n, s)
    ensures Shaped(y.n, t)
  {
    var r := ResidualOf(y, s);
    State(Lin(1.0, Lin(1.0, s.x, AlphaOf(y, s), s.p), OmegaOf(y, s), HalfOf(y, s)), r,
          Lin(1.0, r, BetaOf(y, s), Lin(1.0, s.p, Neg(OmegaOf(y, s)), M(y, s.p))))
  }

  ghost function At(y: Problem, k: nat): (s: State)
    requires ValidProblem(y)
    ensures Shaped(y.n, s)
  {
    if k == 0 then State(y.x0, R0(y), R0(y)) else Next(y, At(y, k - 1))
  }

  ghost function X(y: Problem, k: nat): (v: Vec)
    requires ValidProblem(y)
    ensures |v| == y.n
  {
    At(y, k).x
  }

  ghost function R(y: Problem, k: nat): (v: Vec)
    requires ValidProblem(y)
    ensures |v| == y.n
  {
    At(y, k).r
  }

  ghost function P(y: Problem, k: nat): (v: Vec)
    requires ValidProblem(y)
    ensures |v| == y.n
  {
    At(y, k).p
  }

  ghost function MP(y: Problem, k: nat): (v: Vec)
    requires ValidProblem(y)
    ensures |v| == y.n
  {
    M(y, P(y, k))
  }

  ghost function Alpha(y: Problem, k: nat): real
    requires ValidProblem(y)
  {
    AlphaOf(y, At(y, k))
  }

  ghost function S(y: Problem, k: nat): (v: Vec)
    requires ValidProblem(y)
    ensures |v| == y.n
  {
    HalfOf(y, At(y, k))
  }

  ghost function MS(y: Problem, k: nat): (v: Vec)
    requires ValidProblem(y)
    ensures |v| == y.n
  {
    M(y, S(y, k))
  }

  ghost function Omega(y: Problem, k: nat): real
    requires ValidProblem(y)
  {
    OmegaOf(y, At(y, k))
  }

  ghost function Beta(y: Problem, k: nat): real
    requires ValidProblem(y)
  {
    BetaOf(y, At(y, k))
  }

  /** The iterate after the first of the two updates of step k. */
  ghost function HalfX(y: Problem, k: nat): (v: Vec)
    requires ValidProblem(y)
    ensures |v| == y.n
  {
    Lin(1.0, X(y, k), Alpha(y, k), P(y, k))
  }

  lemma AtNext(y: Problem, k: nat)
    requires ValidProblem(y)
    ensures At(y, k + 1) == Next(y, At(y, k))
  {
  }

  /** The half step and its factor. */
  lemma SIs(y: Problem, k: nat)
    requires ValidProblem(y)
    ensures S(y, k) == Lin(1.0, R(y, k), Neg(Alpha(y, k)), MP(y, k))
    ensures HalfX(y, k) == Lin(1.0, X(y, k), Alpha(y, k), P(y, k))
    ensures Alpha(y, k) == Quot(Dot(R(y, k), R0(y)), Dot(MP(y, k), R0(y)))
  {
  }

  /** The recurrences of one step, by themselves. */
  lemma StepOf(y: Problem, k: nat)
    requires ValidProblem(y)
    ensures X(y, k + 1) == Lin(1.0, HalfX(y, k), Omega(y, k), S(y, k))
    ensures R(y, k + 1) == Lin(1.0, S(y, k), Neg(Omega(y, k)), MS(y, k))
    ensures P(y, k + 1) == Lin(1.0, R(y, k + 1), Beta(y, k), Lin(1.0, P(y, k), Neg(Omega(y, k)), MP(y, k)))
  {
    AtNext(y, k);
    hide Linear, M, Dot, Lin, R0, At, Quot, Neg, Mul, AlphaOf, HalfOf, OmegaOf, BetaOf;
  }

  // ----- what the recursively updated residual is

  /** By how much the operator with the preconditioner differs from the one without,
      at the initial guess. */
  ghost function Gap(y: Problem): (g: Vec)
    requires ValidProblem(y)
    ensures |g| == y.n
  {
    ApplySize(y.A, y.n, y.x0);
    Lin(1.0, M(y, y.x0), -1.0, Apply(y.A, y.x0))
  }

  lemma MoveResidual(b: Vec, mx: Vec, g: Vec, a: real, v: Vec)
    requires |b| == |mx| == |g| == |v|
    ensures Lin(1.0, Lin(1.0, Lin(1.0, b, -1.0, mx), 1.0, g), Neg(a), v) ==
            Lin(1.0, Lin(1.0, b, -1.0, Lin(1.0, mx, a, v)), 1.0, g)
  {
    var left := Lin(1.0, Lin(1.0, Lin(1.0, b, -1.0, mx), 1.0, g), Neg(a), v);
    var right := Lin(1.0, Lin(1.0, b, -1.0, Lin(1.0, mx, a, v)), 1.0, g);
    hide Axby, Lin;
    forall i | 0 <= i < |b|
      ensures left[i] == right[i]
    {
      MoveResidualAt(b[i], mx[i], g[i], a, v[i]);
    }
  }

  lemma MoveResidualAt(b: real, mx: real, g: real, a: real, v: real)
    ensures Axby(1.0, Axby(1.0, Axby(1.0, b, -1.0, mx), 1.0, g), Neg(a), v) ==
            Axby(1.0, Axby(1.0, b, -1.0, Axby(1.0, mx, a, v)), 1.0, g)
  {
  }

  /** r is off by the gap from the residual of the system with the preconditioner. */
  ghost predicate Tracks(y: Problem, x: Vec, r: Vec)
    requires ValidProblem(y) && |x| == |r| == y.n
  {
    r == Lin(1.0, Lin(1.0, y.b, -1.0, M(y, x)), 1.0, Gap(y))
  }

  lemma MLin(y: Problem, a: real, x: Vec, b: real, z: Vec)
    requires ValidProblem(y) && |x| == |z| == y.n
    ensures M(y, Lin(a, x, b, z)) == Lin(a, M(y, x), b, M(y, z))
  {
    hide Lin, Times, Linear, Apply;
    TimesLin(y.lambda, a, x, b, z);
    ApplyLin(y.A, y.n, a, Times(y.lambda, x), b, Times(y.lambda, z));
  }

  lemma TracksMove(y: Problem, x: Vec, r: Vec, a: real, v: Vec)
    requires ValidProblem(y) && |x| == |r| == |v| == y.n && Tracks(y, x, r)
    ensures Tracks(y, Lin(1.0, x, a, v), Lin(1.0, r, Neg(a), M(y, v)))
  {
    hide Lin, M, Gap, Linear;
    MLin(y, 1.0, x, a, v);
    MoveResidual(y.b, M(y, x), Gap(y), a, M(y, v));
  }

  lemma TracksStart(y: Problem)
    requires ValidProblem(y)
    ensures Tracks(y, y.x0, R0(y))
  {
    ApplySize(y.A, y.n, y.x0);
    var left := R0(y);
    var right := Lin(1.0, Lin(1.0, y.b, -1.0, M(y, y.x0)), 1.0, Gap(y));
    hide M, Linear, Apply;
    forall i | 0 <= i < y.n
      ensures left[i] == right[i]
    {
    }
  }

  lemma {:induction false} TracksAt(y: Problem, k: nat)
    requires ValidProblem(y)
    ensures Tracks(y, X(y, k), R(y, k))
    ensures Tracks(y, HalfX(y, k), S(y, k))
  {
    hide Tracks, Lin, M, Linear, R0, Next, Alpha, Omega;
    if k == 0 {
      TracksStart(y);
    } else {
      TracksAt(y, k - 1);
      StepOf(y, k - 1);
      TracksMove(y, HalfX(y, k - 1), S(y, k - 1), Omega(y, k - 1), S(y, k - 1));
    }
    SIs(y, k);
    TracksMove(y, X(y, k), R(y, k), Alpha(y, k), P(y, k));
  }

  lemma LinBack(v: Vec, g: Vec)
    requires |v| == |g|
    ensures Lin(1.0, v, 1.0, g) == v <==> g == Zero(|g|)
  {
    var w := Lin(1.0, v, 1.0, g);
    if w == v {
      forall i | 0 <= i < |g|
        ensures g[i] == 0.0
      {
        assert w[i] == v[i];
      }
    }
  }

  lemma GapZero(y: Problem)
    requires ValidProblem(y)
    ensures |Apply(y.A, y.x0)| == y.n
    ensures Gap(y) == Zero(y.n) <==> M(y, y.x0) == Apply(y.A, y.x0)
  {
    ApplySize(y.A, y.n, y.x0);
    var u, v := M(y, y.x0), Apply(y.A, y.x0);
    hide M, Linear, Apply;
    if Gap(y) == Zero(y.n) {
      forall i | 0 <= i < y.n
        ensures u[i] == v[i]
      {
        assert Gap(y)[i] == 0.0;
      }
    }
  }

  /** The residual of the grid the solver hands back: the last step scales by lambda. */
  ghost function TrueResidual(y: Problem, x: Vec): (r: Vec)
    requires ValidProblem(y) && |x| == y.n
    ensures |r| == y.n
  {
    ApplySize(y.A, y.n, Times(y.lambda, x));
    Residual(y.A, y.b, Times(y.lambda, x))
  }

  /** The residual the solver monitors belongs to the grid it will hand back exactly
      when the operator does not see whether the initial guess is scaled. */
  lemma MonitorsTrueResidual(y: Problem, k: nat)
    requires ValidProblem(y)
    ensures R(y, k) == TrueResidual(y, X(y, k)) <==> Apply(y.A, Times(y.lambda, y.x0)) == Apply(y.A, y.x0)
    ensures S(y, k) == TrueResidual(y, HalfX(y, k)) <==> Apply(y.A, Times(y.lambda, y.x0)) == Apply(y.A, y.x0)
  {
    TracksAt(y, k);
    GapZero(y);
    TracksMeans(y, X(y, k), R(y, k));
    TracksMeans(y, HalfX(y, k), S(y, k));
    assert M(y, y.x0) == Apply(y.A, Times(y.lambda, y.x0));
    hide X, R, HalfX, S, Gap, Tracks, TrueResidual, Linear;
  }

  lemma TracksMeans(y: Problem, x: Vec, r: Vec)
    requires ValidProblem(y) && |x| == |r| == y.n && Tracks(y, x, r)
    ensures r == TrueResidual(y, x) <==> Gap(y) == Zero(y.n)
  {
    TrueResidualIs(y, x);
    hide Gap, TrueResidual, Linear, Lin, M;
    LinBack(Lin(1.0, y.b, -1.0, M(y, x)), Gap(y));
  }

  lemma TrueResidualIs(y: Problem, x: Vec)
    requires ValidProblem(y) && |x| == y.n
    ensures TrueResidual(y, x) == Lin(1.0, y.b, -1.0, M(y, x))
  {
  }

  /** A zero guess, which the cycle supplies below the finest level, is enough. */
  lemma ZeroGuessMonitors(y: Problem, k: nat)
    requires ValidProblem(y) && y.x0 == Zero(y.n)
    ensures R(y, k) == TrueResidual(y, X(y, k))
    ensures S(y, k) == TrueResidual(y, HalfX(y, k))
  {
    TimesZero(y.lambda);
    hide X, R, HalfX, S, TrueResidual, Linear, Times, Apply;
    MonitorsTrueResidual(y, k);
  }

  lemma TimesZero(l: Vec)
    ensures Times(l, Zero(|l|)) == Zero(|l|)
  {
  }

  // ----- the loop

  /** Every divisor that step j needs, up to its new residual, is not zero. */
  ghost predicate Divides(y: Problem, j: nat)
    requires ValidProblem(y)
  {
    Dot(MP(y, j), R0(y)) != 0.0 && Dot(MS(y, j), MS(y, j)) != 0.0
  }

  /** Every divisor of the factor beta of step j is not zero. */
  ghost predicate Continues(y: Problem, j: nat)
    requires ValidProblem(y)
  {
    Dot(R(y, j), R0(y)) != 0.0 && Omega(y, j) != 0.0
  }

  /** No division by zero on the way to iterate k, or to the half step after it. */
  ghost predicate Reached(y: Problem, k: nat, half: bool)
    requires ValidProblem(y)
  {
    && (forall j :: 0 <= j < k ==> Divides(y, j))
    && (forall j :: 0 <= j < k - 1 ==> Continues(y, j))
    && (half ==> (k > 0 ==> Continues(y, k - 1)) && Dot(MP(y, k), R0(y)) != 0.0)
  }

  /** Where a run stops: at iterate k, or half a step further. */
  ghost function Iterate(y: Problem, k: nat, half: bool): (x: Vec)
    requires ValidProblem(y)
    ensures |x| == y.n
  {
    if half then HalfX(y, k) else X(y, k)
  }

  ghost function Monitored(y: Problem, k: nat, half: bool): (r: Vec)
    requires ValidProblem(y)
    ensures |r| == y.n
  {
    if half then S(y, k) else R(y, k)
  }

  /** Why the solver stops. */
  ghost predicate Stops(y: Problem, reduction: real, k: nat, half: bool, outcome: Outcome)
    requires ValidProblem(y)
  {
    var size := Norm(Monitored(y, k, half));
    match outcome
    case OutOfIterations => k == JMAX && !half
    case Converged =>
      || size == 0.0
      || size < Mul(reduction, Norm(R0(y)))
      || (k == 0 && !half && Dot(R0(y), R0(y)) == 0.0)
      || (half && Dot(MS(y, k), MS(y, k)) == 0.0)
    case Failed =>
      if half then Omega(y, k) == 0.0 else Dot(MP(y, k), R0(y)) == 0.0 || Dot(R(y, k), R0(y)) == 0.0
  }

  /** The run ends with x holding where it stopped. */
  ghost predicate Ends(y: Problem, reduction: real, k: nat, half: bool, x: Vec, outcome: Outcome)
    requires ValidProblem(y)
  {
    Reached(y, k, half) && x == Iterate(y, k, half) && Stops(y, reduction, k, half, outcome)
  }

  // ----- which test fires first

  /** The convergence test at an iterate or half step. */
  ghost predicate Small(y: Problem, reduction: real, k: nat, half: bool)
    requires ValidProblem(y)
  {
    var size := Norm(Monitored(y, k, half));
    size == 0.0 || size < Mul(reduction, Norm(R0(y)))
  }

  /** There is nothing to do. */
  ghost predicate Solved(y: Problem)
    requires ValidProblem(y)
  {
    Dot(R0(y), R0(y)) == 0.0 || Norm(R0(y)) == 0.0
  }

  /** The tests of the step from iterate k, in their order. */
  ghost function Test(y: Problem, reduction: real, k: nat): Stop
    requires ValidProblem(y)
  {
    if Dot(MP(y, k), R0(y)) == 0.0 then Stop(k, false, Failed)
    else if Small(y, reduction, k, true) || Dot(MS(y, k), MS(y, k)) == 0.0 then Stop(k, true, Converged)
    else if Omega(y, k) == 0.0 then Stop(k, true, Failed)
    else if Small(y, reduction, k + 1, false) then Stop(k + 1, false, Converged)
    else if Dot(R(y, k + 1), R0(y)) == 0.0 then Stop(k + 1, false, Failed)
    else Stop(k + 1, false, OutOfIterations)
  }

  ghost function Tests(y: Problem, reduction: real): nat -> Stop
    requires ValidProblem(y)
  {
    (k: nat) => Test(y, reduction, k)
  }

  /** The tests of step k up to the one at its half step let the run go on. */
  ghost predicate HalfGoes(y: Problem, reduction: real, k: nat)
    requires ValidProblem(y)
  {
    Dot(MP(y, k), R0(y)) != 0.0 && !Small(y, reduction, k, true)
  }

  lemma FirstTests(y: Problem, reduction: real, k: nat)
    requires ValidProblem(y)
    ensures Dot(MP(y, k), R0(y)) == 0.0 ==> Tests(y, reduction)(k) == Stop(k, false, Failed)
    ensures Dot(MP(y, k), R0(y)) != 0.0 && Small(y, reduction, k, true) ==>
              Tests(y, reduction)(k) == Stop(k, true, Converged)
    ensures Dot(MP(y, k), R0(y)) != 0.0 && !Small(y, reduction, k, true) ==> HalfGoes(y, reduction, k)
  {
    hide Linear, Dot, MP, R0, Small, MS, Omega, R;
  }

  lemma SecondTests(y: Problem, reduction: real, k: nat)
    requires ValidProblem(y) && HalfGoes(y, reduction, k)
    ensures !Small(y, reduction, k, true)
    ensures Tests(y, reduction)(k) ==
            if Dot(MS(y, k), MS(y, k)) == 0.0 then Stop(k, true, Converged)
            else if Omega(y, k) == 0.0 then Stop(k, true, Failed)
            else if Small(y, reduction, k + 1, false) then Stop(k + 1, false, Converged)
            else if Dot(R(y, k + 1), R0(y)) == 0.0 then Stop(k + 1, false, Failed)
            else Stop(k + 1, false, OutOfIterations)
  {
    hide Linear, Dot, MP, R0, Small, MS, Omega, R;
  }

  lemma SolvedIs(y: Problem)
    requires ValidProblem(y)
    ensures Solved(y) <==> Dot(R0(y), R0(y)) == 0.0 || Norm(R0(y)) == 0.0
  {
    hide Dot, Norm, R0, Linear;
  }

  lemma SmallIs(y: Problem, reduction: real, k: nat, half: bool, r: Vec, first: real)
    requires ValidProblem(y) && r == Monitored(y, k, half) && first == Norm(R0(y))
    ensures Small(y, reduction, k, half) <==> Norm(r) == 0.0 || Norm(r) < Mul(reduction, first)
  {
    hide Norm, Monitored, R0, Mul, Linear;
  }

  lemma EndsNow(y: Problem, reduction: real, k: nat, half: bool, x: Vec, r: Vec, first: real, outcome: Outcome)
    requires ValidProblem(y) && Reached(y, k, half)
    requires x == Iterate(y, k, half) && r == Monitored(y, k, half) && first == Norm(R0(y))
    requires match outcome
             case OutOfIterations => k == JMAX && !half
             case Converged =>
               || Norm(r) == 0.0
               || Norm(r) < Mul(reduction, first)
               || (k == 0 && !half && Dot(R0(y), R0(y)) == 0.0)
               || (half && Dot(MS(y, k), MS(y, k)) == 0.0)
             case Failed =>
               if half then Omega(y, k) == 0.0 else Dot(MP(y, k), R0(y)) == 0.0 || Dot(r, R0(y)) == 0.0
    ensures Ends(y, reduction, k, half, x, outcome)
  {
    MonitoredIs(y, k, half);
    hide Linear, Reached, Iterate, Monitored, Norm, Mul, Dot, R0, R, S, MS, MP, Omega;
  }

  lemma MonitoredIs(y: Problem, k: nat, half: bool)
    requires ValidProblem(y)
    ensures half ==> Monitored(y, k, half) == S(y, k) && Iterate(y, k, half) == HalfX(y, k)
    ensures !half ==> Monitored(y, k, half) == R(y, k) && Iterate(y, k, half) == X(y, k)
  {
  }

  /** x, r and p hold iterate k, and no test has stopped the solver. */
  ghost predicate Holds(y: Problem, k: nat, x: Vec, r: Vec, p: Vec)
    requires ValidProblem(y)
  {
    && |x| == |r| == |p| == y.n && x == X(y, k) && r == R(y, k) && p == P(y, k)
    && Reached(y, k, false) && (k > 0 ==> Continues(y, k - 1)) && Dot(r, R0(y)) != 0.0
  }

  lemma HoldsMeans(y: Problem, k: nat, x: Vec, r: Vec, p: Vec)
    requires ValidProblem(y) && Holds(y, k, x, r, p)
    ensures |x| == |r| == |p| == y.n && x == X(y, k) && r == R(y, k) && p == P(y, k)
    ensures Reached(y, k, false) && Dot(r, R0(y)) != 0.0
  {
    hide Linear, Reached, Continues, Dot, R0, X, R, P;
  }

  lemma HoldsAtStart(y: Problem)
    requires ValidProblem(y)
    ensures |Apply(y.A, y.x0)| == |y.b| == |y.x0| == y.n
    ensures Residual(y.A, y.b, y.x0) == R0(y)
    ensures Reached(y, 0, false) && Iterate(y, 0, false) == y.x0 && Monitored(y, 0, false) == R0(y)
    ensures Dot(R0(y), R0(y)) != 0.0 ==> Holds(y, 0, y.x0, R0(y), R0(y))
  {
    ApplySize(y.A, y.n, y.x0);
    hide Dot, Linear, Apply;
  }

  lemma OperatorGives(y: Problem, v: Vec)
    requires ValidProblem(y) && |v| == y.n
    ensures |y.lambda| == y.n && |Apply(y.A, Times(y.lambda, v))| == y.n
    ensures Apply(y.A, Times(y.lambda, v)) == M(y, v)
  {
    ApplySize(y.A, y.n, Times(y.lambda, v));
  }

  /** The first half of a step, once its divisor is not zero. */
  lemma HalfStep(y: Problem, k: nat, x: Vec, r: Vec, p: Vec, Ap: Vec, alpha: real, half: Vec, s: Vec)
    requires ValidProblem(y) && Holds(y, k, x, r, p) && |x| == |r| == |p| == |Ap| == y.n
    requires Ap == M(y, p) && Dot(Ap, R0(y)) != 0.0 && alpha == Quot(Dot(r, R0(y)), Dot(Ap, R0(y)))
    requires half == Lin(1.0, x, alpha, p) && s == Lin(1.0, r, Neg(alpha), Ap)
    ensures alpha == Alpha(y, k) && Ap == MP(y, k) && Dot(MP(y, k), R0(y)) != 0.0
    ensures half == HalfX(y, k) == Iterate(y, k, true) && s == S(y, k) == Monitored(y, k, true)
    ensures Reached(y, k, true)
  {
    SIs(y, k);
    hide Linear, Dot, R0, X, R, P, M, Lin, Quot, Neg, Divides, Continues, Alpha, S;
  }

  lemma ReachedNext(y: Problem, k: nat)
    requires ValidProblem(y) && Reached(y, k, true) && Divides(y, k)
    ensures Reached(y, k + 1, false)
  {
    hide Linear, Dot, MP, R0, Divides, Continues;
  }

  lemma OmegaIs(y: Problem, k: nat)
    requires ValidProblem(y)
    ensures Omega(y, k) == Quot(Dot(MS(y, k), S(y, k)), Dot(MS(y, k), MS(y, k)))
    ensures Divides(y, k) <==> Dot(MP(y, k), R0(y)) != 0.0 && Dot(MS(y, k), MS(y, k)) != 0.0
  {
  }

  /** The second half of a step. */
  lemma FullStep(y: Problem, k: nat, half: Vec, s: Vec, As: Vec, omega: real, x: Vec, r: Vec)
    requires ValidProblem(y) && Reached(y, k, true) && |half| == |s| == |As| == y.n
    requires half == HalfX(y, k) && s == S(y, k) && As == MS(y, k) && Dot(As, As) != 0.0
    requires Dot(MP(y, k), R0(y)) != 0.0
    requires omega == Quot(Dot(As, s), Dot(As, As))
    requires x == Lin(1.0, half, omega, s) && r == Lin(1.0, s, Neg(omega), As)
    ensures omega == Omega(y, k) && Reached(y, k + 1, false)
    ensures x == X(y, k + 1) == Iterate(y, k + 1, false) && r == R(y, k + 1) == Monitored(y, k + 1, false)
  {
    hide *;
    StepOf(y, k);
    OmegaIs(y, k);
    ReachedNext(y, k);
    MonitoredIs(y, k + 1, false);
  }

  /** The direction for the next step. */
  lemma NextStep(y: Problem, k: nat, x: Vec, r: Vec, p: Vec, Mp: Vec, was: real, alpha: real, omega: real, next: Vec)
    requires ValidProblem(y) && Reached(y, k + 1, false) && |p| == |Mp| == y.n
    requires x == X(y, k + 1) && r == R(y, k + 1) && Dot(r, R0(y)) != 0.0
    requires p == P(y, k) && Mp == MP(y, k) && was == Dot(R(y, k), R0(y)) && was != 0.0
    requires alpha == Alpha(y, k) && omega == Omega(y, k) && omega != 0.0
    requires next == Lin(1.0, r, Mul(Quot(Dot(r, R0(y)), was), Quot(alpha, omega)), Lin(1.0, p, Neg(omega), Mp))
    ensures Holds(y, k + 1, x, r, next)
  {
    StepOf(y, k);
    hide Linear, Dot, R0, X, R, P, M, Lin, Quot, Neg, S, HalfX, MP, MS, Alpha, Omega, Divides, Mul, Reached;
  }

  /** The second half of the loop body, from the half step s. */
  method SecondHalf(y: Problem, reduction: real, r0: Vec, normOfR0: real, k: nat,
                    x: Vec, s: Vec, p: Vec, Ap: Vec, alpha: real, rDotR0: real)
    returns (x': Vec, r': Vec, p': Vec, rDotR0': real, k': nat, half: bool, outcome: Outcome)
    requires ValidProblem(y) && |x| == |s| == |p| == |Ap| == y.n && Reached(y, k, true)
    requires r0 == R0(y) && normOfR0 == Norm(r0) && rDotR0 == Dot(R(y, k), r0) && rDotR0 != 0.0
    requires x == HalfX(y, k) && s == S(y, k) && p == P(y, k) && Ap == MP(y, k) && Dot(Ap, r0) != 0.0
    requires alpha == Alpha(y, k) && HalfGoes(y, reduction, k)
    ensures outcome == OutOfIterations ==>
              && !half && k' == k + 1 && Holds(y, k + 1, x', r', p') && |r'| == y.n && rDotR0' == Dot(r', r0)
    ensures outcome != OutOfIterations ==> Ends(y, reduction, k', half, x', outcome)
    ensures Tests(y, reduction)(k) == Stop(k', half, outcome)
  {
    hide *;
    x', r', p', rDotR0', k', half, outcome := x, s, p, rDotR0, k, true, OutOfIterations;
    MonitoredIs(y, k, true);
    SecondTests(y, reduction, k);
    OperatorGives(y, s);
    MSIs(y, k);
    var As := Apply(y.A, Times(y.lambda, s));
    var AsDotAs := Dot(As, As);
    var AsDotS := Dot(As, s);
    if AsDotAs == 0.0 {
      outcome := Converged;
      EndsNow(y, reduction, k, true, x, s, normOfR0, outcome);
      return;
    }
    var omega := Quot(AsDotS, AsDotAs);
    FullStep(y, k, x, s, As, omega, Lin(1.0, x, omega, s), Lin(1.0, s, Neg(omega), As));
    if omega == 0.0 {
      outcome := Failed;
      EndsNow(y, reduction, k, true, x, s, normOfR0, outcome);
      return;
    }
    x' := Lin(1.0, x, omega, s);
    r' := Lin(1.0, s, Neg(omega), As);
    k', half := k + 1, false;
    var normOfR := Norm(r');
    SmallIs(y, reduction, k + 1, false, r', normOfR0);
    rDotR0' := Dot(r', r0);
    if normOfR == 0.0 || normOfR < Mul(reduction, normOfR0) {
      outcome := Converged;
      EndsNow(y, reduction, k', false, x', r', normOfR0, outcome);
    } else if rDotR0' == 0.0 {
      outcome := Failed;
      EndsNow(y, reduction, k', false, x', r', normOfR0, outcome);
    } else {
      var beta := Mul(Quot(rDotR0', rDotR0), Quot(alpha, omega));
      p' := Lin(1.0, r', beta, Lin(1.0, p, Neg(omega), Ap));
      NextStep(y, k, x', r', p, Ap, rDotR0, alpha, omega, p');
    }
  }

  /** The loop body up to its first convergence test. */
  method FirstHalf(y: Problem, reduction: real, r0: Vec, normOfR0: real, k: nat,
                   x: Vec, r: Vec, p: Vec, rDotR0: real)
    returns (x': Vec, s: Vec, Ap: Vec, alpha: real, half: bool, outcome: Outcome)
    requires ValidProblem(y) && Holds(y, k, x, r, p)
    requires r0 == R0(y) && normOfR0 == Norm(r0) && |r| == y.n && rDotR0 == Dot(r, r0)
    ensures outcome == OutOfIterations ==>
              && HalfGoes(y, reduction, k)
              && |x'| == |s| == |Ap| == y.n && Reached(y, k, true)
              && x' == HalfX(y, k) && s == S(y, k) && Ap == MP(y, k) && Dot(Ap, r0) != 0.0 && alpha == Alpha(y, k)
    ensures outcome != OutOfIterations ==>
              Ends(y, reduction, k, half, x', outcome) && Tests(y, reduction)(k) == Stop(k, half, outcome)
  {
    hide *;
    FirstTests(y, reduction, k);
    HoldsMeans(y, k, x, r, p);
    MonitoredIs(y, k, false);
    x', s, alpha, half, outcome := x, r, 0.0, false, OutOfIterations;
    OperatorGives(y, p);
    MPIs(y, k);
    Ap := Apply(y.A, Times(y.lambda, p));
    var ApDotR0 := Dot(Ap, r0);
    if ApDotR0 == 0.0 {
      outcome := Failed;
      EndsNow(y, reduction, k, false, x, r, normOfR0, outcome);
    } else {
      alpha := Quot(rDotR0, ApDotR0);
      x' := Lin(1.0, x, alpha, p);
      s := Lin(1.0, r, Neg(alpha), Ap);
      half := true;
      HalfStep(y, k, x, r, p, Ap, alpha, x', s);
      var normOfS := Norm(s);
      SmallIs(y, reduction, k, true, s, normOfR0);
      if normOfS == 0.0 || normOfS < Mul(reduction, normOfR0) {
        outcome := Converged;
        EndsNow(y, reduction, k, true, x', s, normOfR0, outcome);
      }
    }
  }

  /** BiCGStab: the result is an iterate, scaled back by lambda, and the solver stops
      where the first of the tests fires. */
  method BiCGStab(y: Problem, reduction: real) returns (x: Vec, k: nat, half: bool, outcome: Outcome)
    requires ValidProblem(y)
    ensures Ends(y, reduction, k, half, Iterate(y, k, half), outcome)
    ensures x == Times(y.lambda, Iterate(y, k, half)) 
    ensures Stop(k, half, outcome) == Run(Tests(y, reduction), Solved(y), JMAX)
  {
    hide *;
    HoldsAtStart(y);
    x := y.x0;
    var r0 := Residual(y.A, y.b, y.x0);
    var r, p := r0, r0;
    var rDotR0 := Dot(r, r0);
    var normOfR0 := Norm(r);
    var j: nat := 0;
    k, half, outcome := 0, false, OutOfIterations;
    SolvedIs(y);
    ghost var step, done := Tests(y, reduction), Solved(y);
    SoFarStarts(step, done, JMAX);
    if rDotR0 == 0.0 || normOfR0 == 0.0 {
      outcome := Converged;
      EndsNow(y, reduction, 0, false, x, r0, normOfR0, outcome);
    }
    while j < JMAX && outcome == OutOfIterations
      invariant j <= JMAX
      invariant outcome == OutOfIterations ==>
                  !half && j == k && Holds(y, k, x, r, p) && |r| == y.n && rDotR0 == Dot(r, r0)
      invariant outcome != OutOfIterations ==> Ends(y, reduction, k, half, x, outcome)
      invariant SoFar(step, done, k, JMAX, Stop(k, half, outcome))
      decreases JMAX - j
    {
      HoldsMeans(y, k, x, r, p);
      ghost var was := k;
      j := j + 1;
      var s, Ap, alpha;
      x, s, Ap, alpha, half, outcome := FirstHalf(y, reduction, r0, normOfR0, k, x, r, p, rDotR0);
      if outcome == OutOfIterations {
        x, r, p, rDotR0, k, half, outcome := SecondHalf(y, reduction, r0, normOfR0, k, x, s, p, Ap, alpha, rDotR0);
      }
      OneMore(step, done, was, JMAX, Stop(k, half, outcome));
    }
    if outcome == OutOfIterations {
      HoldsMeans(y, k, x, r, p);
      MonitoredIs(y, k, false);
      EndsNow(y, reduction, k, false, x, r, normOfR0, outcome);
    }
    SoFarEnds(step, done, k, JMAX, Stop(k, half, outcome));
    EndsAt(y, reduction, k, half, x, outcome);
    x := Times(y.lambda, x);
  }

  lemma EndsAt(y: Problem, reduction: real, k: nat, half: bool, x: Vec, outcome: Outcome)
    requires ValidProblem(y) && Ends(y, reduction, k, half, x, outcome)
    ensures x == Iterate(y, k, half) && |x| == |y.lambda|
  {
    hide Iterate, Reached, Stops;
  }

  lemma MPIs(y: Problem, k: nat)
    requires ValidProblem(y)
    ensures MP(y, k) == M(y, P(y, k))
  {
  }

  lemma MSIs(y: Problem, k: nat)
    requires ValidProblem(y)
    ensures MS(y, k) == M(y, S(y, k))
  {
  }
}
