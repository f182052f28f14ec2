/** When the BiCGStab solvers report something other than what happened, and inputs on
    which they do. */
module SolverFailures {
  import opened GridVectors
  import opened SquareRoots
  import opened SolverRuns
  import opened BiCGStab
  import CG = ConjugateGradient
  import CA = CommAvoidingBiCGStab
  import KB = KrylovBasis

  // ----- vectors whose square vanishes

  lemma {:induction false} SquareZero(v: Vec)
    ensures Dot(v, v) >= 0.0
    ensures Dot(v, v) == 0.0 <==> forall i :: 0 <= i < |v| ==> v[i] == 0.0
  {
    if v != [] {
      SquareZero(v[1..]);
      MulSquare(v[0]);
      assert forall i :: 0 < i < |v| ==> v[i] == v[1..][i - 1];
      hide Mul;
    }
  }

  lemma MulSquare(x: real)
    ensures Mul(x, x) >= 0.0 && (Mul(x, x) == 0.0 <==> x == 0.0)
  {
    MulEven(x);
    MulPositive(x, x);
    MulPositive(-x, -x);
    if x == 0.0 {
      assert Mul(x, x) == 0.0;
    }
    hide Mul;
  }

  lemma MulEven(x: real)
    ensures Mul(x, x) == Mul(-x, -x)
  {
  }

  lemma MulPositive(a: real, b: real)
    ensures a > 0.0 && b > 0.0 ==> Mul(a, b) > 0.0
  {
  }

  lemma {:induction false} NormZero(v: Vec)
    ensures Norm(v) >= 0.0
    ensures Norm(v) == 0.0 <==> forall i :: 0 <= i < |v| ==> v[i] == 0.0
  {
    if v != [] {
      NormZero(v[1..]);
      assert forall i :: 0 < i < |v| ==> v[i] == v[1..][i - 1];
    }
  }

  lemma SquareOfZero(v: Vec)
    ensures Dot(v, v) == 0.0 <==> v == Zero(|v|)
  {
    SquareZero(v);
    hide Dot;
  }

  // ----- convergence reported at a half step that did not reduce the residual

  /** The run comes to the half step of step k, and its convergence test fails there. */
  ghost predicate AtHalf(y: Problem, reduction: real, k: nat)
    requires ValidProblem(y)
  {
    k < CG.JMAX && !Solved(y) && HalfGoes(y, reduction, k) && GoesTo(Tests(y, reduction), k)
  }

  /** The run ends with success, and the residual is not small. */
  ghost predicate FalselyConverged(y: Problem, reduction: real)
    requires ValidProblem(y)
  {
    var t := Run(Tests(y, reduction), Solved(y), CG.JMAX);
    t.outcome == Converged && !Small(y, reduction, t.k, t.half)
  }

  /** What a step that reports convergence saw. */
  lemma ConvergedBy(y: Problem, reduction: real, j: nat)
    requires ValidProblem(y)
    ensures var t := Tests(y, reduction)(j);
            t.outcome == Converged && !Small(y, reduction, t.k, t.half) <==>
              HalfGoes(y, reduction, j) && Dot(MS(y, j), MS(y, j)) == 0.0
    ensures HalfGoes(y, reduction, j) && Dot(MS(y, j), MS(y, j)) == 0.0 ==>
              Tests(y, reduction)(j) == Stop(j, true, Converged)
  {
    hide Linear, Dot, MP, R0, Small, MS, Omega, R;
  }

  /** BiCGStab reports convergence with a residual that is not small if and only if it
      comes to a half step whose residual the operator maps to zero. */
  lemma FalseConvergenceExactly(y: Problem, reduction: real)
    requires ValidProblem(y)
    ensures FalselyConverged(y, reduction) <==> exists k :: AtHalf(y, reduction, k) && MS(y, k) == Zero(y.n)
  {
    var step := Tests(y, reduction);
    var t := Run(step, Solved(y), CG.JMAX);
    InitialSize(y, reduction);
    hide Small, Dot, MS, Linear, HalfGoes, Steps, Solved, GoesTo, Tests;
    if FalselyConverged(y, reduction) {
      StoppedExactly(step, CG.JMAX, t);
      var j: nat :| j < CG.JMAX && GoesTo(step, j) && step(j) == t;
      ConvergedBy(y, reduction, j);
      SquareOfZero(MS(y, j));
      assert AtHalf(y, reduction, j);
    }
    if k :| AtHalf(y, reduction, k) && MS(y, k) == Zero(y.n) {
      SquareOfZero(MS(y, k));
      ConvergedBy(y, reduction, k);
      StoppedExactly(step, CG.JMAX, Stop(k, true, Converged));
    }
  }

  lemma InitialSize(y: Problem, reduction: real)
    requires ValidProblem(y)
    ensures Solved(y) ==> Small(y, reduction, 0, false)
  {
    SquareZero(R0(y));
    NormZero(R0(y));
    hide Dot, Norm, R0, Linear;
    assert Monitored(y, 0, false) == R0(y);
  }

  // ----- the communication-avoiding forms at such a half step

  /** With a square root, the reduction test compares the squares of the norms. */
  lemma ReducedExactly(y: Problem, root: real -> real, reduction: real, k: nat, half: bool)
    requires ValidProblem(y) && IsRoot(root) && reduction >= 0.0
    ensures CA.Reduced(y, root, reduction, k, half) <==>
              var r := Monitored(y, k, half);
              Dot(r, r) < Mul(Mul(reduction, reduction), Dot(R0(y), R0(y)))
  {
    hide *;
    var r, first := Monitored(y, k, half), root(Dot(R0(y), R0(y)));
    SquareZero(r);
    SquareZero(R0(y));
    NormFromSquare(root, Dot(r, r));
    NormFromSquare(root, Dot(R0(y), R0(y)));
    CA.ReducedIs(y, root, reduction, k, half, r, Dot(r, r), first);
    RootBelow(root, Dot(r, r), reduction, Dot(R0(y), R0(y)));
  }

  lemma NormFromSquare(root: real -> real, square: real)
    requires IsRoot(root) && square >= 0.0
    ensures CA.HalfNorm(root, square) == KB.L2(root, square) == KB.Sqrt(root, square) == root(square)
  {
    RootAt(root, square);
    hide IsRoot;
  }

  /** A run of at most `last` steps comes to the half step of step k, and its convergence
      test fails there. */
  ghost predicate CaAtHalf(y: Problem, root: real -> real, reduction: real, last: nat, k: nat)
    requires ValidProblem(y)
  {
    && k < last && !Solved(y) && CA.CaHalfGoes(y, root, reduction, k)
    && GoesTo(CA.CaTests(y, root, reduction), k)
  }

  lemma FailedBy(y: Problem, root: real -> real, reduction: real, j: nat)
    requires ValidProblem(y)
    ensures var t := CA.CaTests(y, root, reduction)(j);
            t.half && t.outcome == Failed <==>
              CA.CaHalfGoes(y, root, reduction, j) && Dot(MS(y, j), MS(y, j)) == 0.0
    ensures CA.CaHalfGoes(y, root, reduction, j) && Dot(MS(y, j), MS(y, j)) == 0.0 ==>
              CA.CaTests(y, root, reduction)(j) == Stop(j, true, Failed)
  {
    hide Linear, Dot, MP, R0, CA.Reduced, MS, Omega, Beta, R;
  }

  /** The communication-avoiding forms, whatever the number of steps per basis, fail at a
      half step if and only if they come to one whose residual is not small and is mapped
      to zero by the operator. */
  lemma CaFailsThere(y: Problem, root: real -> real, reduction: real, last: nat, k: nat)
    requires ValidProblem(y)
    ensures Run(CA.CaTests(y, root, reduction), Solved(y), last) == Stop(k, true, Failed) <==>
              CaAtHalf(y, root, reduction, last, k) && MS(y, k) == Zero(y.n)
  {
    var step, t := CA.CaTests(y, root, reduction), Stop(k, true, Failed);
    hide Dot, MS, Linear, CA.CaHalfGoes, Steps, Solved, GoesTo, CA.CaTests;
    SquareOfZero(MS(y, k));
    FailedBy(y, root, reduction, k);
    StoppedExactly(step, last, t);
    if !Solved(y) && Run(step, false, last) == t {
      var j: nat :| j < last && GoesTo(step, j) && step(j) == t;
      FailedBy(y, root, reduction, j);
      assert j == k;
    }
  }

  /** An operator that maps no other grid to zero never causes it. */
  lemma InjectiveNever(y: Problem, reduction: real)
    requires ValidProblem(y)
    requires forall v: Vec {:trigger M(y, v)} :: |v| == y.n && M(y, v) == Zero(y.n) ==> v == Zero(y.n)
    ensures !FalselyConverged(y, reduction)
  {
    FalseConvergenceExactly(y, reduction);
    if FalselyConverged(y, reduction) {
      var k :| AtHalf(y, reduction, k) && MS(y, k) == Zero(y.n);
      assert M(y, S(y, k)) == Zero(y.n);
      NormZero(S(y, k));
      SecondTests(y, reduction, k);
      MonitoredIs(y, k, true);
      ZeroIsSmall(y, reduction, k);
    }
  }

  lemma ZeroIsSmall(y: Problem, reduction: real, k: nat)
    requires ValidProblem(y) && Norm(S(y, k)) == 0.0
    ensures Small(y, reduction, k, true)
  {
    hide Norm, S, Linear;
  }

  // ----- an input on which it happens

  /** The operator (v0 + v1, 0), which maps (-1, 1) to zero. */
  function Merge(v: Vec): Vec {
    if |v| == 2 then [v[0] + v[1], 0.0] else []
  }

  function MergeProblem(): Problem {
    Problem(2, v => Merge(v), [1.0, 1.0], [1.0, 1.0], [0.0, 0.0])
  }

  lemma MergeIsLinear()
    ensures ValidProblem(MergeProblem())
  {
    var A := MergeProblem().A;
    forall a: real, x: Vec, b: real, z: Vec | |x| == |z| == 2
      ensures Apply(A, Lin(a, x, b, z)) == Lin(a, Apply(A, x), b, Apply(A, z))
    {
      MergeLin(a, x, b, z);
    }
  }

  lemma MergeLin(a: real, x: Vec, b: real, z: Vec)
    requires |x| == |z| == 2
    ensures Merge(Lin(a, x, b, z)) == Lin(a, Merge(x), b, Merge(z))
  {
    assert Axby(a, x[0] + x[1], b, z[0] + z[1]) == Axby(a, x[0], b, z[0]) + Axby(a, x[1], b, z[1]);
  }

  lemma Dot1(a: real, b: real)
    ensures Dot([a], [b]) == a * b && Norm([a]) == Abs(a)
  {
    assert [a][1..] == [] && [b][1..] == [];
  }

  lemma Dot2(v: Vec, w: Vec)
    requires |v| == |w| == 2
    ensures Dot(v, w) == v[0] * w[0] + v[1] * w[1]
  {
    Dot1(v[1], w[1]);
    assert v[1..] == [v[1]] && w[1..] == [w[1]];
  }

  lemma Norm2(v: Vec)
    requires |v| == 2
    ensures Norm(v) == if Abs(v[0]) > Abs(v[1]) then Abs(v[0]) else Abs(v[1])
  {
    Dot1(v[1], v[1]);
    assert v[1..] == [v[1]];
  }

  lemma MergeStart()
    requires ValidProblem(MergeProblem())
    ensures R0(MergeProblem()) == [1.0, 1.0] && R(MergeProblem(), 0) == [1.0, 1.0] &&
            MP(MergeProblem(), 0) == [2.0, 0.0]
  {
    var y := MergeProblem();
    var Ax := Apply(y.A, y.x0);
    assert Ax == [0.0, 0.0];
    assert R0(y) == [1.0, 1.0];
    assert P(y, 0) == [1.0, 1.0];
    assert Times(y.lambda, P(y, 0)) == [1.0, 1.0];
  }

  lemma MergeHalf()
    requires ValidProblem(MergeProblem())
    ensures Alpha(MergeProblem(), 0) == 1.0 && S(MergeProblem(), 0) == [-1.0, 1.0] &&
            MS(MergeProblem(), 0) == [0.0, 0.0]
  {
    var y := MergeProblem();
    MergeStart();
    SIs(y, 0);
    Dot2([1.0, 1.0], [1.0, 1.0]);
    Dot2([2.0, 0.0], [1.0, 1.0]);
    hide R0, R, MP, Dot, Alpha, S;
    assert Alpha(y, 0) == 1.0;
    assert S(y, 0) == [-1.0, 1.0];
    assert Times(y.lambda, [-1.0, 1.0]) == [-1.0, 1.0];
    assert M(y, [-1.0, 1.0]) == [0.0, 0.0];
  }

  /** With a square root, the reduction test at the half step fails. */
  lemma MergeNotReduced(root: real -> real)
    requires ValidProblem(MergeProblem()) && IsRoot(root)
    ensures !CA.Reduced(MergeProblem(), root, 0.5, 0, true)
  {
    var y := MergeProblem();
    MergeStart();
    MergeHalf();
    Dot2([1.0, 1.0], [1.0, 1.0]);
    Dot2([-1.0, 1.0], [-1.0, 1.0]);
    MonitoredIs(y, 0, true);
    ReducedExactly(y, root, 0.5, 0, true);
    hide R0, R, MP, Dot, Alpha, S, Norm, MS, M, Linear, MergeProblem, Monitored, CA.Reduced, IsRoot;
    assert Mul(Mul(0.5, 0.5), 2.0) == 0.5;
  }

  lemma MergeGoes(root: real -> real)
    requires ValidProblem(MergeProblem()) && IsRoot(root)
    ensures !Solved(MergeProblem()) && HalfGoes(MergeProblem(), 0.5, 0) && CA.CaHalfGoes(MergeProblem(), root, 0.5, 0)
    ensures Norm(S(MergeProblem(), 0)) == Norm(R0(MergeProblem())) == 1.0 && MS(MergeProblem(), 0) == Zero(2)
  {
    var y := MergeProblem();
    MergeStart();
    MergeHalf();
    MergeNotReduced(root);
    Norm2([1.0, 1.0]);
    Norm2([-1.0, 1.0]);
    Dot2([1.0, 1.0], [1.0, 1.0]);
    Dot2([2.0, 0.0], [1.0, 1.0]);
    MonitoredIs(y, 0, true);
    assert Mul(0.5, 1.0) == 0.5;
    hide R0, R, MP, Dot, Alpha, S, Norm, MS, M, Linear, MergeProblem, Monitored, Mul, CA.Reduced;
    SmallIs(y, 0.5, 0, true, S(y, 0), 1.0);
    SolvedIs(y);
  }

  /** Here BiCGStab reports convergence with the residual as large as it was, and the
      communication-avoiding forms, with bases of any size, report a failure. */
  lemma MergeFails(root: real -> real, last: nat)
    requires IsRoot(root) && last > 0
    ensures ValidProblem(MergeProblem())
    ensures Run(Tests(MergeProblem(), 0.5), Solved(MergeProblem()), CG.JMAX) == Stop(0, true, Converged)
    ensures FalselyConverged(MergeProblem(), 0.5)
    ensures Norm(S(MergeProblem(), 0)) == Norm(R0(MergeProblem())) == 1.0
    ensures Run(CA.CaTests(MergeProblem(), root, 0.5), Solved(MergeProblem()), last) == Stop(0, true, Failed)
  {
    var y := MergeProblem();
    MergeIsLinear();
    MergeGoes(root);
    SquareOfZero(MS(y, 0));
    assert CG.JMAX == 200;
    hide R0, Dot, S, Norm, MS, MergeProblem, Solved, HalfGoes, Small, CA.CaHalfGoes, CA.CaTests, Tests, Linear, Steps;
    CaFailsThere(y, root, 0.5, last, 0);
    ConvergedBy(y, 0.5, 0);
    StoppedExactly(Tests(y, 0.5), CG.JMAX, Stop(0, true, Converged));
  }

  // ----- an initial guess whose scaling the operator sees

  /** Twice the identity, with the reciprocals of its diagonal. */
  function DoubleProblem(): Problem {
    Problem(1, v => if |v| == 1 then [2.0 * v[0]] else [], [0.5], [1.0], [1.0])
  }

  lemma DoubleIsLinear()
    ensures ValidProblem(DoubleProblem())
  {
    var y := DoubleProblem();
    forall a: real, x: Vec, b: real, z: Vec | |x| == |z| == 1
      ensures Apply(y.A, Lin(a, x, b, z)) == Lin(a, Apply(y.A, x), b, Apply(y.A, z))
    {
      assert 2.0 * Axby(a, x[0], b, z[0]) == Axby(a, 2.0 * x[0], b, 2.0 * z[0]);
    }
  }

  /** With a guess of one the monitored residual is not that of the result. */
  lemma GuessIsScaled()
    ensures ValidProblem(DoubleProblem())
    ensures Apply(DoubleProblem().A, Times(DoubleProblem().lambda, DoubleProblem().x0)) !=
            Apply(DoubleProblem().A, DoubleProblem().x0)
    ensures R(DoubleProblem(), 0) != TrueResidual(DoubleProblem(), X(DoubleProblem(), 0))
  {
    hide *;
    DoubleIsLinear();
    DoubleValues();
    MonitorsTrueResidual(DoubleProblem(), 0);
  }

  lemma DoubleValues()
    ensures |DoubleProblem().lambda| == |DoubleProblem().x0|
    ensures Apply(DoubleProblem().A, Times(DoubleProblem().lambda, DoubleProblem().x0)) !=
            Apply(DoubleProblem().A, DoubleProblem().x0)
  {
    var y := DoubleProblem();
    assert Times(y.lambda, y.x0) == [0.5];
    assert Apply(y.A, [0.5])[0] == 1.0 && Apply(y.A, [1.0])[0] == 2.0;
  }
}
