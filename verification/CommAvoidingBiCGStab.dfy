/** The communication-avoiding forms of BiCGStab, with a fixed and with a growing
    number of steps per basis.  In exact arithmetic they walk through the iterates of
    the plain method. */
module CommAvoidingBiCGStab {
  import opened GridVectors
  import opened SolverRuns
  import opened KrylovBasis
  import CG = ConjugateGradient
  import opened BiCGStab

  /** After n inner steps from iterate m: the coefficients stand for the direction,
      the residual and the correction of iterate m + n, and reach at most the power
      2n. */
  ghost predicate Stands(y: Problem, V: seq<Vec>, q: nat, m: nat, n: nat, aj: Vec, cj: Vec, ej: Vec)
    requires ValidProblem(y)
  {
    && |aj| == |cj| == |ej| == 2 * q + 1 && Family(V, y.n, 2 * q + 1)
    && Value(V, y.n, aj) == P(y, m + n)
    && Value(V, y.n, cj) == R(y, m + n)
    && Lin(1.0, X(y, m), 1.0, Value(V, y.n, ej)) == X(y, m + n)
    && Reach(q, aj, 2 * n, 2 * n - 1)
    && Reach(q, cj, 2 * n, CjReach(n))
  }

  function CjReach(n: nat): int {
    if n == 0 then 0 else 2 * n - 1
  }

  lemma StandsMeans(y: Problem, V: seq<Vec>, q: nat, m: nat, n: nat, aj: Vec, cj: Vec, ej: Vec)
    requires ValidProblem(y) && Stands(y, V, q, m, n, aj, cj, ej)
    ensures |aj| == |cj| == |ej| == |V| == 2 * q + 1 && Family(V, y.n, 2 * q + 1)
    ensures Value(V, y.n, aj) == P(y, m + n) && Value(V, y.n, cj) == R(y, m + n)
    ensures Lin(1.0, X(y, m), 1.0, Value(V, y.n, ej)) == X(y, m + n)
    ensures Reach(q, aj, 2 * n, 2 * n - 1) && Reach(q, cj, 2 * n, CjReach(n))
  {
    hide Linear, At, P, R, X, Value, Reach, Lin;
  }

  lemma StandsAtStart(y: Problem, V: seq<Vec>, q: nat, m: nat)
    requires ValidProblem(y) && Powers(Op(y), y.n, V, q, P(y, m), R(y, m))
    ensures Stands(y, V, q, m, 0, Unit(2 * q + 1, 0), Unit(2 * q + 1, q + 1), Zero(2 * q + 1))
  {
    hide Lin, Linear, At, Op, P, R, X;
    ValueStart(V, y.n, 2 * q + 1, 0);
    ValueStart(V, y.n, 2 * q + 1, q + 1);
    LinOneZero(X(y, m));
  }

  /** The shifted coefficients stand for the operator applied once and twice. */
  lemma Shifted(y: Problem, V: seq<Vec>, q: nat, m: nat, n: nat, aj: Vec, cj: Vec, ej: Vec,
                ta: Vec, tc: Vec, tta: Vec)
    requires ValidProblem(y) && Powers(Op(y), y.n, V, q, P(y, m), R(y, m)) && 2 * n + 2 <= q
    requires Stands(y, V, q, m, n, aj, cj, ej) && |aj| == |cj| == |V| == 2 * q + 1 && Family(V, y.n, |V|)
    requires ta == Shift(q, aj) && tc == Shift(q, cj) && tta == ShiftTwo(q, aj)
    ensures |ta| == |tc| == |tta| == |V|
    ensures Value(V, y.n, ta) == MP(y, m + n)
    ensures Value(V, y.n, tc) == M(y, R(y, m + n))
    ensures Value(V, y.n, tta) == M(y, MP(y, m + n))
    ensures Reach(q, ta, 2 * n + 1, 2 * n) && Reach(q, tta, 2 * n + 2, 2 * n + 1)
    ensures Reach(q, tc, 2 * n + 2, 2 * n + 1)
  {
    hide *;
    StandsMeans(y, V, q, m, n, aj, cj, ej);
    MPIs(y, m + n);
    CjReaches(q, cj, n);
    DoubleShift(q, aj);
    ShiftOnce(y, V, q, m, aj, 2 * n, 2 * n - 1, ta, 2 * n + 1, 2 * n);
    ShiftOnce(y, V, q, m, cj, 2 * n, 2 * n, tc, 2 * n + 2, 2 * n + 1);
    ShiftOnce(y, V, q, m, ta, 2 * n + 1, 2 * n, tta, 2 * n + 2, 2 * n + 1);
  }

  lemma CjReaches(q: nat, cj: Vec, n: nat)
    requires Reach(q, cj, 2 * n, CjReach(n))
    ensures Reach(q, cj, 2 * n, 2 * n)
  {
  }

  lemma ShiftOnce(y: Problem, V: seq<Vec>, q: nat, m: nat, c: Vec, dp: int, dr: int, tc: Vec, ep: int, er: int)
    requires ValidProblem(y) && Powers(Op(y), y.n, V, q, P(y, m), R(y, m)) && |c| == |V| == 2 * q + 1
    requires Family(V, y.n, |V|)
    requires Reach(q, c, dp, dr) && -1 <= dp < q && -1 <= dr < q - 1 && tc == Shift(q, c)
    requires dp + 1 <= ep && dr + 1 <= er
    ensures |tc| == |V| && Value(V, y.n, tc) == M(y, Value(V, y.n, c))
    ensures Reach(q, tc, ep, er)
  {
    hide *;
    OpIs(y);
    ReachShiftable(q, c, dp, dr);
    ShiftIsOperator(Op(y), y.n, V, q, P(y, m), R(y, m), c);
    ReachShift(q, c, dp, dr);
    ReachMore(q, tc, dp + 1, dr + 1, ep, er);
  }

  // ----- one inner step

  /** The correction leads from iterate m to x. */
  ghost predicate Corrects(y: Problem, V: seq<Vec>, m: nat, ej: Vec, x: Vec)
    requires ValidProblem(y)
  {
    Family(V, y.n, |ej|) && Lin(1.0, X(y, m), 1.0, Value(V, y.n, ej)) == x
  }

  lemma CorrectsMore(y: Problem, V: seq<Vec>, m: nat, ej: Vec, x: Vec, a: real, c: Vec, next: Vec)
    requires ValidProblem(y) && Corrects(y, V, m, ej, x) && |c| == |ej| && Family(V, y.n, |c|) && |x| == y.n
    requires next == Lin(1.0, ej, a, c)
    ensures Corrects(y, V, m, next, Lin(1.0, x, a, Value(V, y.n, c)))
  {
    hide Lin, Value, X, Linear, Family;
    ValueLin(V, y.n, 1.0, ej, a, c);
    LinMove(X(y, m), Value(V, y.n, ej), a, Value(V, y.n, c));
  }

  lemma MLinNeg(y: Problem, k: nat)
    requires ValidProblem(y)
    ensures MS(y, k) == Lin(1.0, M(y, R(y, k)), Neg(Alpha(y, k)), M(y, MP(y, k)))
  {
    SIs(y, k);
    hide Lin, M, R, MP, Alpha, Linear, S;
    MLin(y, 1.0, R(y, k), Neg(Alpha(y, k)), MP(y, k));
  }

  /** The half step and its image, and their products through the Gram matrix. */
  lemma HalfValues(y: Problem, V: seq<Vec>, k: nat, cj: Vec, ta: Vec, tc: Vec, tta: Vec, t1: Vec, t3: Vec)
    requires ValidProblem(y) && Family(V, y.n, |V|) && |cj| == |ta| == |tc| == |tta| == |V|
    requires Value(V, y.n, cj) == R(y, k) && Value(V, y.n, ta) == MP(y, k)
    requires Value(V, y.n, tc) == M(y, R(y, k)) && Value(V, y.n, tta) == M(y, MP(y, k))
    requires t1 == Lin(1.0, tc, Neg(Alpha(y, k)), tta) && t3 == Lin(1.0, cj, Neg(Alpha(y, k)), ta)
    ensures Value(V, y.n, t1) == MS(y, k) && Value(V, y.n, t3) == S(y, k)
    ensures Dot(t3, GramTimes(V, y.n, t1)) == Dot(MS(y, k), S(y, k))
    ensures Dot(t1, GramTimes(V, y.n, t1)) == Dot(MS(y, k), MS(y, k))
    ensures Dot(t3, GramTimes(V, y.n, t3)) == Dot(S(y, k), S(y, k))
  {
    hide *;
    MLinNeg(y, k);
    SIs(y, k);
    ValueLin(V, y.n, 1.0, tc, Neg(Alpha(y, k)), tta);
    ValueLin(V, y.n, 1.0, cj, Neg(Alpha(y, k)), ta);
    GramProduct(V, y.n, t3, t1);
    GramProduct(V, y.n, t1, t1);
    GramProduct(V, y.n, t3, t3);
    DotSym(S(y, k), MS(y, k));
  }

  // ----- the grid identities behind the coefficient updates

  lemma SplitX(h: Vec, r: Vec, v: Vec, omega: real, alpha: real)
    requires |h| == |r| == |v|
    ensures Lin(1.0, Lin(1.0, h, omega, r), Neg(Mul(omega, alpha)), v) ==
            Lin(1.0, h, omega, Lin(1.0, r, Neg(alpha), v))
  {
    var left := Lin(1.0, Lin(1.0, h, omega, r), Neg(Mul(omega, alpha)), v);
    var right := Lin(1.0, h, omega, Lin(1.0, r, Neg(alpha), v));
    hide Axby, Lin, Mul, Neg;
    forall i | 0 <= i < |h|
      ensures left[i] == right[i]
    {
      SplitXAt(h[i], r[i], v[i], omega, alpha);
    }
  }

  lemma SplitXAt(h: real, r: real, v: real, omega: real, alpha: real)
    ensures Axby(1.0, Axby(1.0, h, omega, r), Neg(Mul(omega, alpha)), v) ==
            Axby(1.0, h, omega, Axby(1.0, r, Neg(alpha), v))
  {
    assert omega * (r - alpha * v) == omega * r - (omega * alpha) * v;
  }

  lemma SplitR(r: Vec, u: Vec, v: Vec, w: Vec, omega: real, alpha: real)
    requires |r| == |u| == |v| == |w|
    ensures Lin(1.0, Lin(1.0, Lin(1.0, r, Neg(omega), u), Neg(alpha), v), Mul(omega, alpha), w) ==
            Lin(1.0, Lin(1.0, r, Neg(alpha), v), Neg(omega), Lin(1.0, u, Neg(alpha), w))
  {
    var left := Lin(1.0, Lin(1.0, Lin(1.0, r, Neg(omega), u), Neg(alpha), v), Mul(omega, alpha), w);
    var right := Lin(1.0, Lin(1.0, r, Neg(alpha), v), Neg(omega), Lin(1.0, u, Neg(alpha), w));
    hide Axby, Lin, Mul, Neg;
    forall i | 0 <= i < |r|
      ensures left[i] == right[i]
    {
      SplitRAt(r[i], u[i], v[i], w[i], omega, alpha);
    }
  }

  lemma SplitRAt(r: real, u: real, v: real, w: real, omega: real, alpha: real)
    ensures Axby(1.0, Axby(1.0, Axby(1.0, r, Neg(omega), u), Neg(alpha), v), Mul(omega, alpha), w) ==
            Axby(1.0, Axby(1.0, r, Neg(alpha), v), Neg(omega), Axby(1.0, u, Neg(alpha), w))
  {
    assert omega * (u - alpha * w) == omega * u - (omega * alpha) * w;
  }

  lemma SplitP(r: Vec, p: Vec, v: Vec, omega: real, beta: real)
    requires |r| == |p| == |v|
    ensures Lin(1.0, Lin(1.0, r, beta, p), Neg(Mul(omega, beta)), v) ==
            Lin(1.0, r, beta, Lin(1.0, p, Neg(omega), v))
  {
    var left := Lin(1.0, Lin(1.0, r, beta, p), Neg(Mul(omega, beta)), v);
    var right := Lin(1.0, r, beta, Lin(1.0, p, Neg(omega), v));
    hide Axby, Lin, Mul, Neg;
    forall i | 0 <= i < |r|
      ensures left[i] == right[i]
    {
      SplitPAt(r[i], p[i], v[i], omega, beta);
    }
  }

  lemma SplitPAt(r: real, p: real, v: real, omega: real, beta: real)
    ensures Axby(1.0, Axby(1.0, r, beta, p), Neg(Mul(omega, beta)), v) ==
            Axby(1.0, r, beta, Axby(1.0, p, Neg(omega), v))
  {
    assert beta * (p - omega * v) == beta * p - (omega * beta) * v;
  }

  // ----- the coefficient updates

  /** ej after the full step. */
  lemma NextEj(y: Problem, V: seq<Vec>, m: nat, k: nat, half: Vec, cj: Vec, ta: Vec, e1: Vec, e2: Vec)
    requires ValidProblem(y) && Family(V, y.n, |V|) && |half| == |cj| == |ta| == |V|
    requires Corrects(y, V, m, half, HalfX(y, k))
    requires Value(V, y.n, cj) == R(y, k) && Value(V, y.n, ta) == MP(y, k)
    requires e1 == Lin(1.0, half, Omega(y, k), cj) && e2 == Lin(1.0, e1, Neg(Mul(Omega(y, k), Alpha(y, k))), ta)
    ensures Corrects(y, V, m, e2, X(y, k + 1))
  {
    hide *;
    CorrectsMore(y, V, m, half, HalfX(y, k), Omega(y, k), cj, e1);
    CorrectsMore(y, V, m, e1, Lin(1.0, HalfX(y, k), Omega(y, k), R(y, k)), Neg(Mul(Omega(y, k), Alpha(y, k))), ta, e2);
    SplitX(HalfX(y, k), R(y, k), MP(y, k), Omega(y, k), Alpha(y, k));
    SIs(y, k);
    StepOf(y, k);
  }

  /** cj after the full step. */
  lemma NextCj(y: Problem, V: seq<Vec>, k: nat, cj: Vec, ta: Vec, tc: Vec, tta: Vec, c1: Vec, c2: Vec, c3: Vec)
    requires ValidProblem(y) && Family(V, y.n, |V|) && |cj| == |ta| == |tc| == |tta| == |V|
    requires Value(V, y.n, cj) == R(y, k) && Value(V, y.n, ta) == MP(y, k)
    requires Value(V, y.n, tc) == M(y, R(y, k)) && Value(V, y.n, tta) == M(y, MP(y, k))
    requires c1 == Lin(1.0, cj, Neg(Omega(y, k)), tc) && c2 == Lin(1.0, c1, Neg(Alpha(y, k)), ta)
    requires c3 == Lin(1.0, c2, Mul(Omega(y, k), Alpha(y, k)), tta)
    ensures Value(V, y.n, c3) == R(y, k + 1)
  {
    hide *;
    ValueLin(V, y.n, 1.0, cj, Neg(Omega(y, k)), tc);
    ValueLin(V, y.n, 1.0, c1, Neg(Alpha(y, k)), ta);
    ValueLin(V, y.n, 1.0, c2, Mul(Omega(y, k), Alpha(y, k)), tta);
    SplitR(R(y, k), M(y, R(y, k)), MP(y, k), M(y, MP(y, k)), Omega(y, k), Alpha(y, k));
    MLinNeg(y, k);
    SIs(y, k);
    StepOf(y, k);
  }

  /** aj after the full step. */
  lemma NextAj(y: Problem, V: seq<Vec>, k: nat, aj: Vec, ta: Vec, cNext: Vec, a1: Vec, a2: Vec)
    requires ValidProblem(y) && Family(V, y.n, |V|) && |aj| == |ta| == |cNext| == |V|
    requires Value(V, y.n, aj) == P(y, k) && Value(V, y.n, ta) == MP(y, k) && Value(V, y.n, cNext) == R(y, k + 1)
    requires a1 == Lin(1.0, cNext, Beta(y, k), aj) && a2 == Lin(1.0, a1, Neg(Mul(Omega(y, k), Beta(y, k))), ta)
    ensures Value(V, y.n, a2) == P(y, k + 1)
  {
    hide *;
    ValueLin(V, y.n, 1.0, cNext, Beta(y, k), aj);
    ValueLin(V, y.n, 1.0, a1, Neg(Mul(Omega(y, k), Beta(y, k))), ta);
    SplitP(R(y, k + 1), P(y, k), MP(y, k), Omega(y, k), Beta(y, k));
    StepOf(y, k);
  }

  /** How far the coefficients of inner step n and their images reach. */
  predicate Reaches(q: nat, n: nat, aj: Vec, cj: Vec, ta: Vec, tc: Vec, tta: Vec) {
    && Reach(q, aj, 2 * n, 2 * n - 1) && Reach(q, cj, 2 * n, CjReach(n))
    && Reach(q, ta, 2 * n + 1, 2 * n) && Reach(q, tc, 2 * n + 2, 2 * n + 1) && Reach(q, tta, 2 * n + 2, 2 * n + 1)
  }

  /** How far the coefficients reach after the full step. */
  lemma NextReach(q: nat, n: nat, aj: Vec, cj: Vec, ta: Vec, tc: Vec, tta: Vec, alpha: real, beta: real, omega: real,
                  c1: Vec, c2: Vec, c3: Vec, a1: Vec, a2: Vec)
    requires |aj| == |cj| == |ta| == |tc| == |tta| == 2 * q + 1
    requires Reaches(q, n, aj, cj, ta, tc, tta)
    requires c1 == Lin(1.0, cj, Neg(omega), tc) && c2 == Lin(1.0, c1, Neg(alpha), ta)
    requires c3 == Lin(1.0, c2, Mul(omega, alpha), tta)
    requires a1 == Lin(1.0, c3, beta, aj) && a2 == Lin(1.0, a1, Neg(Mul(omega, beta)), ta)
    ensures Reach(q, c3, 2 * (n + 1), CjReach(n + 1)) && Reach(q, a2, 2 * (n + 1), 2 * (n + 1) - 1)
  {
    hide Reach, Lin, Neg, Mul;
    var d, f := 2 * n + 2, 2 * n + 1;
    ReachMore(q, aj, 2 * n, 2 * n - 1, d, f);
    ReachMore(q, cj, 2 * n, CjReach(n), d, f);
    ReachMore(q, ta, 2 * n + 1, 2 * n, d, f);
    ReachLin(q, 1.0, cj, Neg(omega), tc, d, f);
    ReachLin(q, 1.0, c1, Neg(alpha), ta, d, f);
    ReachLin(q, 1.0, c2, Mul(omega, alpha), tta, d, f);
    ReachLin(q, 1.0, c3, beta, aj, d, f);
    ReachLin(q, 1.0, a1, Neg(Mul(omega, beta)), ta, d, f);
    ReachMore(q, c3, d, f, 2 * (n + 1), CjReach(n + 1));
    ReachMore(q, a2, d, f, 2 * (n + 1), 2 * (n + 1) - 1);
  }

  // ----- stopping

  /** The norm of the half step from its square. */
  function HalfNorm(root: real -> real, square: real): real {
    if square < 0.0 then 0.0 else Sqrt(root, square)
  }

  ghost predicate Reduced(y: Problem, root: real -> real, reduction: real, k: nat, half: bool)
    requires ValidProblem(y)
  {
    var square := Dot(Monitored(y, k, half), Monitored(y, k, half));
    (if half then HalfNorm(root, square) else L2(root, square)) < Mul(reduction, Sqrt(root, Dot(R0(y), R0(y))))
  }

  /** Why the solver stops at iterate k, or half a step further. */
  ghost predicate CaStops(y: Problem, s: nat, root: real -> real, reduction: real, k: nat, half: bool,
                          outcome: Outcome)
    requires ValidProblem(y)
  {
    match outcome
    case OutOfIterations => MMAX <= k < MMAX + s && !half
    case Converged =>
      (k == 0 && !half && (Norm(R0(y)) == 0.0 || Dot(R0(y), R0(y)) == 0.0)) || Reduced(y, root, reduction, k, half)
    case Failed =>
      if half then
        Dot(MS(y, k), MS(y, k)) == 0.0
      else
        || Dot(MP(y, k), R0(y)) == 0.0
        || Dot(R(y, k), R0(y)) == 0.0
        || (k > 0 && (Omega(y, k - 1) == 0.0 || Beta(y, k - 1) == 0.0))
  }

  // ----- which test fires first

  /** The tests of one inner step from iterate k, in their order; OutOfIterations when none
      fires. */
  ghost function CaTest(y: Problem, root: real -> real, reduction: real, k: nat): Stop
    requires ValidProblem(y)
  {
    if Dot(MP(y, k), R0(y)) == 0.0 then Stop(k, false, Failed)
    else if Reduced(y, root, reduction, k, true) then Stop(k, true, Converged)
    else if Dot(MS(y, k), MS(y, k)) == 0.0 then Stop(k, true, Failed)
    else if Reduced(y, root, reduction, k + 1, false) then Stop(k + 1, false, Converged)
    else if Dot(R(y, k + 1), R0(y)) == 0.0 || Omega(y, k) == 0.0 || Beta(y, k) == 0.0 then Stop(k + 1, false, Failed)
    else Stop(k + 1, false, OutOfIterations)
  }

  /** The pivot and the convergence test at the half step let the step go on. */
  ghost predicate CaHalfGoes(y: Problem, root: real -> real, reduction: real, k: nat)
    requires ValidProblem(y)
  {
    Dot(MP(y, k), R0(y)) != 0.0 && !Reduced(y, root, reduction, k, true)
  }

  ghost function CaTests(y: Problem, root: real -> real, reduction: real): nat -> Stop
    requires ValidProblem(y)
  {
    (k: nat) => CaTest(y, root, reduction, k)
  }

  lemma FirstCaTests(y: Problem, root: real -> real, reduction: real, k: nat)
    requires ValidProblem(y)
    ensures Dot(MP(y, k), R0(y)) == 0.0 ==> CaTests(y, root, reduction)(k) == Stop(k, false, Failed)
    ensures Dot(MP(y, k), R0(y)) != 0.0 && Reduced(y, root, reduction, k, true) ==>
              CaTests(y, root, reduction)(k) == Stop(k, true, Converged)
    ensures Dot(MP(y, k), R0(y)) != 0.0 && !Reduced(y, root, reduction, k, true) ==> CaHalfGoes(y, root, reduction, k)
  {
    hide Linear, Dot, MP, R0, R, MS, Reduced, Omega, Beta;
  }

  lemma SecondCaTests(y: Problem, root: real -> real, reduction: real, k: nat)
    requires ValidProblem(y) && CaHalfGoes(y, root, reduction, k)
    ensures CaTests(y, root, reduction)(k) ==
            if Dot(MS(y, k), MS(y, k)) == 0.0 then Stop(k, true, Failed)
            else if Reduced(y, root, reduction, k + 1, false) then Stop(k + 1, false, Converged)
            else if Dot(R(y, k + 1), R0(y)) == 0.0 || Omega(y, k) == 0.0 || Beta(y, k) == 0.0
            then Stop(k + 1, false, Failed)
            else Stop(k + 1, false, OutOfIterations)
  {
    hide Linear, Dot, MP, R0, R, MS, Reduced, Omega, Beta;
  }

  lemma ReducedIs(y: Problem, root: real -> real, reduction: real, k: nat, half: bool, r: Vec, square: real,
                  first: real)
    requires ValidProblem(y) && r == Monitored(y, k, half) && square == Dot(r, r)
    requires first == Sqrt(root, Dot(R0(y), R0(y)))
    ensures Reduced(y, root, reduction, k, half) <==>
              (if half then HalfNorm(root, square) else L2(root, square)) < Mul(reduction, first)
  {
    hide Linear, Dot, Monitored, R0, HalfNorm, L2, Sqrt, Mul;
  }

  /** No divisor has vanished and no test has stopped the solver at iterate k. */
  ghost predicate Going(y: Problem, k: nat)
    requires ValidProblem(y)
  {
    Reached(y, k, false) && (k > 0 ==> Continues(y, k - 1)) && Dot(R(y, k), R0(y)) != 0.0
  }

  lemma GoingHalf(y: Problem, k: nat)
    requires ValidProblem(y) && Going(y, k)
    ensures Reached(y, k, false) && Dot(R(y, k), R0(y)) != 0.0
    ensures Dot(MP(y, k), R0(y)) != 0.0 ==> Reached(y, k, true)
  {
    hide Linear, Dot, R, R0, MP, Divides, Continues;
  }

  lemma GoingNext(y: Problem, k: nat)
    requires ValidProblem(y) && Reached(y, k + 1, false) && Dot(R(y, k), R0(y)) != 0.0
    requires Omega(y, k) != 0.0 && Dot(R(y, k + 1), R0(y)) != 0.0
    ensures Going(y, k + 1)
  {
    hide Linear, Dot, R, R0, MP, Divides, Omega, Reached;
  }

  /** The solver stops with a correction that leads to where it stopped. */
  ghost predicate Ended(y: Problem, V: seq<Vec>, s: nat, root: real -> real, reduction: real, m: nat,
                        k: nat, half: bool, ej: Vec, outcome: Outcome)
    requires ValidProblem(y)
  {
    && Reached(y, k, half) && Corrects(y, V, m, ej, Iterate(y, k, half))
    && CaStops(y, s, root, reduction, k, half, outcome)
  }

  /** The square of the norm the solver tests, and where the test is made. */
  lemma EndedReduced(y: Problem, V: seq<Vec>, s: nat, root: real -> real, reduction: real, m: nat,
                     k: nat, half: bool, ej: Vec, x: Vec, r: Vec, square: real, first: real)
    requires ValidProblem(y) && Reached(y, k, half) && Corrects(y, V, m, ej, x)
    requires x == Iterate(y, k, half) && r == Monitored(y, k, half) && square == Dot(r, r)
    requires first == Sqrt(root, Dot(R0(y), R0(y)))
    requires (if half then HalfNorm(root, square) else L2(root, square)) < Mul(reduction, first)
    ensures Ended(y, V, s, root, reduction, m, k, half, ej, Converged)
  {
    hide Linear, Dot, R0, Reached, Corrects, Iterate, Monitored, HalfNorm, L2, Mul, Norm, MS, MP, R, Omega, Beta;
  }

  lemma EndedFailed(y: Problem, V: seq<Vec>, s: nat, root: real -> real, reduction: real, m: nat,
                    k: nat, half: bool, ej: Vec, x: Vec)
    requires ValidProblem(y) && Reached(y, k, half) && Corrects(y, V, m, ej, x) && x == Iterate(y, k, half)
    requires
      if half then
        Dot(MS(y, k), MS(y, k)) == 0.0
      else
        || Dot(MP(y, k), R0(y)) == 0.0
        || Dot(R(y, k), R0(y)) == 0.0
        || (k > 0 && (Omega(y, k - 1) == 0.0 || Beta(y, k - 1) == 0.0))
    ensures Ended(y, V, s, root, reduction, m, k, half, ej, Failed)
  {
    hide Linear, Dot, R0, Reached, Corrects, Iterate, Reduced, Norm, MS, MP, R, Omega, Beta;
  }

  // ----- the inner loop

  /** g: the products of the basis with the shadow residual. */
  lemma ShadowProduct(y: Problem, V: seq<Vec>, c: Vec)
    requires ValidProblem(y) && Family(V, y.n, |c|)
    ensures |V| == |c| && Dot(DotWith(V, y.n, R0(y)), c) == Dot(Value(V, y.n, c), R0(y))
  {
    hide Dot, R0, Linear, Comb;
    DotThroughBasis(V, c, y.n, R0(y));
  }

  lemma CorrectsFrom(y: Problem, V: seq<Vec>, q: nat, m: nat, n: nat, aj: Vec, cj: Vec, ej: Vec)
    requires ValidProblem(y) && Stands(y, V, q, m, n, aj, cj, ej)
    ensures |aj| == |cj| == |ej| == |V| == 2 * q + 1 && Family(V, y.n, 2 * q + 1) && Family(V, y.n, |V|)
    ensures Value(V, y.n, aj) == P(y, m + n) && Value(V, y.n, cj) == R(y, m + n)
    ensures Corrects(y, V, m, ej, X(y, m + n))
  {
    hide Linear, P, R, X, Value, Reach, Lin;
  }

  /** The coefficients of iterate k and their images under the shifts. */
  ghost predicate Images(y: Problem, V: seq<Vec>, k: nat, aj: Vec, cj: Vec, ta: Vec, tc: Vec, tta: Vec)
    requires ValidProblem(y)
  {
    && Family(V, y.n, |V|) && |aj| == |cj| == |ta| == |tc| == |tta| == |V|
    && Value(V, y.n, aj) == P(y, k) && Value(V, y.n, cj) == R(y, k)
    && Value(V, y.n, ta) == MP(y, k) && Value(V, y.n, tc) == M(y, R(y, k)) && Value(V, y.n, tta) == M(y, MP(y, k))
  }

  lemma ImagesAre(y: Problem, V: seq<Vec>, k: nat, aj: Vec, cj: Vec, ta: Vec, tc: Vec, tta: Vec)
    requires ValidProblem(y) && Images(y, V, k, aj, cj, ta, tc, tta)
    ensures Family(V, y.n, |V|) && |aj| == |cj| == |ta| == |tc| == |tta| == |V|
    ensures Value(V, y.n, aj) == P(y, k) && Value(V, y.n, cj) == R(y, k)
    ensures Value(V, y.n, ta) == MP(y, k) && Value(V, y.n, tc) == M(y, R(y, k)) && Value(V, y.n, tta) == M(y, MP(y, k))
  {
    hide Family, Value, P, R, M, MP, Linear;
  }

  /** The first half of an inner step: alpha, the partial update of the correction,
      and the convergence test that follows it. */
  method InnerHalf(ghost y: Problem, ghost V: seq<Vec>, G: Matrix, g: Vec, s: nat, root: real -> real,
                   reduction: real, first: real, m: nat, k: nat, delta: real,
                   aj: Vec, cj: Vec, ej: Vec, ta: Vec, tc: Vec, tta: Vec)
    returns (half: Vec, alpha: real, num: real, den: real, atHalf: bool, outcome: Outcome)
    requires ValidProblem(y) && |V| == 4 * s + 1 && Images(y, V, k, aj, cj, ta, tc, tta)
    requires Going(y, k) && delta == Dot(R(y, k), R0(y)) && |ej| == |V| && Corrects(y, V, m, ej, X(y, k))
    requires Family(V, y.n, |V|) && G == Gram(V, y.n) && g == DotWith(V, y.n, R0(y))
    requires first == Sqrt(root, Dot(R0(y), R0(y)))
    ensures |half| == |V|
    ensures outcome == OutOfIterations ==>
              && alpha == Alpha(y, k) && Corrects(y, V, m, half, HalfX(y, k)) && Reached(y, k, true)
              && Dot(MP(y, k), R0(y)) != 0.0 && CaHalfGoes(y, root, reduction, k)
              && num == Dot(MS(y, k), S(y, k)) && den == Dot(MS(y, k), MS(y, k))
    ensures outcome != OutOfIterations ==>
              && Ended(y, V, s, root, reduction, m, k, atHalf, half, outcome)
              && CaTests(y, root, reduction)(k) == Stop(k, atHalf, outcome)
  {
    hide *;
    FirstCaTests(y, root, reduction, k);
    ImagesAre(y, V, k, aj, cj, ta, tc, tta);
    GoingHalf(y, k);
    MonitoredIs(y, k, false);
    half, alpha, num, den, atHalf, outcome := ej, 0.0, 0.0, 0.0, false, OutOfIterations;
    ShadowProduct(y, V, ta);
    var gDotTa := Dot(g, ta);
    if gDotTa == 0.0 {
      outcome := Failed;
      EndedFailed(y, V, s, root, reduction, m, k, false, ej, X(y, k));
    } else {
      MonitoredIs(y, k, true);
      SIs(y, k);
      alpha := CG.Quot(delta, gDotTa);
      var t1 := Lin(1.0, tc, Neg(alpha), tta);
      var t3 := Lin(1.0, cj, Neg(alpha), ta);
      HalfValues(y, V, k, cj, ta, tc, tta, t1, t3);
      MatricesGive(V, y.n, 2 * s, t1);
      MatricesGive(V, y.n, 2 * s, t3);
      var t2 := MatVec(G, t1);
      num, den := Dot(t3, t2), Dot(t1, t2);
      half := Lin(1.0, ej, alpha, aj);
      CorrectsMore(y, V, m, ej, X(y, k), alpha, aj, half);
      atHalf := true;
      var square := Dot(t3, MatVec(G, t3));
      ReducedIs(y, root, reduction, k, true, S(y, k), square, first);
      if HalfNorm(root, square) < Mul(reduction, first) {
        outcome := Converged;
        EndedReduced(y, V, s, root, reduction, m, k, true, half, HalfX(y, k), S(y, k), square, first);
      }
    }
  }

  lemma ImagesAndReaches(y: Problem, V: seq<Vec>, q: nat, m: nat, n: nat, aj: Vec, cj: Vec, ej: Vec,
                         ta: Vec, tc: Vec, tta: Vec)
    requires ValidProblem(y) && Powers(Op(y), y.n, V, q, P(y, m), R(y, m)) && 2 * n + 2 <= q
    requires Stands(y, V, q, m, n, aj, cj, ej) && |aj| == |cj| == 2 * q + 1
    requires ta == Shift(q, aj) && tc == Shift(q, cj) && tta == ShiftTwo(q, aj)
    ensures Images(y, V, m + n, aj, cj, ta, tc, tta) && Reaches(q, n, aj, cj, ta, tc, tta)
  {
    StandsMeans(y, V, q, m, n, aj, cj, ej);
    Shifted(y, V, q, m, n, aj, cj, ej, ta, tc, tta);
    hide Family, Value, P, R, M, MP, Linear, Reach, Shift, ShiftTwo, Powers, CjReach;
  }

  lemma StandsNow(y: Problem, V: seq<Vec>, q: nat, m: nat, n: nat, k: nat, aj: Vec, cj: Vec, ej: Vec)
    requires ValidProblem(y) && k == m + n && |aj| == |cj| == |ej| == |V| == 2 * q + 1 && Family(V, y.n, |V|)
    requires Value(V, y.n, aj) == P(y, k) && Value(V, y.n, cj) == R(y, k) && Corrects(y, V, m, ej, X(y, k))
    requires Reach(q, aj, 2 * n, 2 * n - 1) && Reach(q, cj, 2 * n, CjReach(n))
    ensures Stands(y, V, q, m, n, aj, cj, ej)
  {
    hide Value, P, R, X, Linear, Reach, CjReach, Lin, Family;
  }

  /** The second half of an inner step: omega, the full updates, and beta. */
  method InnerFull(ghost y: Problem, ghost V: seq<Vec>, G: Matrix, g: Vec, ghost s: nat, root: real -> real,
                   reduction: real, first: real, m: nat, ghost n: nat, k: nat, delta: real,
                   aj: Vec, cj: Vec, half: Vec, ta: Vec, tc: Vec, tta: Vec, alpha: real, num: real, den: real)
    returns (a: Vec, c: Vec, e: Vec, delta': real, k': nat, atHalf: bool, outcome: Outcome)
    requires ValidProblem(y) && k == m + n && |V| == 4 * s + 1 && Family(V, y.n, |V|)
    requires Images(y, V, k, aj, cj, ta, tc, tta) && Reaches(2 * s, n, aj, cj, ta, tc, tta)
    requires Going(y, k) && delta == Dot(R(y, k), R0(y)) && |half| == |V| && Corrects(y, V, m, half, HalfX(y, k))
    requires G == Gram(V, y.n) && g == DotWith(V, y.n, R0(y)) && first == Sqrt(root, Dot(R0(y), R0(y)))
    requires alpha == Alpha(y, k) && Reached(y, k, true) && Dot(MP(y, k), R0(y)) != 0.0
    requires num == Dot(MS(y, k), S(y, k)) && den == Dot(MS(y, k), MS(y, k)) && CaHalfGoes(y, root, reduction, k)
    ensures |a| == |c| == |e| == |V| && CaTests(y, root, reduction)(k) == Stop(k', atHalf, outcome)
    ensures outcome == OutOfIterations ==>
              && !atHalf && k' == k + 1 && Stands(y, V, 2 * s, m, n + 1, a, c, e)
              && Going(y, k + 1) && delta' == Dot(R(y, k + 1), R0(y))
    ensures outcome != OutOfIterations ==> Ended(y, V, s, root, reduction, m, k', atHalf, e, outcome)
  {
    hide *;
    ImagesAre(y, V, k, aj, cj, ta, tc, tta);
    GoingHalf(y, k);
    OmegaIs(y, k);
    SecondCaTests(y, root, reduction, k);
    MonitoredIs(y, k, true);
    MonitoredIs(y, k + 1, false);
    a, c, e, delta', k', atHalf, outcome := aj, cj, half, delta, k, true, OutOfIterations;
    if den == 0.0 {
      outcome := Failed;
      EndedFailed(y, V, s, root, reduction, m, k, true, half, HalfX(y, k));
    } else {
      var omega := CG.Quot(num, den);
      var e1 := Lin(1.0, half, omega, cj);
      e := Lin(1.0, e1, Neg(Mul(omega, alpha)), ta);
      NextEj(y, V, m, k, half, cj, ta, e1, e);
      var c1 := Lin(1.0, cj, Neg(omega), tc);
      var c2 := Lin(1.0, c1, Neg(alpha), ta);
      c := Lin(1.0, c2, Mul(omega, alpha), tta);
      NextCj(y, V, k, cj, ta, tc, tta, c1, c2, c);
      ReachedNext(y, k);
      k', atHalf := k + 1, false;
      MatricesGive(V, y.n, 2 * s, c);
      GramProduct(V, y.n, c, c);
      var square := Dot(c, MatVec(G, c));
      ShadowProduct(y, V, c);
      delta' := Dot(g, c);
      ReducedIs(y, root, reduction, k + 1, false, R(y, k + 1), square, first);
      if L2(root, square) < Mul(reduction, first) {
        outcome := Converged;
        EndedReduced(y, V, s, root, reduction, m, k + 1, false, e, X(y, k + 1), R(y, k + 1), square, first);
      } else if delta' == 0.0 || omega == 0.0 {
        outcome := Failed;
        EndedFailed(y, V, s, root, reduction, m, k + 1, false, e, X(y, k + 1));
      } else {
        var beta := Mul(CG.Quot(delta', delta), CG.Quot(alpha, omega));
        BetaIs(y, k);
        if beta == 0.0 {
          outcome := Failed;
          EndedFailed(y, V, s, root, reduction, m, k + 1, false, e, X(y, k + 1));
        } else {
          var a1 := Lin(1.0, c, beta, aj);
          a := Lin(1.0, a1, Neg(Mul(omega, beta)), ta);
          NextAj(y, V, k, aj, ta, c, a1, a);
          NextReach(2 * s, n, aj, cj, ta, tc, tta, alpha, beta, omega, c1, c2, c, a1, a);
          StandsNow(y, V, 2 * s, m, n + 1, k + 1, a, c, e);
          GoingNext(y, k);
        }
      }
    }
  }

  lemma BetaIs(y: Problem, k: nat)
    requires ValidProblem(y)
    ensures Beta(y, k) ==
            Mul(CG.Quot(Dot(R(y, k + 1), R0(y)), Dot(R(y, k), R0(y))), CG.Quot(Alpha(y, k), Omega(y, k)))
  {
  }

  /** The inner loop: at most s steps in coefficient space from iterate m. */
  method InnerSteps(ghost y: Problem, ghost V: seq<Vec>, G: Matrix, g: Vec, s: nat, root: real -> real,
                    reduction: real, first: real, m: nat, delta: real)
    returns (aj: Vec, cj: Vec, ej: Vec, delta': real, k: nat, atHalf: bool, outcome: Outcome)
    requires ValidProblem(y) && Powers(Op(y), y.n, V, 2 * s, P(y, m), R(y, m)) && |V| == 4 * s + 1
    requires Family(V, y.n, |V|)
    requires G == Gram(V, y.n) && g == DotWith(V, y.n, R0(y)) && first == Sqrt(root, Dot(R0(y), R0(y)))
    requires Going(y, m) && delta == Dot(R(y, m), R0(y))
    ensures |aj| == |cj| == |ej| == |V| && Steps(CaTests(y, root, reduction), m, s) == Stop(k, atHalf, outcome)
    ensures outcome == OutOfIterations ==>
              && k == m + s && !atHalf && Going(y, k) && delta' == Dot(R(y, k), R0(y)) && Corrects(y, V, m, ej, X(y, k))
              && Value(V, y.n, aj) == P(y, k) && Value(V, y.n, cj) == R(y, k)
    ensures outcome != OutOfIterations ==> Ended(y, V, s, root, reduction, m, k, atHalf, ej, outcome)
  {
    hide *;
    StandsAtStart(y, V, 2 * s, m);
    var q := 2 * s;
    var Tp, Tpp := ShiftMatrix(q), DoubleShiftMatrix(q);
    aj, cj, ej := Unit(2 * q + 1, 0), Unit(2 * q + 1, q + 1), Zero(2 * q + 1);
    delta', k, atHalf, outcome := delta, m, false, OutOfIterations;
    var n: nat := 0;
    ghost var step := CaTests(y, root, reduction);
    StepsNone(step, m);
    while n < s && outcome == OutOfIterations
      invariant 0 <= n <= s && |aj| == |cj| == |ej| == |V|
      invariant Steps(step, m, n) == Stop(k, atHalf, outcome)
      invariant outcome == OutOfIterations ==>
                  && !atHalf && k == m + n && Stands(y, V, q, m, n, aj, cj, ej)
                  && Going(y, k) && delta' == Dot(R(y, k), R0(y))
      invariant outcome != OutOfIterations ==> Ended(y, V, s, root, reduction, m, k, atHalf, ej, outcome)
      decreases s - n
    {
      CorrectsFrom(y, V, q, m, n, aj, cj, ej);
      MatricesGive(V, y.n, q, aj);
      MatricesGive(V, y.n, q, cj);
      var ta, tc, tta := MatVec(Tp, aj), MatVec(Tp, cj), MatVec(Tpp, aj);
      ImagesAndReaches(y, V, q, m, n, aj, cj, ej, ta, tc, tta);
      var half, alpha, num, den;
      half, alpha, num, den, atHalf, outcome :=
        InnerHalf(y, V, G, g, s, root, reduction, first, m, k, delta', aj, cj, ej, ta, tc, tta);
      if outcome == OutOfIterations {
        aj, cj, ej, delta', k, atHalf, outcome :=
          InnerFull(y, V, G, g, s, root, reduction, first, m, n, k, delta', aj, cj, half, ta, tc, tta, alpha, num, den);
      } else {
        ej := half;
      }
      StepsNext(step, m, n, Stop(k, atHalf, outcome));
      n := n + 1;
    }
    StepsMore(step, m, n, s);
    if outcome == OutOfIterations {
      CorrectsFrom(y, V, q, m, n, aj, cj, ej);
    }
  }

  // ----- the outer loop

  /** The grids hold iterate k and the solver goes on. */
  ghost predicate AtIterate(y: Problem, k: nat, e: Vec, p: Vec, r: Vec, delta: real)
    requires ValidProblem(y)
  {
    && |e| == |p| == |r| == y.n && e == X(y, k) && p == P(y, k) && r == R(y, k)
    && Going(y, k) && delta == Dot(R(y, k), R0(y))
  }

  lemma AtIterateMeans(y: Problem, k: nat, e: Vec, p: Vec, r: Vec, delta: real)
    requires ValidProblem(y) && AtIterate(y, k, e, p, r, delta)
    ensures |e| == |p| == |r| == y.n && e == X(y, k) && p == P(y, k) && r == R(y, k)
    ensures Going(y, k) && delta == Dot(R(y, k), R0(y)) && Reached(y, k, false)
  {
    GoingHalf(y, k);
    hide X, P, R, Going, Dot, R0, Linear, Reached;
  }

  lemma AtIterateNow(y: Problem, k: nat, e: Vec, p: Vec, r: Vec, delta: real)
    requires ValidProblem(y) && e == X(y, k) && p == P(y, k) && r == R(y, k) && Going(y, k)
    requires delta == Dot(R(y, k), R0(y))
    ensures AtIterate(y, k, e, p, r, delta)
  {
    hide X, P, R, Going, Dot, R0, Linear;
  }

  /** The whole solver stops, e holding where it stopped. */
  ghost predicate Finished(y: Problem, s: nat, root: real -> real, reduction: real, k: nat, half: bool, e: Vec,
                           outcome: Outcome)
    requires ValidProblem(y)
  {
    Reached(y, k, half) && e == Iterate(y, k, half) && CaStops(y, s, root, reduction, k, half, outcome)
  }

  lemma FinishedFrom(y: Problem, V: seq<Vec>, s: nat, most: nat, root: real -> real, reduction: real, m: nat,
                     k: nat, half: bool, ej: Vec, outcome: Outcome)
    requires ValidProblem(y) && Ended(y, V, s, root, reduction, m, k, half, ej, outcome)
    requires outcome != OutOfIterations
    ensures Family(V, y.n, |ej|)
    ensures Finished(y, most, root, reduction, k, half, Lin(1.0, X(y, m), 1.0, Value(V, y.n, ej)), outcome)
  {
    hide Reached, Iterate, X, Value, Reduced, Norm, Dot, MS, MP, R, R0, Omega, Beta, Linear, Lin;
  }

  lemma CorrectsMeans(y: Problem, V: seq<Vec>, m: nat, ej: Vec, x: Vec)
    requires ValidProblem(y) && Corrects(y, V, m, ej, x)
    ensures Family(V, y.n, |ej|) && Lin(1.0, X(y, m), 1.0, Value(V, y.n, ej)) == x
  {
  }

  lemma PowersAre(y: Problem, V: seq<Vec>, q: nat, p: Vec, r: Vec)
    requires ValidProblem(y) && Powers(Op(y), y.n, V, q, p, r)
    ensures |V| == 2 * q + 1 && Family(V, y.n, |V|)
  {
  }

  lemma OperatorOf(y: Problem)
    requires ValidProblem(y)
    ensures Op(y) == Preconditioned(y.A, y.lambda) && Linear(Op(y), y.n) && |y.lambda| == |y.x0| == |y.b| == y.n
  {
    OpIs(y);
    hide Linear;
  }

  /** One pass of the outer loop with a basis for s steps. */
  method OuterStep(y: Problem, s: nat, ghost most: nat, root: real -> real, reduction: real, r0: Vec, first: real,
                   m: nat, e: Vec, p: Vec, r: Vec, delta: real)
    returns (e': Vec, p': Vec, r': Vec, delta': real, k: nat, half: bool, outcome: Outcome)
    requires ValidProblem(y) && s >= 1 && AtIterate(y, m, e, p, r, delta)
    requires r0 == R0(y) && first == Sqrt(root, Dot(R0(y), R0(y)))
    ensures Steps(CaTests(y, root, reduction), m, s) == Stop(k, half, outcome)
    ensures outcome == OutOfIterations ==> k == m + s && !half && AtIterate(y, k, e', p', r', delta')
    ensures outcome != OutOfIterations ==> Finished(y, most, root, reduction, k, half, e', outcome)
  {
    hide *;
    AtIterateMeans(y, m, e, p, r, delta);
    OperatorOf(y);
    var V := MakeBasis(Preconditioned(y.A, y.lambda), y.n, 2 * s, p, r);
    PowersAre(y, V, 2 * s, p, r);
    var G := Gram(V, y.n);
    var g := DotWith(V, y.n, r0);
    var aj, cj, ej;
    aj, cj, ej, delta', k, half, outcome := InnerSteps(y, V, G, g, s, root, reduction, first, m, delta);
    e' := AddCombination(V, y.n, ej, e);
    p', r' := p, r;
    if outcome == OutOfIterations {
      CorrectsMeans(y, V, m, ej, X(y, k));
      p' := Combine(V, y.n, aj, p);
      r' := Combine(V, y.n, cj, r);
      AtIterateNow(y, k, e', p', r', delta');
    } else {
      FinishedFrom(y, V, s, most, root, reduction, m, k, half, ej, outcome);
    }
  }

  lemma FinishedAtStart(y: Problem, s: nat, root: real -> real, reduction: real)
    requires ValidProblem(y) && (Norm(R0(y)) == 0.0 || Dot(R0(y), R0(y)) == 0.0)
    ensures Finished(y, s, root, reduction, 0, false, y.x0, Converged)
  {
    hide Dot, Norm, R0, Linear;
  }

  lemma GoingAtStart(y: Problem)
    requires ValidProblem(y)
    ensures |Apply(y.A, y.x0)| == |y.b| == |y.x0| == y.n && CG.Residual(y.A, y.b, y.x0) == R0(y)
    ensures Dot(R0(y), R0(y)) != 0.0 ==> AtIterate(y, 0, y.x0, R0(y), R0(y), Dot(R0(y), R0(y)))
  {
    ApplySize(y.A, y.n, y.x0);
    hide Dot, Linear, Apply;
  }

  lemma FinishedLast(y: Problem, s: nat, root: real -> real, reduction: real, k: nat, e: Vec, p: Vec, r: Vec,
                     delta: real)
    requires ValidProblem(y) && AtIterate(y, k, e, p, r, delta) && MMAX <= k < MMAX + s
    ensures Finished(y, s, root, reduction, k, false, e, OutOfIterations)
  {
    AtIterateMeans(y, k, e, p, r, delta);
    hide X, P, R, Going, Dot, R0, Linear, Reached, AtIterate;
  }

  lemma FinishedMeans(y: Problem, s: nat, root: real -> real, reduction: real, k: nat, half: bool, e: Vec,
                      outcome: Outcome)
    requires ValidProblem(y) && Finished(y, s, root, reduction, k, half, e, outcome)
    ensures e == Iterate(y, k, half) && |e| == |y.lambda|
  {
    hide Iterate, Reached, CaStops, Linear;
  }

  /** The initial residual, and whether there is nothing to do. */
  method Start(y: Problem, ghost most: nat, root: real -> real, reduction: real)
    returns (r0: Vec, delta: real, first: real, outcome: Outcome)
    requires ValidProblem(y)
    ensures r0 == R0(y) && first == Sqrt(root, Dot(R0(y), R0(y)))
    ensures outcome == OutOfIterations ==> AtIterate(y, 0, y.x0, r0, r0, delta)
    ensures outcome != OutOfIterations ==> Finished(y, most, root, reduction, 0, false, y.x0, outcome)
    ensures outcome == if Solved(y) then Converged else OutOfIterations
  {
    hide *;
    SolvedIs(y);
    GoingAtStart(y);
    r0 := CG.Residual(y.A, y.b, y.x0);
    outcome := OutOfIterations;
    delta := Dot(r0, r0);
    if Norm(r0) == 0.0 || delta == 0.0 {
      outcome := Converged;
      FinishedAtStart(y, most, root, reduction);
    }
    first := Sqrt(root, delta);
  }

  /** CABiCGStab: the result is an iterate of the plain method, scaled back by
      lambda, and the solver stops where the first of its tests fires. */
  method CABiCGStab(y: Problem, s: nat, root: real -> real, reduction: real)
    returns (e: Vec, k: nat, half: bool, outcome: Outcome)
    requires ValidProblem(y) && s >= 1
    ensures Finished(y, s, root, reduction, k, half, Iterate(y, k, half), outcome)
    ensures e == Times(y.lambda, Iterate(y, k, half))
    ensures Stop(k, half, outcome) == Run(CaTests(y, root, reduction), Solved(y), Rounds(0, s, s))
  {
    hide *;
    var r0, delta, first;
    r0, delta, first, outcome := Start(y, s, root, reduction);
    e := y.x0;
    var p, r := r0, r0;
    var m: nat := 0;
    k, half := 0, false;
    ghost var last := Rounds(0, s, s);
    ghost var step, done := CaTests(y, root, reduction), Solved(y);
    SoFarStarts(step, done, last);
    while m < MMAX && outcome == OutOfIterations
      invariant m < MMAX + s
      invariant SoFar(step, done, m, last, Stop(k, half, outcome))
      invariant outcome == OutOfIterations ==> Rounds(m, s, s) == last
      invariant outcome == OutOfIterations ==> !half && k == m && AtIterate(y, m, e, p, r, delta)
      invariant outcome != OutOfIterations ==> Finished(y, s, root, reduction, k, half, e, outcome)
      decreases MMAX + s - m
    {
      RoundsNext(m, s, s);
      e, p, r, delta, k, half, outcome := OuterStep(y, s, s, root, reduction, r0, first, m, e, p, r, delta);
      SoFarNext(step, done, m, s, last, Stop(k, half, outcome));
      m := m + s;
    }
    RoundsNext(m, s, s);
    SoFarEnds(step, done, m, last, Stop(k, half, outcome));
    if outcome == OutOfIterations {
      FinishedLast(y, s, root, reduction, m, e, p, r, delta);
    }
    FinishedMeans(y, s, root, reduction, k, half, e, outcome);
    e := Times(y.lambda, e);
  }

  /** TelescopingCABiCGStab: the number of steps per basis doubles from one up to
      most. */
  method TelescopingCABiCGStab(y: Problem, most: nat, root: real -> real, reduction: real)
    returns (e: Vec, k: nat, half: bool, outcome: Outcome)
    requires ValidProblem(y) && most >= 1
    ensures Finished(y, most, root, reduction, k, half, Iterate(y, k, half), outcome)
    ensures e == Times(y.lambda, Iterate(y, k, half))
    ensures Stop(k, half, outcome) == Run(CaTests(y, root, reduction), Solved(y), Rounds(0, 1, most))
  {
    hide *;
    var r0, delta, first;
    r0, delta, first, outcome := Start(y, most, root, reduction);
    e := y.x0;
    var p, r := r0, r0;
    var m: nat := 0;
    var s: nat := 1;
    k, half := 0, false;
    ghost var last := Rounds(0, 1, most);
    ghost var step, done := CaTests(y, root, reduction), Solved(y);
    SoFarStarts(step, done, last);
    while m < MMAX && outcome == OutOfIterations
      invariant m < MMAX + most && 1 <= s <= most
      invariant SoFar(step, done, m, last, Stop(k, half, outcome))
      invariant outcome == OutOfIterations ==> Rounds(m, s, most) == last
      invariant outcome == OutOfIterations ==> !half && k == m && AtIterate(y, m, e, p, r, delta)
      invariant outcome != OutOfIterations ==> Finished(y, most, root, reduction, k, half, e, outcome)
      decreases MMAX + most - m
    {
      RoundsNext(m, s, most);
      e, p, r, delta, k, half, outcome := OuterStep(y, s, most, root, reduction, r0, first, m, e, p, r, delta);
      SoFarNext(step, done, m, s, last, Stop(k, half, outcome));
      m := m + s;
      s := 2 * s;
      if s > most {
        s := most;
      }
    }
    RoundsNext(m, s, most);
    SoFarEnds(step, done, m, last, Stop(k, half, outcome));
    if outcome == OutOfIterations {
      FinishedLast(y, most, root, reduction, m, e, p, r, delta);
    }
    FinishedMeans(y, most, root, reduction, k, half, e, outcome);
    e := Times(y.lambda, e);
  }
}
