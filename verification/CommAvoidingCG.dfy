/** The communication-avoiding conjugate gradient solver: s steps at a time in
    coefficient space.  In exact arithmetic it produces the very iterates of the
    plain method. */
module CommAvoidingCG {
  import opened GridVectors
  import opened SolverRuns
  import opened KrylovBasis
  import opened ConjugateGradient

  ghost function X(y: System, k: nat): (v: Vec)
    requires ValidSystem(y)
    ensures |v| == y.n
  {
    Cg(y, k).x
  }

  /** After n inner steps from iterate m: the coefficients stand for the direction,
      the residual and the correction of iterate m + n, and reach no power beyond
      the n-th. */
  ghost predicate Stands(y: System, V: seq<Vec>, q: nat, m: nat, n: nat, aj: Vec, cj: Vec, ej: Vec)
    requires ValidSystem(y)
  {
    && |aj| == |cj| == |ej| == 2 * q + 1 && Family(V, y.n, 2 * q + 1)
    && Value(V, y.n, aj) == P(y, m + n)
    && Value(V, y.n, cj) == R(y, m + n)
    && Lin(1.0, X(y, m), 1.0, Value(V, y.n, ej)) == X(y, m + n)
    && Reach(q, aj, n, n - 1)
    && Reach(q, cj, n, if n == 0 then 0 else n - 1)
  }

  lemma StandsAtStart(y: System, V: seq<Vec>, q: nat, m: nat)
    requires ValidSystem(y) && Powers(y.A, y.n, V, q, P(y, m), R(y, m))
    ensures Stands(y, V, q, m, 0, Unit(2 * q + 1, 0), Unit(2 * q + 1, q + 1), Zero(2 * q + 1))
  {
    hide Lin, Linear, Cg;
    ValueStart(V, y.n, 2 * q + 1, 0);
    ValueStart(V, y.n, 2 * q + 1, q + 1);
    LinOneZero(X(y, m));
  }

  /** The scalars of one inner step are those of the plain method. */
  lemma SameScalars(y: System, V: seq<Vec>, q: nat, m: nat, n: nat, aj: Vec, cj: Vec, ej: Vec)
    requires ValidSystem(y) && Powers(y.A, y.n, V, q, P(y, m), R(y, m)) && n < q
    requires Stands(y, V, q, m, n, aj, cj, ej)
    ensures Value(V, y.n, Shift(q, aj)) == AP(y, m + n)
    ensures Dot(aj, GramTimes(V, y.n, Shift(q, aj))) == Dot(AP(y, m + n), P(y, m + n))
    ensures Dot(cj, GramTimes(V, y.n, cj)) == Dot(R(y, m + n), R(y, m + n))
  {
    ReachShiftable(q, aj, n, n - 1);
    ShiftIsOperator(y.A, y.n, V, q, P(y, m), R(y, m), aj);
    assert AP(y, m + n) == Apply(y.A, P(y, m + n));
    hide Lin, Linear, Cg, P, R, AP, Value, Dot, Shift, GramTimes, Apply, Reach, Powers;
    GramProduct(V, y.n, aj, Shift(q, aj));
    GramProduct(V, y.n, cj, cj);
    DotSym(P(y, m + n), AP(y, m + n));
  }

  /** One inner step reaches one power further. */
  lemma InnerReach(q: nat, n: nat, aj: Vec, cj: Vec, alpha: real, beta: real, tp: Vec)
    requires |aj| == |cj| == |tp| == 2 * q + 1 && tp == Shift(q, aj)
    requires Reach(q, aj, n, n - 1) && Reach(q, cj, n, if n == 0 then 0 else n - 1)
    ensures var c := Lin(1.0, cj, Neg(alpha), tp);
            Reach(q, c, n + 1, n) && Reach(q, Lin(1.0, c, beta, aj), n + 1, n)
  {
    var c := Lin(1.0, cj, Neg(alpha), tp);
    hide Shift, Lin, Reach;
    ReachShift(q, aj, n, n - 1);
    ReachMore(q, cj, n, if n == 0 then 0 else n - 1, n + 1, n);
    ReachLin(q, 1.0, cj, Neg(alpha), tp, n + 1, n);
    ReachMore(q, aj, n, n - 1, n + 1, n);
    ReachLin(q, 1.0, c, beta, aj, n + 1, n);
  }

  lemma SetupOf(y: System, V: seq<Vec>, q: nat, m: nat, n: nat, aj: Vec, cj: Vec, ej: Vec)
    requires ValidSystem(y) && Stands(y, V, q, m, n, aj, cj, ej)
    ensures |aj| == |cj| == |ej| == 2 * q + 1 && Family(V, y.n, 2 * q + 1)
    ensures Value(V, y.n, aj) == P(y, m + n) && Value(V, y.n, cj) == R(y, m + n)
    ensures Lin(1.0, X(y, m), 1.0, Value(V, y.n, ej)) == X(y, m + n)
    ensures Reach(q, aj, n, n - 1) && Reach(q, cj, n, if n == 0 then 0 else n - 1)
  {
    hide Linear, Cg, P, R, X, Value, Reach, Lin;
  }

  lemma NextIterate(y: System, k: nat)
    requires ValidSystem(y)
    ensures X(y, k + 1) == Lin(1.0, X(y, k), Alpha(y, k), P(y, k))
    ensures R(y, k + 1) == Lin(1.0, R(y, k), Neg(Alpha(y, k)), AP(y, k))
    ensures P(y, k + 1) == Lin(1.0, R(y, k + 1), Beta(y, k), P(y, k))
  {
    hide Linear, Cg, P, R, AP, Lin, Alpha, Beta, Neg;
    Recurrences(y, k);
  }

  /** The combinations after one inner step. */
  lemma InnerValues(y: System, V: seq<Vec>, q: nat, m: nat, n: nat, aj: Vec, cj: Vec, ej: Vec, tp: Vec)
    requires ValidSystem(y) && Powers(y.A, y.n, V, q, P(y, m), R(y, m)) && n < q
    requires Stands(y, V, q, m, n, aj, cj, ej) && |tp| == 2 * q + 1 && tp == Shift(q, aj)
    requires |aj| == |cj| == |ej| == 2 * q + 1 && Family(V, y.n, 2 * q + 1)
    ensures var c := Lin(1.0, cj, Neg(Alpha(y, m + n)), tp);
            && Value(V, y.n, c) == R(y, m + n + 1)
            && Value(V, y.n, Lin(1.0, c, Beta(y, m + n), aj)) == P(y, m + n + 1)
            && Lin(1.0, X(y, m), 1.0, Value(V, y.n, Lin(1.0, ej, Alpha(y, m + n), aj))) == X(y, m + n + 1)
  {
    hide *;
    var k := m + n;
    var alpha, beta := Alpha(y, k), Beta(y, k);
    var c := Lin(1.0, cj, Neg(alpha), tp);
    SetupOf(y, V, q, m, n, aj, cj, ej);
    SameScalars(y, V, q, m, n, aj, cj, ej);
    NextIterate(y, k);
    FamilyLen(V, y.n, 2 * q + 1);
    ValueLin(V, y.n, 1.0, cj, Neg(alpha), tp);
    ValueLin(V, y.n, 1.0, c, beta, aj);
    ValueLin(V, y.n, 1.0, ej, alpha, aj);
    LinMove(X(y, m), Value(V, y.n, ej), alpha, P(y, k));
  }

  lemma FamilyLen(V: seq<Vec>, n: nat, m: nat)
    requires Family(V, n, m)
    ensures |V| == m
  {
  }

  /** One inner step moves the coefficients to the next iterate. */
  lemma InnerStep(y: System, V: seq<Vec>, q: nat, m: nat, n: nat, aj: Vec, cj: Vec, ej: Vec, tp: Vec)
    requires ValidSystem(y) && Powers(y.A, y.n, V, q, P(y, m), R(y, m)) && n < q
    requires Stands(y, V, q, m, n, aj, cj, ej) && |tp| == 2 * q + 1 && tp == Shift(q, aj)
    requires |aj| == |cj| == |ej| == 2 * q + 1 && Family(V, y.n, 2 * q + 1)
    ensures var c := Lin(1.0, cj, Neg(Alpha(y, m + n)), tp);
            Stands(y, V, q, m, n + 1, Lin(1.0, c, Beta(y, m + n), aj), c, Lin(1.0, ej, Alpha(y, m + n), aj))
  {
    SetupOf(y, V, q, m, n, aj, cj, ej);
    InnerReach(q, n, aj, cj, Alpha(y, m + n), Beta(y, m + n), tp);
    InnerValues(y, V, q, m, n, aj, cj, ej, tp);
    hide Linear, Cg, P, R, AP, X, Value, Dot, Shift, Reach, Powers, Alpha, Beta, Lin, Neg;
  }

  /** Why the solver stops with iterate k. */
  ghost predicate CaStopped(y: System, s: nat, root: real -> real, reduction: real, k: nat, outcome: Outcome)
    requires ValidSystem(y)
  {
    match outcome
    case OutOfIterations => MMAX <= k < MMAX + s
    case Converged => Norm(R(y, 0)) == 0.0 || Dot(R(y, 0), R(y, 0)) == 0.0 || Reduced(y, root, reduction, k)
    case Failed => Dot(AP(y, k), P(y, k)) == 0.0 || Dot(R(y, k), R(y, k)) == 0.0
  }

  ghost predicate Reduced(y: System, root: real -> real, reduction: real, k: nat)
    requires ValidSystem(y)
  {
    L2(root, Dot(R(y, k), R(y, k))) < Mul(reduction, Sqrt(root, Dot(R(y, 0), R(y, 0))))
  }

  /** The tests of the inner step from iterate k, in their order. */
  ghost function CaTest(y: System, root: real -> real, reduction: real, k: nat): Stop
    requires ValidSystem(y)
  {
    if Dot(AP(y, k), P(y, k)) == 0.0 then Stop(k, false, Failed)
    else if Reduced(y, root, reduction, k + 1) then Stop(k + 1, false, Converged)
    else if Dot(R(y, k + 1), R(y, k + 1)) == 0.0 then Stop(k + 1, false, Failed)
    else Stop(k + 1, false, OutOfIterations)
  }

  ghost function CaTests(y: System, root: real -> real, reduction: real): nat -> Stop
    requires ValidSystem(y)
  {
    (k: nat) => CaTest(y, root, reduction, k)
  }

  ghost predicate Solved(y: System)
    requires ValidSystem(y)
  {
    Norm(R(y, 0)) == 0.0 || Dot(R(y, 0), R(y, 0)) == 0.0
  }

  lemma CaTestIs(y: System, root: real -> real, reduction: real, k: nat)
    requires ValidSystem(y)
    ensures CaTests(y, root, reduction)(k) ==
            if Dot(AP(y, k), P(y, k)) == 0.0 then Stop(k, false, Failed)
            else if Reduced(y, root, reduction, k + 1) then Stop(k + 1, false, Converged)
            else if Dot(R(y, k + 1), R(y, k + 1)) == 0.0 then Stop(k + 1, false, Failed)
            else Stop(k + 1, false, OutOfIterations)
  {
    hide Linear, Cg, P, R, AP, Dot, Reduced;
  }

  lemma SolvedIs(y: System)
    requires ValidSystem(y)
    ensures Solved(y) <==> Norm(R(y, 0)) == 0.0 || Dot(R(y, 0), R(y, 0)) == 0.0
  {
  }

  /** The correction accumulated so far leads from iterate m to iterate k. */
  ghost predicate Corrects(y: System, V: seq<Vec>, m: nat, ej: Vec, k: nat)
    requires ValidSystem(y)
  {
    Family(V, y.n, |ej|) && Lin(1.0, X(y, m), 1.0, Value(V, y.n, ej)) == X(y, k)
  }

  lemma InnerAfter(y: System, V: seq<Vec>, q: nat, m: nat, n: nat, aj: Vec, cj: Vec, ej: Vec, tp: Vec,
                   alpha: real, c: Vec, e: Vec, a: Vec)
    requires ValidSystem(y) && Powers(y.A, y.n, V, q, P(y, m), R(y, m)) && n < q
    requires Stands(y, V, q, m, n, aj, cj, ej) && CgSoundUpTo(y, m + n) && tp == Shift(q, aj)
    requires |tp| == |aj| == |cj| == |ej| == |V| == 2 * q + 1 && Family(V, y.n, 2 * q + 1)
    requires Dot(AP(y, m + n), P(y, m + n)) != 0.0 && Dot(R(y, m + n), R(y, m + n)) != 0.0
    requires alpha == Quot(Dot(R(y, m + n), R(y, m + n)), Dot(AP(y, m + n), P(y, m + n)))
    requires c == Lin(1.0, cj, Neg(alpha), tp) && e == Lin(1.0, ej, alpha, aj) && a == Lin(1.0, c, Beta(y, m + n), aj)
    ensures CgSoundUpTo(y, m + n + 1)
    ensures Stands(y, V, q, m, n + 1, a, c, e)
    ensures Corrects(y, V, m, e, m + n + 1)
  {
    hide *;
    AlphaIs(y, m + n);
    InnerStep(y, V, q, m, n, aj, cj, ej, tp);
    CgSoundExtendAt(y, m + n);
    StandsShape(y, V, q, m, n + 1, a, c, e);
  }

  /** The Gram matrix gives the square of the new residual. */
  lemma SquareOf(y: System, V: seq<Vec>, k: nat, c: Vec)
    requires ValidSystem(y) && Family(V, y.n, |c|) && |V| == |c| && Value(V, y.n, c) == R(y, k)
    ensures Dot(c, GramTimes(V, y.n, c)) == Dot(R(y, k), R(y, k))
  {
    hide *;
    GramProduct(V, y.n, c, c);
  }

  lemma AlphaIs(y: System, k: nat)
    requires ValidSystem(y)
    ensures Alpha(y, k) == Quot(Dot(R(y, k), R(y, k)), Dot(AP(y, k), P(y, k)))
  {
    hide Linear, Cg, P, R, AP, Dot, Quot;
  }

  lemma CgSoundExtendAt(y: System, k: nat)
    requires ValidSystem(y) && CgSoundUpTo(y, k)
    requires Dot(AP(y, k), P(y, k)) != 0.0 && Dot(R(y, k), R(y, k)) != 0.0
    ensures CgSoundUpTo(y, k + 1)
  {
    CgSoundExtend(y, k);
    hide CgSoundUpTo;
  }

  lemma StandsShape(y: System, V: seq<Vec>, q: nat, m: nat, n: nat, aj: Vec, cj: Vec, ej: Vec)
    requires ValidSystem(y) && Stands(y, V, q, m, n, aj, cj, ej)
    ensures |aj| == |cj| == |ej| == |V| == 2 * q + 1 && Family(V, y.n, |V|)
    ensures Value(V, y.n, aj) == P(y, m + n) && Value(V, y.n, cj) == R(y, m + n)
    ensures Corrects(y, V, m, ej, m + n)
  {
  }

  lemma CaStoppedNow(y: System, s: nat, root: real -> real, reduction: real, k: nat, outcome: Outcome)
    requires ValidSystem(y)
    requires match outcome
             case OutOfIterations => MMAX <= k < MMAX + s
             case Converged => Norm(R(y, 0)) == 0.0 || Dot(R(y, 0), R(y, 0)) == 0.0 || Reduced(y, root, reduction, k)
             case Failed => Dot(AP(y, k), P(y, k)) == 0.0 || Dot(R(y, k), R(y, k)) == 0.0
    ensures CaStopped(y, s, root, reduction, k, outcome)
  {
    hide Linear, Cg, P, R, AP, Dot, Norm, Reduced;
  }

  lemma ReducedNow(y: System, root: real -> real, reduction: real, k: nat, square: real, first: real)
    requires ValidSystem(y) && square == Dot(R(y, k), R(y, k)) && first == Sqrt(root, Dot(R(y, 0), R(y, 0)))
    ensures Reduced(y, root, reduction, k) <==> L2(root, square) < Mul(reduction, first)
  {
    hide Linear, Cg, P, R, AP, Dot, Norm, L2, Mul;
  }

  lemma BetaIs(y: System, k: nat, new_: real, was: real)
    requires ValidSystem(y) && new_ == Dot(R(y, k + 1), R(y, k + 1)) && was == Dot(R(y, k), R(y, k))
    ensures Beta(y, k) == Quot(new_, was)
  {
    hide Linear, Cg, P, R, AP, Dot, Quot;
  }

  /** The inner loop: at most s steps in coefficient space from iterate m. */
  method InnerSteps(ghost y: System, ghost V: seq<Vec>, G: Matrix, s: nat, root: real -> real, reduction: real,
                    first: real, m: nat)
    returns (aj: Vec, cj: Vec, ej: Vec, n: nat, outcome: Outcome)
    requires ValidSystem(y) && Powers(y.A, y.n, V, s, P(y, m), R(y, m)) && Family(V, y.n, |V|) && |V| == 2 * s + 1
    requires G == Gram(V, y.n) && CgSoundUpTo(y, m) && Dot(R(y, m), R(y, m)) != 0.0
    requires first == Sqrt(root, Dot(R(y, 0), R(y, 0)))
    ensures n <= s && CgSoundUpTo(y, m + n) && |ej| == |V| && Corrects(y, V, m, ej, m + n)
    ensures outcome == OutOfIterations ==>
              && n == s && |aj| == |cj| == |V| && Dot(R(y, m + s), R(y, m + s)) != 0.0
              && Value(V, y.n, aj) == P(y, m + s) && Value(V, y.n, cj) == R(y, m + s)
    ensures outcome != OutOfIterations ==> CaStopped(y, s, root, reduction, m + n, outcome)
    ensures Steps(CaTests(y, root, reduction), m, s) == Stop(m + n, false, outcome)
  {
    hide *;
    ghost var step, tried: nat := CaTests(y, root, reduction), 0;
    StepsNone(step, m);
    StandsAtStart(y, V, s, m);
    var Tp := ShiftMatrix(s);
    aj, cj, ej := Unit(2 * s + 1, 0), Unit(2 * s + 1, s + 1), Zero(2 * s + 1);
    n := 0;
    outcome := OutOfIterations;
    StandsShape(y, V, s, m, 0, aj, cj, ej);
    while n < s && outcome == OutOfIterations
      invariant n <= s && |aj| == |cj| == |ej| == |V|
      invariant CgSoundUpTo(y, m + n) && Corrects(y, V, m, ej, m + n)
      invariant outcome == OutOfIterations ==> Stands(y, V, s, m, n, aj, cj, ej) && Dot(R(y, m + n), R(y, m + n)) != 0.0
      invariant outcome != OutOfIterations ==> CaStopped(y, s, root, reduction, m + n, outcome)
      invariant tried <= s && Steps(step, m, tried) == Stop(m + n, false, outcome)
      invariant outcome == OutOfIterations ==> tried == n
      decreases s - n, outcome == OutOfIterations
    {
      ghost var k := m + n;
      CaTestIs(y, root, reduction, k);
      SameScalars(y, V, s, m, n, aj, cj, ej);
      MatricesGive(V, y.n, s, aj);
      var tpaj := MatVec(Tp, aj);
      MatricesGive(V, y.n, s, tpaj);
      MatricesGive(V, y.n, s, cj);
      var ajGTpaj := Dot(aj, MatVec(G, tpaj));
      var cjGcj := Dot(cj, MatVec(G, cj));
      if ajGTpaj == 0.0 {
        outcome := Failed;
        CaStoppedNow(y, s, root, reduction, k, outcome);
      } else {
        var alpha := Quot(cjGcj, ajGTpaj);
        ghost var ejWas, cjWas := ej, cj;
        ej := Lin(1.0, ej, alpha, aj);
        cj := Lin(1.0, cj, Neg(alpha), tpaj);
        ghost var next := Lin(1.0, cj, Beta(y, k), aj);
        InnerAfter(y, V, s, m, n, aj, cjWas, ejWas, tpaj, alpha, cj, ej, next);
        StandsShape(y, V, s, m, n + 1, next, cj, ej);
        SquareOf(y, V, k + 1, cj);
        n := n + 1;
        MatricesGive(V, y.n, s, cj);
        var cjGcjNew := Dot(cj, MatVec(G, cj));
        ReducedNow(y, root, reduction, k + 1, cjGcjNew, first);
        if L2(root, cjGcjNew) < Mul(reduction, first) {
          outcome := Converged;
          CaStoppedNow(y, s, root, reduction, k + 1, outcome);
        } else if cjGcjNew == 0.0 {
          outcome := Failed;
          CaStoppedNow(y, s, root, reduction, k + 1, outcome);
        } else {
          var beta := Quot(cjGcjNew, cjGcj);
          BetaIs(y, k, cjGcjNew, cjGcj);
          aj := Lin(1.0, cj, beta, aj);
        }
      }
      StepsNext(step, m, tried, Stop(m + n, false, outcome));
      tried := tried + 1;
    }
    StepsMore(step, m, tried, s);
    if outcome == OutOfIterations {
      StandsShape(y, V, s, m, n, aj, cj, ej);
    }
  }

  lemma CaStart(y: System)
    requires ValidSystem(y)
    ensures |Apply(y.A, y.x0)| == |y.b| == |y.x0| == y.n
    ensures var r := Residual(y.A, y.b, y.x0); |r| == y.n && P(y, 0) == R(y, 0) == r && X(y, 0) == y.x0
    ensures CgSoundUpTo(y, 0)
  {
    ApplySize(y.A, y.n, y.x0);
    hide Dot;
  }

  lemma CorrectsMeans(y: System, V: seq<Vec>, m: nat, ej: Vec, k: nat)
    requires ValidSystem(y) && Corrects(y, V, m, ej, k)
    ensures Family(V, y.n, |ej|)
    ensures Lin(1.0, X(y, m), 1.0, Value(V, y.n, ej)) == X(y, k)
  {
  }

  lemma PowersShape(M: Vec -> Vec, n: nat, V: seq<Vec>, q: nat, p: Vec, r: Vec)
    requires Powers(M, n, V, q, p, r)
    ensures |V| == 2 * q + 1 && Family(V, n, |V|)
  {
  }

  lemma OperatorOf(y: System)
    requires ValidSystem(y)
    ensures Linear(y.A, y.n) && |y.x0| == |y.b| == y.n
  {
  }

  /** One pass of the outer loop: basis, Gram matrix, inner steps, and the grids
      recombined from the coefficients. */
  method OuterStep(y: System, s: nat, root: real -> real, reduction: real, first: real, m: nat,
                   e: Vec, p: Vec, r: Vec)
    returns (e': Vec, p': Vec, r': Vec, n: nat, outcome: Outcome)
    requires ValidSystem(y) && s >= 1 && AtIterate(y, m, e, p, r)
    requires first == Sqrt(root, Dot(R(y, 0), R(y, 0)))
    ensures n <= s && Steps(CaTests(y, root, reduction), m, s) == Stop(m + n, false, outcome)
    ensures outcome == OutOfIterations ==> n == s && AtIterate(y, m + s, e', p', r')
    ensures outcome != OutOfIterations ==> Ended(y, s, root, reduction, m + n, e', outcome)
  {
    hide *;
    AtIterateMeans(y, m, e, p, r);
    OperatorOf(y);
    var V := MakeBasis(y.A, y.n, s, p, r);
    PowersShape(y.A, y.n, V, s, p, r);
    var G := Gram(V, y.n);
    var aj, cj, ej;
    aj, cj, ej, n, outcome := InnerSteps(y, V, G, s, root, reduction, first, m);
    CorrectsMeans(y, V, m, ej, m + n);
    e' := AddCombination(V, y.n, ej, e);
    p', r' := p, r;
    if outcome == OutOfIterations {
      p' := Combine(V, y.n, aj, p);
      r' := Combine(V, y.n, cj, r);
      AtIterateNow(y, m + n, e', p', r');
    } else {
      EndedNow(y, s, root, reduction, m + n, e', outcome);
    }
  }

  /** The grids hold iterate m, and the solver has not stopped. */
  ghost predicate AtIterate(y: System, m: nat, e: Vec, p: Vec, r: Vec)
    requires ValidSystem(y)
  {
    && |e| == |p| == |r| == y.n && e == X(y, m) && p == P(y, m) && r == R(y, m)
    && CgSoundUpTo(y, m) && Dot(r, r) != 0.0
  }

  /** The solver stops with e holding iterate k. */
  ghost predicate Ended(y: System, s: nat, root: real -> real, reduction: real, k: nat, e: Vec, outcome: Outcome)
    requires ValidSystem(y)
  {
    CgSoundUpTo(y, k) && e == Cg(y, k).x && CaStopped(y, s, root, reduction, k, outcome)
  }

  lemma EndedNow(y: System, s: nat, root: real -> real, reduction: real, k: nat, e: Vec, outcome: Outcome)
    requires ValidSystem(y) && CgSoundUpTo(y, k) && e == X(y, k) && CaStopped(y, s, root, reduction, k, outcome)
    ensures Ended(y, s, root, reduction, k, e, outcome)
  {
    hide CgSoundUpTo, CaStopped;
  }

  /** The initial residual, its norm, and whether there is nothing to do. */
  method Start(y: System, s: nat, root: real -> real, reduction: real)
    returns (e: Vec, r: Vec, first: real, outcome: Outcome)
    requires ValidSystem(y)
    ensures first == Sqrt(root, Dot(R(y, 0), R(y, 0)))
    ensures outcome == OutOfIterations ==> AtIterate(y, 0, e, r, r)
    ensures outcome != OutOfIterations ==> Ended(y, s, root, reduction, 0, e, outcome)
    ensures outcome == if Solved(y) then Converged else OutOfIterations
  {
    hide *;
    SolvedIs(y);
    CaStart(y);
    e := y.x0;
    r := Residual(y.A, y.b, y.x0);
    var delta := Dot(r, r);
    first := Sqrt(root, delta);
    outcome := OutOfIterations;
    if Norm(r) == 0.0 || delta == 0.0 {
      outcome := Converged;
      CaStoppedNow(y, s, root, reduction, 0, outcome);
      EndedNow(y, s, root, reduction, 0, e, outcome);
    } else {
      AtIterateNow(y, 0, e, r, r);
    }
  }

  lemma AtIterateNow(y: System, m: nat, e: Vec, p: Vec, r: Vec)
    requires ValidSystem(y) && e == X(y, m) && p == P(y, m) && r == R(y, m) && CgSoundUpTo(y, m) && Dot(r, r) != 0.0
    ensures AtIterate(y, m, e, p, r)
  {
    hide X, P, R, CgSoundUpTo, Dot;
  }

  lemma AtIterateMeans(y: System, m: nat, e: Vec, p: Vec, r: Vec)
    requires ValidSystem(y) && AtIterate(y, m, e, p, r)
    ensures |e| == |p| == |r| == y.n && e == X(y, m) && p == P(y, m) && r == R(y, m)
    ensures CgSoundUpTo(y, m) && Dot(r, r) != 0.0
  {
    hide X, P, R, CgSoundUpTo, Dot;
  }

  /** CACG with any s: its result is an iterate of the plain method, reached without
      ever dividing by zero, and it stops where the first of its tests fires. */
  method CACG(y: System, s: nat, root: real -> real, reduction: real)
    returns (e: Vec, steps: nat, outcome: Outcome)
    requires ValidSystem(y) && s >= 1
    ensures Ended(y, s, root, reduction, steps, e, outcome)
    ensures Stop(steps, false, outcome) == Run(CaTests(y, root, reduction), Solved(y), Rounds(0, s, s))
  {
    hide *;
    var r, first;
    e, r, first, outcome := Start(y, s, root, reduction);
    var p := r;
    var m: nat := 0;
    steps := 0;
    ghost var step, done, last := CaTests(y, root, reduction), Solved(y), Rounds(0, s, s);
    SoFarStarts(step, done, last);
    while m < MMAX && outcome == OutOfIterations
      invariant m < MMAX + s
      invariant SoFar(step, done, m, last, Stop(steps, false, outcome))
      invariant outcome == OutOfIterations ==> Rounds(m, s, s) == last
      invariant outcome == OutOfIterations ==> steps == m && AtIterate(y, m, e, p, r)
      invariant outcome != OutOfIterations ==> Ended(y, s, root, reduction, steps, e, outcome)
      decreases MMAX + s - m
    {
      var n;
      RoundsNext(m, s, s);
      e, p, r, n, outcome := OuterStep(y, s, root, reduction, first, m, e, p, r);
      steps := m + n;
      SoFarNext(step, done, m, s, last, Stop(steps, false, outcome));
      m := m + s;
    }
    RoundsNext(m, s, s);
    SoFarEnds(step, done, m, last, Stop(steps, false, outcome));
    if outcome == OutOfIterations {
      LastIterate(y, s, root, reduction, m, e, p, r);
    }
  }

  lemma LastIterate(y: System, s: nat, root: real -> real, reduction: real, m: nat, e: Vec, p: Vec, r: Vec)
    requires ValidSystem(y) && AtIterate(y, m, e, p, r) && MMAX <= m < MMAX + s
    ensures Ended(y, s, root, reduction, m, e, OutOfIterations)
  {
    AtIterateMeans(y, m, e, p, r);
    CaStoppedNow(y, s, root, reduction, m, OutOfIterations);
    EndedNow(y, s, root, reduction, m, e, OutOfIterations);
  }
}
