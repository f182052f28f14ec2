/** How the Krylov solvers come to an end: every step makes its tests in a fixed order, and
    the first test that fires stops the run. */
module SolverRuns {
  import opened Triples

  datatype Outcome = Converged | Failed | OutOfIterations

  /** Where a run stops: with iterate k, or half a step further, and why. */
  datatype Stop = Stop(k: nat, half: bool, outcome: Outcome)

  /** At most n steps from iterate k; step(k) is what the tests of the step from iterate k
      say, OutOfIterations when none of them fires. */
  ghost function Steps(step: nat -> Stop, k: nat, n: nat): Stop
    decreases n
  {
    if n == 0 then Stop(k, false, OutOfIterations)
    else if step(k).outcome != OutOfIterations then step(k)
    else Steps(step, k + 1, n - 1)
  }

  /** A run that would make `last` steps if no test fired; done tells that there is nothing
      to do. */
  ghost function Run(step: nat -> Stop, done: bool, last: nat): Stop {
    if done then Stop(0, false, Converged) else Steps(step, 0, last)
  }

  lemma {:induction false} StepsSplit(step: nat -> Stop, k: nat, n: nat, more: nat)
    ensures var t := Steps(step, k, n);
            && (t.outcome == OutOfIterations ==> t == Stop(k + n, false, OutOfIterations))
            && Steps(step, k, n + more) == if t.outcome != OutOfIterations then t else Steps(step, k + n, more)
    decreases n
  {
    if n > 0 && step(k).outcome == OutOfIterations {
      StepsSplit(step, k + 1, n - 1, more);
    }
  }

  lemma StepsNone(step: nat -> Stop, k: nat)
    ensures Steps(step, k, 0) == Stop(k, false, OutOfIterations)
  {
  }

  /** Some steps and one more. */
  lemma StepsNext(step: nat -> Stop, m: nat, n: nat, t: Stop)
    requires Steps(step, m, n) == Stop(m + n, false, OutOfIterations) && step(m + n) == t
    requires t.outcome == OutOfIterations ==> t == Stop(m + n + 1, false, OutOfIterations)
    ensures Steps(step, m, n + 1) == t
  {
    StepsSplit(step, m, n, 1);
    StepsNone(step, m + n + 1);
  }

  /** A run that has stopped stays where it is. */
  lemma StepsMore(step: nat -> Stop, k: nat, n: nat, last: nat)
    requires n <= last
    ensures Steps(step, k, n).outcome != OutOfIterations || n == last ==> Steps(step, k, last) == Steps(step, k, n)
  {
    hide Steps;
    StepsSplit(step, k, n, last - n);
  }

  /** Every step before k goes on. */
  ghost predicate GoesTo(step: nat -> Stop, k: nat) {
    forall j: nat :: j < k ==> step(j).outcome == OutOfIterations
  }

  lemma {:induction false} StepsFindFirst(step: nat -> Stop, k: nat, n: nat) returns (j: nat)
    requires Steps(step, k, n).outcome != OutOfIterations && GoesTo(step, k)
    ensures k <= j < k + n && GoesTo(step, j) && step(j) == Steps(step, k, n)
    decreases n
  {
    j := k;
    if step(k).outcome == OutOfIterations {
      j := StepsFindFirst(step, k + 1, n - 1);
    }
  }

  lemma {:induction false} StepsOfFirst(step: nat -> Stop, k: nat, n: nat, j: nat)
    requires GoesTo(step, j) && k <= j < k + n && step(j).outcome != OutOfIterations
    ensures Steps(step, k, n) == step(j)
    decreases n
  {
    if k < j {
      StepsOfFirst(step, k + 1, n - 1, j);
    }
  }

  /** A run with something to do is stopped by a test as t if and only if t is what the
      first step in which a test fires says. */
  lemma StoppedExactly(step: nat -> Stop, last: nat, t: Stop)
    requires t.outcome != OutOfIterations
    ensures Run(step, false, last) == t <==> exists j: nat :: j < last && GoesTo(step, j) && step(j) == t
  {
    hide Steps;
    if Run(step, false, last) == t {
      var j := StepsFindFirst(step, 0, last);
    }
    if j: nat :| j < last && GoesTo(step, j) && step(j) == t {
      StepsOfFirst(step, 0, last, j);
    }
  }

  // ----- runs in rounds of several steps

  const MMAX: nat := 200

  /** The number of steps after which the outer loop ends, from m on, with rounds of s steps
      that double up to most. */
  function Rounds(m: nat, s: nat, most: nat): (last: nat)
    requires 1 <= s <= most
    ensures m <= last && (m < MMAX + most ==> MMAX <= last < MMAX + most)
    decreases if m < MMAX then MMAX - m else 0
  {
    if m >= MMAX then m else Rounds(m + s, Doubled(s, most), most)
  }

  function Doubled(s: nat, most: nat): nat {
    if 2 * s > most then most else 2 * s
  }

  lemma RoundsNext(m: nat, s: nat, most: nat)
    requires 1 <= s <= most
    ensures 1 <= Doubled(s, most) <= most && Doubled(s, most) == if 2 * s > most then most else 2 * s
    ensures m < MMAX ==> Rounds(m, s, most) == Rounds(m + s, Doubled(s, most), most) >= m + s
    ensures m >= MMAX ==> Rounds(m, s, most) == m
  {
  }

  /** With rounds of one size the loop ends at their first multiple from MMAX on. */
  lemma {:induction false} FixedRounds(m: nat, s: nat)
    requires s >= 1 && m % s == 0 && m < MMAX + s
    ensures Rounds(m, s, s) % s == 0 && MMAX <= Rounds(m, s, s) < MMAX + s
    decreases if m < MMAX then MMAX - m else 0
  {
    RoundsNext(m, s, s);
    if m < MMAX {
      NextMultiple(m, s);
      FixedRounds(m + s, s);
    }
  }

  lemma NextMultiple(m: nat, s: nat)
    requires s >= 1 && m % s == 0
    ensures (m + s) % s == 0
  {
    var q := m / s;
    assert m == q * s + m % s;
    assert m + s == (q + 1) * s + 0;
    DivModUnique(q + 1, 0, s);
  }

  /** A run in rounds so far: where it has stopped, or that it is at iterate m. */
  ghost predicate SoFar(step: nat -> Stop, done: bool, m: nat, last: nat, t: Stop) {
    if t.outcome != OutOfIterations then Run(step, done, last) == t
    else
      && !done && t == Stop(m, false, OutOfIterations) && m <= last
      && Run(step, done, last) == Steps(step, m, last - m)
  }

  lemma SoFarStarts(step: nat -> Stop, done: bool, last: nat)
    ensures SoFar(step, done, 0, last, Stop(0, false, if done then Converged else OutOfIterations))
  {
  }

  lemma SoFarNext(step: nat -> Stop, done: bool, m: nat, s: nat, last: nat, t: Stop)
    requires SoFar(step, done, m, last, Stop(m, false, OutOfIterations)) && m + s <= last && Steps(step, m, s) == t
    ensures SoFar(step, done, m + s, last, t)
  {
    hide Steps;
    StepsSplit(step, m, s, last - m - s);
  }

  lemma SoFarStopped(step: nat -> Stop, done: bool, m: nat, k: nat, last: nat, t: Stop)
    requires SoFar(step, done, m, last, t) && t.outcome != OutOfIterations
    ensures SoFar(step, done, k, last, t)
  {
  }

  /** The next step of a run. */
  lemma OneMore(step: nat -> Stop, done: bool, m: nat, last: nat, t: Stop)
    requires SoFar(step, done, m, last, Stop(m, false, OutOfIterations)) && m < last && step(m) == t
    requires t.outcome == OutOfIterations ==> t == Stop(m + 1, false, OutOfIterations)
    ensures SoFar(step, done, m + 1, last, t) && SoFar(step, done, t.k, last, t)
  {
    hide SoFar, Run;
    StepsNone(step, m);
    StepsNext(step, m, 0, t);
    SoFarNext(step, done, m, 1, last, t);
    if t.outcome != OutOfIterations {
      SoFarStopped(step, done, m + 1, t.k, last, t);
    }
  }

  lemma SoFarEnds(step: nat -> Stop, done: bool, m: nat, last: nat, t: Stop)
    requires SoFar(step, done, m, last, t) && (t.outcome == OutOfIterations ==> m == last)
    ensures Run(step, done, last) == t
  {
  }
}
