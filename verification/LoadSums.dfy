/** Energies and forces as values that add up, and their sums over lists of cells. */
module LoadSums {
  import opened Triples

  /** What an atom has accumulated: an energy, a force, and for the embedded atom method
      an electron density. */
  datatype Load = Load(u: real, f: Triple<real>, rho: real)

  const NONE: Load := Load(0.0, Triple(0.0, 0.0, 0.0), 0.0)

  function Plus(a: Load, b: Load): Load {
    Load(a.u + b.u, Triple(a.f.x + b.f.x, a.f.y + b.f.y, a.f.z + b.f.z), a.rho + b.rho)
  }

  lemma PlusLaws(a: Load, b: Load, c: Load)
    ensures Plus(a, b) == Plus(b, a)
    ensures Plus(Plus(a, b), c) == Plus(a, Plus(b, c))
    ensures Plus(a, NONE) == a == Plus(NONE, a)
  {
  }

  lemma PlusSwap(a: Load, b: Load, c: Load, d: Load)
    ensures Plus(Plus(a, b), Plus(c, d)) == Plus(Plus(a, c), Plus(b, d))
  {
  }

  function SumFirst(vals: seq<Load>, n: nat): Load
    requires n <= |vals|
  {
    if n == 0 then NONE else Plus(SumFirst(vals, n - 1), vals[n - 1])
  }

  /** The sum of the first n values. */
  function Sum(vals: seq<Load>, n: nat): Load
    requires n <= |vals|
  {
    SumFirst(vals, n)
  }

  lemma SumNone(vals: seq<Load>)
    ensures Sum(vals, 0) == NONE
  {
  }

  lemma SumNext(vals: seq<Load>, n: nat)
    requires n < |vals|
    ensures Sum(vals, n + 1) == Plus(Sum(vals, n), vals[n])
  {
    hide Plus;
  }

  lemma {:induction false} SumSame(a: seq<Load>, b: seq<Load>, n: nat)
    requires n <= |a| && n <= |b| && forall i :: 0 <= i < n ==> a[i] == b[i]
    ensures Sum(a, n) == Sum(b, n)
  {
    hide Sum, Plus;
    SumNone(a);
    SumNone(b);
    if n > 0 {
      SumSame(a, b, n - 1);
      SumNext(a, n - 1);
      SumNext(b, n - 1);
    }
  }

  lemma {:induction false} SumZeros(vals: seq<Load>, n: nat)
    requires n <= |vals| && forall i :: 0 <= i < n ==> vals[i] == NONE
    ensures Sum(vals, n) == NONE
  {
    hide Sum, Plus;
    SumNone(vals);
    if n > 0 {
      SumZeros(vals, n - 1);
      SumNext(vals, n - 1);
      PlusLaws(NONE, NONE, NONE);
    }
  }

  /** Sums add up value by value; the second may be shorter. */
  lemma {:induction false} SumPairs(a: seq<Load>, b: seq<Load>, c: seq<Load>, n: nat, m: nat)
    requires m <= n <= |a| && m <= |b| && n <= |c|
    requires forall i :: 0 <= i < m ==> c[i] == Plus(a[i], b[i])
    requires forall i :: m <= i < n ==> c[i] == a[i]
    ensures Plus(Sum(a, n), Sum(b, m)) == Sum(c, n)
    decreases n
  {
    hide Sum, Plus;
    SumNone(a);
    SumNone(b);
    SumNone(c);
    PlusLaws(NONE, NONE, NONE);
    if n > m {
      SumPairs(a, b, c, n - 1, m);
      SumNext(a, n - 1);
      SumNext(c, n - 1);
      PlusLaws(Sum(a, n - 1), a[n - 1], Sum(b, m));
      PlusLaws(a[n - 1], Sum(b, m), NONE);
      PlusLaws(Sum(a, n - 1), Sum(b, m), a[n - 1]);
    } else if n > 0 {
      SumPairs(a, b, c, n - 1, m - 1);
      SumNext(a, n - 1);
      SumNext(b, m - 1);
      SumNext(c, n - 1);
      PlusSwap(Sum(a, n - 1), a[n - 1], Sum(b, m - 1), b[m - 1]);
    }
  }

  // ----- sums along a list of cells

  function ListedFirst(vals: seq<Load>, list: seq<int>, j: nat): Load
    requires j <= |list| && forall i :: 0 <= i < |list| ==> 0 <= list[i] < |vals|
  {
    if j == 0 then NONE else Plus(ListedFirst(vals, list, j - 1), vals[list[j - 1]])
  }

  /** The values of the first j listed cells. */
  function Listed(vals: seq<Load>, list: seq<int>, j: nat): Load
    requires j <= |list| && forall i :: 0 <= i < |list| ==> 0 <= list[i] < |vals|
  {
    ListedFirst(vals, list, j)
  }

  lemma ListedNone(vals: seq<Load>, list: seq<int>)
    requires forall i :: 0 <= i < |list| ==> 0 <= list[i] < |vals|
    ensures Listed(vals, list, 0) == NONE
  {
  }

  lemma ListedNext(vals: seq<Load>, list: seq<int>, j: nat)
    requires j < |list| && forall i :: 0 <= i < |list| ==> 0 <= list[i] < |vals|
    ensures Listed(vals, list, j + 1) == Plus(Listed(vals, list, j), vals[list[j]])
  {
    hide Plus;
  }

  lemma {:induction false} SumUpdate(vals: seq<Load>, b: nat, n: nat)
    requires b < |vals| && n <= |vals|
    ensures Sum(vals, n) == if b < n then Plus(Sum(vals[b := NONE], n), vals[b]) else Sum(vals[b := NONE], n)
  {
    hide Sum, Plus;
    var zero := vals[b := NONE];
    SumNone(vals);
    SumNone(zero);
    if n > 0 {
      SumUpdate(vals, b, n - 1);
      SumNext(vals, n - 1);
      SumNext(zero, n - 1);
      PlusLaws(Sum(zero, n - 1), vals[b], vals[n - 1]);
      PlusLaws(vals[b], vals[n - 1], NONE);
      PlusLaws(Sum(zero, n - 1), vals[n - 1], vals[b]);
      PlusLaws(Sum(zero, n - 1), NONE, NONE);
    }
  }

  lemma {:induction false} ListedUpdate(vals: seq<Load>, list: seq<int>, j: nat, b: int)
    requires j <= |list| && (forall i :: 0 <= i < |list| ==> 0 <= list[i] < |vals|) && 0 <= b < |vals|
    requires forall i :: 0 <= i < j ==> list[i] != b
    ensures Listed(vals[b := NONE], list, j) == Listed(vals, list, j)
  {
    hide Listed, Plus;
    ListedNone(vals, list);
    ListedNone(vals[b := NONE], list);
    if j > 0 {
      ListedUpdate(vals, list, j - 1, b);
      ListedNext(vals, list, j - 1);
      ListedNext(vals[b := NONE], list, j - 1);
    }
  }

  /** Values that vanish off a list of different cells add up along the list. */
  lemma {:induction false} ListedIsAll(vals: seq<Load>, list: seq<int>, j: nat)
    requires j <= |list| && (forall i :: 0 <= i < |list| ==> 0 <= list[i] < |vals|)
    requires forall d, e :: 0 <= d < e < |list| ==> list[d] != list[e]
    requires forall b :: 0 <= b < |vals| && (forall i :: 0 <= i < j ==> list[i] != b) ==> vals[b] == NONE
    ensures Listed(vals, list, j) == Sum(vals, |vals|)
    decreases j
  {
    hide Listed, Sum, Plus;
    if j == 0 {
      ListedNone(vals, list);
      SumZeros(vals, |vals|);
    } else {
      var b := list[j - 1];
      ListedIsAll(vals[b := NONE], list, j - 1);
      ListedUpdate(vals, list, j - 1, b);
      ListedNext(vals, list, j - 1);
      SumUpdate(vals, b, |vals|);
    }
  }

  // ----- energies

  function EnergyFirst(vals: seq<Load>, n: nat): real
    requires n <= |vals|
  {
    if n == 0 then 0.0 else EnergyFirst(vals, n - 1) + vals[n - 1].u
  }

  /** The energy of the first n slots. */
  function Energy(vals: seq<Load>, n: nat): real
    requires n <= |vals|
  {
    EnergyFirst(vals, n)
  }

  lemma {:induction false} EnergyAdd(vals: seq<Load>, i: nat, c: Load, n: nat)
    requires i < |vals| && n <= |vals|
    ensures Energy(vals[i := Plus(vals[i], c)], n) == Energy(vals, n) + if i < n then c.u else 0.0
  {
    if n > 0 {
      EnergyAdd(vals, i, c, n - 1);
    }
  }

  lemma {:induction false} EnergyZero(vals: seq<Load>, n: nat)
    requires n <= |vals| && forall i :: 0 <= i < n ==> vals[i] == NONE
    ensures Energy(vals, n) == 0.0
  {
    if n > 0 {
      EnergyZero(vals, n - 1);
    }
  }

  lemma {:induction false} EnergySame(a: seq<Load>, b: seq<Load>, n: nat)
    requires n <= |a| && n <= |b| && forall i :: 0 <= i < n ==> a[i] == b[i]
    ensures Energy(a, n) == Energy(b, n)
  {
    if n > 0 {
      EnergySame(a, b, n - 1);
    }
  }
}
