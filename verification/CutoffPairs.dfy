/** What the two embedded atom kernels differ in: pairs exactly at the cutoff, which the
    half-pair kernel leaves out of its last pass and the full-pair kernel does not. */
module CutoffPairs {
  import opened Triples
  import opened LoadSums
  import opened PairForces
  import opened PairLaws
  import opened FullPairs
  import EmbeddedAtom

  function Strict(p: Potential): Potential {
    p.(strict := true)
  }

  function Loose(p: Potential): Potential {
    p.(strict := false)
  }

  lemma BothGood(p: Potential)
    requires Good(p)
    ensures Good(Strict(p)) && Good(Loose(p)) && Cut2(Strict(p)) == Cut2(p) == Cut2(Loose(p))
  {
  }

  /** What slot i gets from slot j if the pair is exactly at the cutoff. */
  function CutLoad(e: Store, p: Potential, i: int, j: int): Load
    requires Good(p) && 0 <= i < |e.r| && 0 <= j < |e.r|
  {
    var r2 := R2(e, i, j);
    if r2 == Cut2(p) && r2 > 0.0 then Contribution(p, Couple(p, i, j), Difference(e.r[i], e.r[j]), r2) else NONE
  }

  lemma SameContribution(p: Potential, i: int, j: int, dr: Triple<real>, r2: real)
    requires Good(p) && r2 > 0.0
    ensures Good(Strict(p)) && Good(Loose(p))
    ensures Contribution(Strict(p), Couple(Strict(p), i, j), dr, r2) == Contribution(p, Couple(p, i, j), dr, r2)
    ensures Contribution(Loose(p), Couple(Loose(p), i, j), dr, r2) == Contribution(p, Couple(p, i, j), dr, r2)
  {
    BothGood(p);
    hide Times, Scaled, LjEnergy, LjSlope, Over, Cubed;
  }

  lemma BeyondIs(p: Potential, r2: real)
    ensures Beyond(Strict(p), r2) <==> r2 >= Cut2(p)
    ensures Beyond(Loose(p), r2) <==> r2 > Cut2(p)
  {
    hide Times;
  }

  lemma CutLoadIs(e: Store, p: Potential, i: int, j: int)
    requires Good(p) && 0 <= i < |e.r| && 0 <= j < |e.r|
    ensures R2(e, i, j) == Cut2(p) && R2(e, i, j) > 0.0 ==>
              CutLoad(e, p, i, j) == Contribution(p, Couple(p, i, j), Difference(e.r[i], e.r[j]), R2(e, i, j))
    ensures !(R2(e, i, j) == Cut2(p) && R2(e, i, j) > 0.0) ==> CutLoad(e, p, i, j) == NONE
  {
    hide R2, Contribution, Cut2, Couple;
  }

  lemma PairSplit(e: Store, p: Potential, i: int, j: int)
    requires Good(p) && Good(Strict(p)) && Good(Loose(p)) && 0 <= i < |e.r| && 0 <= j < |e.r|
    ensures PairLoad(e, Loose(p), i, j) == Plus(PairLoad(e, Strict(p), i, j), CutLoad(e, p, i, j))
  {
    hide *;
    BeyondIs(p, R2(e, i, j));
    PairLoadIs(e, Strict(p), i, j);
    PairLoadIs(e, Loose(p), i, j);
    CutLoadIs(e, p, i, j);
    if R2(e, i, j) > 0.0 {
      SameContribution(p, i, j, Difference(e.r[i], e.r[j]), R2(e, i, j));
    }
    PlusLaws(PairLoad(e, Strict(p), i, j), NONE, NONE);
    PlusLaws(CutLoad(e, p, i, j), NONE, NONE);
  }

  function CutVals(e: Store, p: Potential, i: int, b: int): (vals: seq<Load>)
    requires ValidStore(e) && Good(p) && 0 <= i < |e.r| && 0 <= b < |e.nAtoms|
    ensures |vals| == e.nAtoms[b]
    ensures forall k :: 0 <= k < |vals| ==>
              Holds(e, b, k) && 0 <= Slot(b, k) < |e.r| && vals[k] == CutLoad(e, p, i, Slot(b, k))
  {
    seq(e.nAtoms[b], k requires 0 <= k < e.nAtoms[b] => CutLoad(e, p, i, Slot(b, k)))
  }

  function CutCell(e: Store, p: Potential, i: int, b: int): Load
    requires ValidStore(e) && Good(p) && 0 <= i < |e.r| && 0 <= b < |e.nAtoms|
  {
    Sum(CutVals(e, p, i, b), e.nAtoms[b])
  }

  function CutCellVals(e: Store, p: Potential, i: int): (vals: seq<Load>)
    requires ValidStore(e) && Good(p) && 0 <= i < |e.r|
    ensures |vals| == |e.nAtoms| && forall b :: 0 <= b < |vals| ==> vals[b] == CutCell(e, p, i, b)
  {
    seq(|e.nAtoms|, b requires 0 <= b < |e.nAtoms| => CutCell(e, p, i, b))
  }

  /** What slot i gets from all atoms exactly at the cutoff. */
  function AtCutoff(e: Store, p: Potential, i: int): Load
    requires ValidStore(e) && Good(p) && 0 <= i < |e.r|
  {
    Sum(CutCellVals(e, p, i), |e.nAtoms|)
  }

  lemma CellSplit(e: Store, p: Potential, i: int, b: int)
    requires ValidStore(e) && Good(p) && Good(Strict(p)) && Good(Loose(p)) && 0 <= i < |e.r| && 0 <= b < |e.nAtoms|
    ensures CellLoad(e, Loose(p), i, b) == Plus(CellLoad(e, Strict(p), i, b), CutCell(e, p, i, b))
  {
    var n := e.nAtoms[b];
    var loose, strict, cut := PairVals(e, Loose(p), i, b), PairVals(e, Strict(p), i, b), CutVals(e, p, i, b);
    hide PairLoad, CutLoad, Slot, Sum, Plus, Good, ValidStore, Loose, Strict;
    forall k | 0 <= k < n
      ensures loose[k] == Plus(strict[k], cut[k])
    {
      PairSplit(e, p, i, Slot(b, k));
    }
    SumPairs(strict, cut, loose, n, n);
  }

  /** The full sum is the sum without the pairs at the cutoff, and those pairs. */
  lemma SumSplit(e: Store, p: Potential, i: int)
    requires ValidStore(e) && Good(p) && Good(Strict(p)) && Good(Loose(p)) && 0 <= i < |e.r|
    ensures BruteForce(e, Loose(p), i) == Plus(BruteForce(e, Strict(p), i), AtCutoff(e, p, i))
  {
    var n := |e.nAtoms|;
    var loose, strict, cut := CellVals(e, Loose(p), i), CellVals(e, Strict(p), i), CutCellVals(e, p, i);
    hide CellLoad, CutCell, Sum, Plus, Good, ValidStore, Loose, Strict;
    forall b | 0 <= b < n
      ensures loose[b] == Plus(strict[b], cut[b])
    {
      CellSplit(e, p, i, b);
    }
    SumPairs(strict, cut, loose, n, n);
  }

  // ----- sums over the same pairs

  lemma SameCell(e: Store, p: Potential, q: Potential, i: int, b: int)
    requires ValidStore(e) && Good(p) && Good(q) && 0 <= i < |e.r| && 0 <= b < |e.nAtoms|
    requires forall k :: Holds(e, b, k) ==> SamePair(e, p, q, i, Slot(b, k))
    ensures CellLoad(e, p, i, b) == CellLoad(e, q, i, b)
  {
    var n := e.nAtoms[b];
    var one, two := PairVals(e, p, i, b), PairVals(e, q, i, b);
    hide PairLoad, Slot, Sum, Good, ValidStore, Holds;
    forall k | 0 <= k < n
      ensures one[k] == two[k]
    {
      assert Holds(e, b, k);
    }
    SumSame(one, two, n);
  }

  ghost predicate SamePair(e: Store, p: Potential, q: Potential, i: int, j: int)
    requires Good(p) && Good(q) && 0 <= i < |e.r|
  {
    0 <= j < |e.r| ==> PairLoad(e, p, i, j) == PairLoad(e, q, i, j)
  }

  lemma SameSum(e: Store, p: Potential, q: Potential, i: int)
    requires ValidStore(e) && Good(p) && Good(q) && 0 <= i < |e.r|
    requires forall b, k :: Holds(e, b, k) ==> SamePair(e, p, q, i, Slot(b, k))
    ensures BruteForce(e, p, i) == BruteForce(e, q, i)
  {
    var n := |e.nAtoms|;
    var one, two := CellVals(e, p, i), CellVals(e, q, i);
    hide CellLoad, Slot, Sum, Good, ValidStore, Holds, SamePair;
    forall b | 0 <= b < n
      ensures one[b] == two[b]
    {
      SameCell(e, p, q, i, b);
    }
    SumSame(one, two, n);
  }

  /** The derivatives are the same wherever there is an atom. */
  ghost predicate SameDerivatives(e: Store, df: seq<real>, df2: seq<real>) {
    |df| == |df2| == |e.r| && forall x :: 0 <= x < |df| && InUse(e, x) ==> df[x] == df2[x]
  }

  lemma SameForces(e: Store, t: EmbeddedAtom.Tables, cutoff: real, df: seq<real>, df2: seq<real>, strict: bool, i: int)
    requires ValidStore(e) && EmbeddedAtom.GoodTables(t, cutoff) && SameDerivatives(e, df, df2)
    requires 0 <= i < |e.r| && InUse(e, i)
    ensures Good(EmbeddedAtom.ForcePass(t, cutoff, df, strict)) && Good(EmbeddedAtom.ForcePass(t, cutoff, df2, strict))
    ensures BruteForce(e, EmbeddedAtom.ForcePass(t, cutoff, df, strict), i) ==
            BruteForce(e, EmbeddedAtom.ForcePass(t, cutoff, df2, strict), i)
  {
    EmbeddedAtom.PassesGood(t, cutoff, df, strict);
    EmbeddedAtom.PassesGood(t, cutoff, df2, strict);
    var p, q := EmbeddedAtom.ForcePass(t, cutoff, df, strict), EmbeddedAtom.ForcePass(t, cutoff, df2, strict);
    forall b, k | Holds(e, b, k)
      ensures SamePair(e, p, q, i, Slot(b, k))
    {
      hide *;
      SamePairAt(e, t, cutoff, df, df2, strict, i, b, k);
    }
    hide *;
    SameSum(e, p, q, i);
  }

  lemma SamePairAt(e: Store, t: EmbeddedAtom.Tables, cutoff: real, df: seq<real>, df2: seq<real>, strict: bool,
                   i: int, b: int, k: int)
    requires ValidStore(e) && SameDerivatives(e, df, df2) && 0 <= i < |e.r| && InUse(e, i) && Holds(e, b, k)
    requires Good(EmbeddedAtom.ForcePass(t, cutoff, df, strict)) && Good(EmbeddedAtom.ForcePass(t, cutoff, df2, strict))
    ensures SamePair(e, EmbeddedAtom.ForcePass(t, cutoff, df, strict), EmbeddedAtom.ForcePass(t, cutoff, df2, strict),
                     i, Slot(b, k))
  {
    SlotInside(e, b, k);
    assert InUse(e, Slot(b, k));
    hide Slot, Times, Scaled, Over, R2, InUse, ValidStore;
  }

  // ----- the kernels agree exactly when nothing is at the cutoff

  /** The kernels' loads are the same on every local atom. */
  ghost predicate SameLoads(e: Store, one: seq<Load>, two: seq<Load>) {
    forall x :: 0 <= x < LocalSlots(e) && x < |one| && x < |two| && InUse(e, x) ==> one[x] == two[x]
  }

  /** Whatever sits exactly at the cutoff of a local atom adds up to nothing. */
  ghost predicate NothingAtCutoff(e: Store, p: Potential)
    requires ValidStore(e) && Good(p)
  {
    forall x :: 0 <= x < LocalSlots(e) && x < |e.r| && InUse(e, x) ==> AtCutoff(e, p, x) == NONE
  }

  lemma PlusCancels(a: Load, b: Load, c: Load)
    ensures Plus(a, b) == Plus(a, Plus(b, c)) <==> c == NONE
  {
  }

  lemma LoadsAt(e: Store, t: EmbeddedAtom.Tables, cutoff: real, df: seq<real>, df2: seq<real>,
                half0: seq<Load>, full0: seq<Load>, half: seq<Load>, full: seq<Load>, x: int)
    requires EmbeddedAtom.GoodTables(t, cutoff) && ValidStore(e) && SameDerivatives(e, df, df2)
    requires Added(e, EmbeddedAtom.ForcePass(t, cutoff, df, true), half0, half)
    requires Added(e, EmbeddedAtom.ForcePass(t, cutoff, df2, false), full0, full)
    requires 0 <= x < LocalSlots(e) && x < |e.r| && InUse(e, x) && |half0| == |full0| == |e.r| && half0[x] == full0[x]
    ensures Good(EmbeddedAtom.ForcePass(t, cutoff, df2, false)) && |half| == |full| == |e.r|
    ensures half[x] == full[x] <==> AtCutoff(e, EmbeddedAtom.ForcePass(t, cutoff, df2, false), x) == NONE
  {
    var p := EmbeddedAtom.ForcePass(t, cutoff, df2, false);
    EmbeddedAtom.PassesGood(t, cutoff, df2, false);
    EmbeddedAtom.PassesGood(t, cutoff, df2, true);
    BothGood(p);
    assert Loose(p) == p && Strict(p) == EmbeddedAtom.ForcePass(t, cutoff, df2, true);
    hide Added, LocalSlots, Plus, BruteForce, AtCutoff, Good, ValidStore, SameDerivatives, EmbeddedAtom.ForcePass,
         EmbeddedAtom.GoodTables, Loose, Strict, InUse;
    AddedLocal(e, EmbeddedAtom.ForcePass(t, cutoff, df, true), half0, half, x);
    AddedLocal(e, p, full0, full, x);
    SameForces(e, t, cutoff, df, df2, true, x);
    SumSplit(e, p, x);
    PlusCancels(half0[x], BruteForce(e, Strict(p), x), AtCutoff(e, p, x));
  }

  /** After the same first steps and the same exchange, the kernels give every local atom
      the same load if and only if nothing at its cutoff counts. */
  lemma AgreeExactly(e: Store, t: EmbeddedAtom.Tables, cutoff: real, df: seq<real>, df2: seq<real>,
                     half0: seq<Load>, full0: seq<Load>, half: seq<Load>, full: seq<Load>)
    requires EmbeddedAtom.GoodTables(t, cutoff) && ValidStore(e) && SameDerivatives(e, df, df2)
    requires Added(e, EmbeddedAtom.ForcePass(t, cutoff, df, true), half0, half)
    requires Added(e, EmbeddedAtom.ForcePass(t, cutoff, df2, false), full0, full)
    requires |half0| == |full0| == |e.r| && SameLoads(e, half0, full0)
    ensures Good(EmbeddedAtom.ForcePass(t, cutoff, df2, false))
    ensures SameLoads(e, half, full) <==> NothingAtCutoff(e, EmbeddedAtom.ForcePass(t, cutoff, df2, false))
  {
    EmbeddedAtom.PassesGood(t, cutoff, df2, false);
    hide Added, LocalSlots, Plus, BruteForce, AtCutoff, Good, ValidStore, SameDerivatives, EmbeddedAtom.ForcePass,
         EmbeddedAtom.GoodTables, InUse;
    AddedSizes(e, EmbeddedAtom.ForcePass(t, cutoff, df, true), half0, half);
    AddedSizes(e, EmbeddedAtom.ForcePass(t, cutoff, df2, false), full0, full);
    forall x | 0 <= x < LocalSlots(e) && x < |e.r| && InUse(e, x)
      ensures half[x] == full[x] <==> AtCutoff(e, EmbeddedAtom.ForcePass(t, cutoff, df2, false), x) == NONE
    {
      LoadsAt(e, t, cutoff, df, df2, half0, full0, half, full, x);
    }
  }

  /** No atom is exactly at the cutoff of slot i. */
  ghost predicate NoPairAtCutoff(e: Store, p: Potential, i: int)
    requires 0 <= i < |e.r|
  {
    forall b, k :: Holds(e, b, k) && 0 <= Slot(b, k) < |e.r| ==> R2(e, i, Slot(b, k)) != Cut2(p)
  }

  lemma NoPairNothing(e: Store, p: Potential, i: int)
    requires ValidStore(e) && Good(p) && 0 <= i < |e.r| && NoPairAtCutoff(e, p, i)
    ensures AtCutoff(e, p, i) == NONE
  {
    var cells := CutCellVals(e, p, i);
    hide Sum, R2, Cut2, Slot, Good, ValidStore, Contribution, CutCell;
    forall b | 0 <= b < |cells|
      ensures cells[b] == NONE
    {
      CutCellNone(e, p, i, b);
    }
    SumZeros(cells, |e.nAtoms|);
  }

  lemma CutCellNone(e: Store, p: Potential, i: int, b: int)
    requires ValidStore(e) && Good(p) && 0 <= i < |e.r| && 0 <= b < |e.nAtoms|
    requires forall k :: Holds(e, b, k) && 0 <= Slot(b, k) < |e.r| ==> R2(e, i, Slot(b, k)) != Cut2(p)
    ensures CutCell(e, p, i, b) == NONE
  {
    var vals := CutVals(e, p, i, b);
    hide Sum, R2, Cut2, Slot, Good, ValidStore, Contribution;
    SumZeros(vals, e.nAtoms[b]);
  }
}
