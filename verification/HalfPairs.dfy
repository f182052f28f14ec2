/** A pass over half pairs visits each pair of local atoms once and adds to both.  The two
    halves that an atom gets make up the sum over all atoms of the rank. */
module HalfPairs {
  import opened Triples
  import opened LinkCellIndex
  import opened Decomposition
  import opened LoadSums
  import opened PairForces
  import opened PairLaws
  import opened FullPairs

  /** Which of a pair of local atoms comes first: the one with the smaller gid for
      Lennard-Jones, the one in the earlier slot for the embedded atom method. */
  function Ord(e: Store, p: Potential, x: int): int
    requires 0 <= x < |e.gid|
  {
    if p.law.LennardJones? then e.gid[x] else x
  }

  /** Local atoms come one after another, and no other atom is at the same place as a
      local one. */
  ghost predicate Sound(e: Store, p: Potential) {
    && ValidStore(e) && Good(p)
    && (forall c, k, d, l :: LocalAtom(e, c, k) && LocalAtom(e, d, l) ==> Ordered(e, p, c, k, d, l))
    && forall c, k, d, l :: LocalAtom(e, c, k) && Holds(e, d, l) ==> NotTogether(e, c, k, d, l)
  }

  predicate LocalAtom(e: Store, c: int, k: int)
    requires ValidGrid(e.g)
  {
    Holds(e, c, k) && c < NLocalBoxes(e.g)
  }

  ghost predicate Ordered(e: Store, p: Potential, c: int, k: int, d: int, l: int) {
    && 0 <= Slot(c, k) < |e.gid| && 0 <= Slot(d, l) < |e.gid|
    && (Ord(e, p, Slot(c, k)) == Ord(e, p, Slot(d, l)) ==> c == d && k == l)
  }

  /** Local atoms have different gids. */
  ghost predicate DifferentIds(e: Store, c: int, k: int, d: int, l: int) {
    && 0 <= Slot(c, k) < |e.gid| && 0 <= Slot(d, l) < |e.gid|
    && (e.gid[Slot(c, k)] == e.gid[Slot(d, l)] ==> c == d && k == l)
  }

  /** Slots are always in order; gids are when they differ. */
  lemma OrderedBy(e: Store, p: Potential, c: int, k: int, d: int, l: int)
    requires ValidStore(e) && LocalAtom(e, c, k) && LocalAtom(e, d, l)
    requires p.law.LennardJones? ==> DifferentIds(e, c, k, d, l)
    ensures Ordered(e, p, c, k, d, l)
  {
    SlotInside(e, c, k);
    SlotInside(e, d, l);
    if Slot(c, k) == Slot(d, l) {
      SlotsDiffer(e, c, k, d, l);
    }
  }

  ghost predicate NotTogether(e: Store, c: int, k: int, d: int, l: int) {
    && 0 <= Slot(c, k) < |e.r| && 0 <= Slot(d, l) < |e.r|
    && ((c == d && k == l) || R2(e, Slot(c, k), Slot(d, l)) > 0.0)
  }

  // ----- the two halves of a pair sum

  /** The kernel skips slot j of cell b when it looks from slot i. */
  predicate Skipped(e: Store, p: Potential, i: int, b: int, j: int)
    requires ValidGrid(e.g) && 0 <= i < |e.gid| && 0 <= j < |e.gid|
  {
    b < NLocalBoxes(e.g) && Ord(e, p, j) <= Ord(e, p, i)
  }

  /** The tests of the embedded atom kernel, on cells and on slots within a cell, skip
      the same pairs. */
  lemma SkippedSlots(e: Store, p: Potential, a: int, n: int, b: int, l: int)
    requires ValidStore(e) && !p.law.LennardJones? && LocalAtom(e, a, n) && Holds(e, b, l)
    ensures 0 <= Slot(a, n) < |e.gid| && 0 <= Slot(b, l) < |e.gid|
    ensures Skipped(e, p, Slot(a, n), b, Slot(b, l)) <==> b < a || (b == a && l <= n)
  {
    SlotInside(e, a, n);
    SlotInside(e, b, l);
  }

  /** What slot i gets itself from slot l of cell b. */
  function HalfLoad(e: Store, p: Potential, i: int, b: int, l: int): Load
    requires ValidStore(e) && Good(p) && 0 <= i < |e.r| && Holds(e, b, l) && 0 <= Slot(b, l) < |e.r|
  {
    if Skipped(e, p, i, b, Slot(b, l)) then NONE else PairLoad(e, p, i, Slot(b, l))
  }

  /** What slot x is given when slot l of cell a is the first of the pair. */
  function GivenLoad(e: Store, p: Potential, x: int, a: int, l: int): Load
    requires ValidStore(e) && Good(p) && 0 <= x < |e.r| && Holds(e, a, l) && 0 <= Slot(a, l) < |e.r|
  {
    if Ord(e, p, x) > Ord(e, p, Slot(a, l)) then PairLoad(e, p, x, Slot(a, l)) else NONE
  }

  function HalfVals(e: Store, p: Potential, i: int, b: int): (vals: seq<Load>)
    requires ValidStore(e) && Good(p) && 0 <= i < |e.r| && 0 <= b < |e.nAtoms|
    ensures |vals| == e.nAtoms[b]
    ensures forall l :: 0 <= l < |vals| ==>
              Holds(e, b, l) && 0 <= Slot(b, l) < |e.r| && vals[l] == HalfLoad(e, p, i, b, l)
  {
    seq(e.nAtoms[b], l requires 0 <= l < e.nAtoms[b] => HalfLoad(e, p, i, b, l))
  }

  function GivenVals(e: Store, p: Potential, x: int, a: int): (vals: seq<Load>)
    requires ValidStore(e) && Good(p) && 0 <= x < |e.r| && 0 <= a < |e.nAtoms|
    ensures |vals| == e.nAtoms[a]
    ensures forall l :: 0 <= l < |vals| ==>
              Holds(e, a, l) && 0 <= Slot(a, l) < |e.r| && vals[l] == GivenLoad(e, p, x, a, l)
  {
    seq(e.nAtoms[a], l requires 0 <= l < e.nAtoms[a] => GivenLoad(e, p, x, a, l))
  }

  function HalfCell(e: Store, p: Potential, i: int, b: int): Load
    requires ValidStore(e) && Good(p) && 0 <= i < |e.r| && 0 <= b < |e.nAtoms|
  {
    Sum(HalfVals(e, p, i, b), e.nAtoms[b])
  }

  function GivenCell(e: Store, p: Potential, x: int, a: int): Load
    requires ValidStore(e) && Good(p) && 0 <= x < |e.r| && 0 <= a < |e.nAtoms|
  {
    Sum(GivenVals(e, p, x, a), e.nAtoms[a])
  }

  function HalfCellVals(e: Store, p: Potential, i: int): (vals: seq<Load>)
    requires ValidStore(e) && Good(p) && 0 <= i < |e.r|
    ensures |vals| == |e.nAtoms| && forall b :: 0 <= b < |vals| ==> vals[b] == HalfCell(e, p, i, b)
  {
    seq(|e.nAtoms|, b requires 0 <= b < |e.nAtoms| => HalfCell(e, p, i, b))
  }

  function GivenCellVals(e: Store, p: Potential, x: int): (vals: seq<Load>)
    requires ValidStore(e) && Good(p) && 0 <= x < |e.r|
    ensures |vals| == |e.nAtoms| && forall a :: 0 <= a < |vals| ==> vals[a] == GivenCell(e, p, x, a)
  {
    seq(|e.nAtoms|, a requires 0 <= a < |e.nAtoms| => GivenCell(e, p, x, a))
  }

  /** A pair of local atoms reaches each of them exactly once, from one side or the
      other. */
  lemma PairOnce(e: Store, p: Potential, c: int, k: int, b: int, l: int)
    requires Sound(e, p) && LocalAtom(e, c, k) && LocalAtom(e, b, l)
    ensures 0 <= Slot(c, k) < |e.r| && 0 <= Slot(b, l) < |e.r|
    ensures PairLoad(e, p, Slot(c, k), Slot(b, l)) ==
            Plus(HalfLoad(e, p, Slot(c, k), b, l), GivenLoad(e, p, Slot(c, k), b, l))
  {
    SlotInside(e, c, k);
    SlotInside(e, b, l);
    assert Ordered(e, p, c, k, b, l);
    hide ValidStore, PairLoad, Slot, Ord, GoodLaw;
    PairSelf(e, p, Slot(c, k));
    PlusLaws(PairLoad(e, p, Slot(c, k), Slot(b, l)), NONE, NONE);
  }

  /** Cell by cell, the two halves make up the whole. */
  lemma LocalCellSplit(e: Store, p: Potential, c: int, k: int, b: int)
    requires Sound(e, p) && LocalAtom(e, c, k) && 0 <= b < NLocalBoxes(e.g) && b < |e.nAtoms|
    ensures 0 <= Slot(c, k) < |e.r|
    ensures CellLoad(e, p, Slot(c, k), b) == Plus(HalfCell(e, p, Slot(c, k), b), GivenCell(e, p, Slot(c, k), b))
  {
    SlotInside(e, c, k);
    var i, n := Slot(c, k), e.nAtoms[b];
    var whole, half, given := PairVals(e, p, i, b), HalfVals(e, p, i, b), GivenVals(e, p, i, b);
    hide Sound, ValidStore, PairLoad, HalfLoad, GivenLoad, Slot, NLocalBoxes, Sum, Plus;
    forall l | 0 <= l < n
      ensures whole[l] == Plus(half[l], given[l])
    {
      PairOnce(e, p, c, k, b, l);
    }
    SumPairs(half, given, whole, n, n);
  }

  lemma HaloCellSplit(e: Store, p: Potential, c: int, k: int, b: int)
    requires Sound(e, p) && LocalAtom(e, c, k) && NLocalBoxes(e.g) <= b < |e.nAtoms| && 0 <= b
    ensures 0 <= Slot(c, k) < |e.r|
    ensures CellLoad(e, p, Slot(c, k), b) == HalfCell(e, p, Slot(c, k), b)
  {
    SlotInside(e, c, k);
    var i, n := Slot(c, k), e.nAtoms[b];
    var whole, half := PairVals(e, p, i, b), HalfVals(e, p, i, b);
    hide Sound, ValidStore, PairLoad, Slot, NLocalBoxes, Sum;
    forall l | 0 <= l < n
      ensures whole[l] == half[l]
    {
    }
    SumSame(half, whole, n);
  }

  lemma HalvesMakeWhole(e: Store, p: Potential, c: int, k: int)
    requires Sound(e, p) && LocalAtom(e, c, k)
    ensures 0 <= Slot(c, k) < |e.r| && 0 <= NLocalBoxes(e.g) <= |e.nAtoms|
    ensures Plus(Sum(HalfCellVals(e, p, Slot(c, k)), |e.nAtoms|),
                 Sum(GivenCellVals(e, p, Slot(c, k)), NLocalBoxes(e.g))) ==
            BruteForce(e, p, Slot(c, k))
  {
    SlotInside(e, c, k);
    LocalSlotsInside(e);
    var i, n, m := Slot(c, k), |e.nAtoms|, NLocalBoxes(e.g);
    var whole, half, given := CellVals(e, p, i), HalfCellVals(e, p, i), GivenCellVals(e, p, i);
    hide Sound, ValidStore, CellLoad, HalfCell, GivenCell, Slot, NLocalBoxes, Sum, Plus;
    forall b: int | 0 <= b < n
      ensures whole[b] == if b < m then Plus(half[b], given[b]) else half[b]
    {
      if b < m {
        LocalCellSplit(e, p, c, k, b);
      } else {
        HaloCellSplit(e, p, c, k, b);
      }
    }
    SumPairs(half, given, whole, n, m);
  }

  // ----- far cells give nothing

  lemma FarHalfCell(d: Domain, rho: Triple<int>, e: Store, p: Potential, c: int, k: int, b: int)
    requires Located(d, rho, e, p) && ValidStore(e) && LocalAtom(e, c, k) && 0 <= b < |e.nAtoms|
    requires b !in NeighborBoxes(e.g, c)
    ensures 0 <= Slot(c, k) < |e.r| && Good(p)
    ensures HalfCell(e, p, Slot(c, k), b) == NONE && GivenCell(e, p, Slot(c, k), b) == NONE
  {
    LocatedAt(d, rho, e, p, c, k);
    LocatedStore(d, rho, e, p);
    var i, n := Slot(c, k), e.nAtoms[b];
    hide Located, NeighborBoxes, Slot, PairLoad, NLocalBoxes, Sum, ValidStore;
    var half, given := HalfVals(e, p, i, b), GivenVals(e, p, i, b);
    forall l | 0 <= l < n
      ensures half[l] == NONE && given[l] == NONE
    {
      FarPair(d, rho, e, p, c, k, b, l);
    }
    SumZeros(half, n);
    SumZeros(given, n);
  }

  lemma HalfNeighborsSuffice(d: Domain, rho: Triple<int>, e: Store, p: Potential, c: int, k: int)
    requires Located(d, rho, e, p) && ValidStore(e) && LocalAtom(e, c, k)
    ensures 0 <= Slot(c, k) < |e.r| && Good(p) && IsList(e, NeighborBoxes(e.g, c)) && |NeighborBoxes(e.g, c)| == 27
    ensures Listed(HalfCellVals(e, p, Slot(c, k)), NeighborBoxes(e.g, c), 27) ==
            Sum(HalfCellVals(e, p, Slot(c, k)), |e.nAtoms|)
  {
    LocatedAt(d, rho, e, p, c, k);
    LocatedStore(d, rho, e, p);
    NeighborList(d, rho, e, p, c);
    var i, list := Slot(c, k), NeighborBoxes(e.g, c);
    hide Located, NeighborBoxes, Slot, HalfCell, GivenCell, NLocalBoxes, NTotalBoxes, Sum, Listed, ValidStore;
    var vals := HalfCellVals(e, p, i);
    forall b | 0 <= b < |vals| && (forall q :: 0 <= q < 27 ==> list[q] != b)
      ensures vals[b] == NONE
    {
      FarHalfCell(d, rho, e, p, c, k, b);
    }
    ListedIsAll(vals, list, 27);
  }
}
