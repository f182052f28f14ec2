/** What a rank holds after redistribution is enough for its forces: every periodic
    image within the cutoff of a local atom is there, exactly once. */
module PairImages {
  import opened Triples
  import opened LinkCellIndex
  import opened Decomposition
  import opened Atoms
  import opened Periodic
  import opened Placement
  import opened AtomProtocol
  import opened Simulation
  import PF = PairForces
  import HP = HalfPairs
  import PL = PairLaws

  /** The arrays of a rank hold the atoms of its cells. */
  ghost predicate FromRank(d: Domain, st: State, rho: Triple<int>, e: PF.Store)
    requires ValidDomain(d) && ValidState(d, st)
  {
    && PF.ValidStore(e) && e.g == d.gridSize && ValidCoord(d, rho)
    && (forall t: Triple<int> :: ValidTuple(e.g, t) ==> SameCell(e, GetBoxFromTuple(e.g, t), CellAt(d, st, rho, t)))
  }

  ghost predicate SameCell(e: PF.Store, b: int, cell: seq<Atom>) {
    && 0 <= b < |e.nAtoms| && e.nAtoms[b] == |cell|
    && forall k :: 0 <= k < |cell| ==> SameSlot(e, PF.Slot(b, k), cell[k])
  }

  ghost predicate SameSlot(e: PF.Store, x: int, a: Atom) {
    0 <= x < |e.r| && x < |e.gid| && e.r[x] == a.r && e.gid[x] == a.gid
  }

  /** Every slot in use belongs to a cell of the grid. */
  lemma SlotAtom(d: Domain, st: State, rho: Triple<int>, e: PF.Store, b: int, k: int) returns (t: Triple<int>)
    requires ValidDomain(d) && ValidState(d, st) && FromRank(d, st, rho, e) && PF.Holds(e, b, k)
    ensures t == GetTuple(e.g, b) && ValidTuple(d.gridSize, t) && GetBoxFromTuple(e.g, t) == b
    ensures 0 <= k < |CellAt(d, st, rho, t)| && SameSlot(e, PF.Slot(b, k), CellAt(d, st, rho, t)[k])
  {
    hide GetTuple, GetBoxFromTuple, CellAt, PF.Slot, NTotalBoxes, SameSlot;
    t := GetTuple(e.g, b);
    BoxRoundTrip(e.g, b);
    assert SameCell(e, GetBoxFromTuple(e.g, t), CellAt(d, st, rho, t));
  }

  /** The atom in a slot is in its place. */
  lemma SlotExpected(d: Domain, pop: Population, st: State, rho: Triple<int>, t: Triple<int>, k: int)
    requires ValidDomain(d) && ValidState(d, st) && Placed(d, pop, ALL, st)
    requires ValidCoord(d, rho) && ValidTuple(d.gridSize, t) && 0 <= k < |CellAt(d, st, rho, t)|
    ensures Expected(d, pop, ALL, rho, t, CellAt(d, st, rho, t)[k])
  {
    hide Expected, CellAt;
    assert HoldsExactly(d, pop, ALL, rho, t, CellAt(d, st, rho, t));
    assert CellAt(d, st, rho, t)[k] in CellAt(d, st, rho, t);
  }

  lemma SlotCell(d: Domain, pop: Population, rho: Triple<int>, t: Triple<int>, a: Atom)
    requires ValidDomain(d) && Expected(d, pop, ALL, rho, t, a)
    ensures PF.InCell(d, rho, t, a.r)
  {
    hide Expected, GlobalCell;
    ExpectedCell(d, pop, ALL, rho, t, a, X);
    ExpectedCell(d, pop, ALL, rho, t, a, Y);
    ExpectedCell(d, pop, ALL, rho, t, a, Z);
  }

  /** Cells are at least as wide as the cutoff. */
  ghost predicate WideCells(d: Domain, p: PL.Potential) {
    PL.Good(p) && p.cutoff <= d.boxSize.x && p.cutoff <= d.boxSize.y && p.cutoff <= d.boxSize.z
  }

  /** What the kernels assume of the cells holds after every redistribution. */
  lemma StoreLocated(d: Domain, pop: Population, st: State, rho: Triple<int>, e: PF.Store, p: PL.Potential)
    requires ValidDomain(d) && ValidState(d, st) && Placed(d, pop, ALL, st) && FromRank(d, st, rho, e)
    requires WideCells(d, p)
    ensures PF.Located(d, rho, e, p)
  {
    forall b, k | PF.Holds(e, b, k)
      ensures 0 <= PF.Slot(b, k) < |e.r| && PF.InCell(d, rho, GetTuple(e.g, b), e.r[PF.Slot(b, k)])
    {
      hide *;
      StoreLocatedAt(d, pop, st, rho, e, b, k);
    }
  }

  lemma StoreLocatedAt(d: Domain, pop: Population, st: State, rho: Triple<int>, e: PF.Store, b: int, k: int)
    requires ValidDomain(d) && ValidState(d, st) && Placed(d, pop, ALL, st) && FromRank(d, st, rho, e)
    requires PF.Holds(e, b, k)
    ensures 0 <= PF.Slot(b, k) < |e.r| && PF.InCell(d, rho, GetTuple(e.g, b), e.r[PF.Slot(b, k)])
  {
    var t := SlotAtom(d, st, rho, e, b, k);
    hide PF.InCell, GetTuple, PF.Slot, CellAt, Expected, Placed;
    SlotExpected(d, pop, st, rho, t, k);
    SlotCell(d, pop, rho, t, CellAt(d, st, rho, t)[k]);
  }

  /** The image of a position, some periods away on each axis. */
  function Image(d: Domain, r: Triple<real>, n: Triple<int>): Triple<real> {
    Triple(Shifted(r.x, n.x, d.globalExtent.x), Shifted(r.y, n.y, d.globalExtent.y),
           Shifted(r.z, n.z, d.globalExtent.z))
  }

  /** The cell of that image in the frame of brick rho. */
  function ImageTuple(d: Domain, rho: Triple<int>, r: Triple<real>): Triple<int>
    requires ValidDomain(d)
  {
    Triple(GlobalCell(d, X, r.x) - rho.x * d.gridSize.x, GlobalCell(d, Y, r.y) - rho.y * d.gridSize.y,
           GlobalCell(d, Z, r.z) - rho.z * d.gridSize.z)
  }

  lemma ImageOnAxis(d: Domain, ax: Axis, o: int, r: real, n: int, rho: int, t: int)
    requires ValidAxis(d, ax)
    requires t == GlobalCell(d, ax, Shifted(r, n, d.globalExtent.At(ax))) - rho * d.gridSize.At(ax)
    ensures FoundOn(d, true, ax, o, r, rho, t)
    ensures ImageCoord(d, true, ax, r, rho, t) == Shifted(r, n, d.globalExtent.At(ax))
  {
    hide GlobalCell, ImageCell, Periods, Shifted;
    ShiftCell(d, ax, r, n);
    PeriodsUnique(GlobalCell(d, ax, r), rho, t, d.procGrid.At(ax), d.gridSize.At(ax), n);
  }

  /** Wherever an image of an atom falls inside a rank's cells, the rank expects a copy. */
  lemma ImageExpected(d: Domain, pop: Population, rho: Triple<int>, gid: int, n: Triple<int>) returns (b: Atom)
    requires ValidDomain(d) && gid in pop
    ensures b.gid == gid && b.r == Image(d, pop[gid].atom.r, n)
    ensures Expected(d, pop, ALL, rho, ImageTuple(d, rho, b.r), b)
  {
    var s := pop[gid];
    b := Atom(gid, s.atom.species, Image(d, s.atom.r, n), s.atom.p);
    var t := ImageTuple(d, rho, b.r);
    ImageOnAxis(d, X, s.owner.x, s.atom.r.x, n.x, rho.x, t.x);
    ImageOnAxis(d, Y, s.owner.y, s.atom.r.y, n.y, rho.y, t.y);
    ImageOnAxis(d, Z, s.owner.z, s.atom.r.z, n.z, rho.z, t.z);
    hide FoundOn, ImageCoord, GlobalCell;
  }

  /** Slot l of cell b holds the atom with this id, at this position. */
  ghost predicate HeldAt(e: PF.Store, b: int, l: int, gid: int, r: Triple<real>) {
    PF.Holds(e, b, l) && 0 <= PF.Slot(b, l) < |e.r| == |e.gid| && e.gid[PF.Slot(b, l)] == gid && e.r[PF.Slot(b, l)] == r
  }

  lemma CloseTuple(d: Domain, rho: Triple<int>, p: PL.Potential, t: Triple<int>, a: Triple<real>, b: Triple<real>)
    requires ValidDomain(d) && WideCells(d, p) && LocalTuple(d.gridSize, t) && PF.InCell(d, rho, t, a)
    requires PL.Square(PL.Difference(a, b)) <= PL.Cut2(p)
    ensures ValidTuple(d.gridSize, ImageTuple(d, rho, b)) && PF.Adjacent(t, ImageTuple(d, rho, b))
  {
    hide GlobalCell, PL.Square, PL.Cut2;
    if !PF.Adjacent(t, ImageTuple(d, rho, b)) {
      PF.FarCells(d, rho, p, t, ImageTuple(d, rho, b), a, b);
    }
  }

  /** Every periodic image of an atom within the cutoff of a local atom is held by the
      rank, in an adjacent cell. */
  lemma CloseImageHeld(d: Domain, pop: Population, st: State, rho: Triple<int>, e: PF.Store, p: PL.Potential,
                       a: int, k: int, gid: int, n: Triple<int>) returns (b: int, l: int)
    requires ValidDomain(d) && ValidState(d, st) && Placed(d, pop, ALL, st) && FromRank(d, st, rho, e)
    requires WideCells(d, p)
    requires ValidGrid(e.g) && HP.LocalAtom(e, a, k) && gid in pop
    requires 0 <= PF.Slot(a, k) < |e.r|
    requires PL.Square(PL.Difference(e.r[PF.Slot(a, k)], Image(d, pop[gid].atom.r, n))) <= PL.Cut2(p)
    ensures HeldAt(e, b, l, gid, Image(d, pop[gid].atom.r, n))
    ensures PF.Adjacent(GetTuple(e.g, a), GetTuple(e.g, b))
  {
    var u := SlotAtom(d, st, rho, e, a, k);
    LocalBoxRoundTrip(e.g, a);
    var at := Image(d, pop[gid].atom.r, n);
    var t := ImageTuple(d, rho, at);
    hide PF.InCell, GetTuple, PF.Slot, CellAt, Expected, Placed, GetBoxFromTuple, PL.Square, PL.Cut2, Image,
         ImageTuple, NTotalBoxes, NLocalBoxes;
    StoreLocatedAt(d, pop, st, rho, e, a, k);
    CloseTuple(d, rho, p, u, e.r[PF.Slot(a, k)], at);
    var copy := ImageExpected(d, pop, rho, gid, n);
    l := ExpectedSlot(d, pop, st, rho, t, copy);
    b := GetBoxFromTuple(e.g, t);
    TupleRoundTrip(e.g, t);
    assert SameCell(e, b, CellAt(d, st, rho, t));
    assert SameSlot(e, PF.Slot(b, l), CellAt(d, st, rho, t)[l]);
  }

  lemma ExpectedSlot(d: Domain, pop: Population, st: State, rho: Triple<int>, t: Triple<int>,
                     copy: Atom) returns (l: int)
    requires ValidDomain(d) && ValidState(d, st) && Placed(d, pop, ALL, st)
    requires ValidCoord(d, rho) && ValidTuple(d.gridSize, t) && Expected(d, pop, ALL, rho, t, copy)
    ensures 0 <= l < |CellAt(d, st, rho, t)| && CellAt(d, st, rho, t)[l] == copy
  {
    hide Expected, CellAt;
    assert HoldsExactly(d, pop, ALL, rho, t, CellAt(d, st, rho, t));
    assert copy in CellAt(d, st, rho, t);
    l :| 0 <= l < |CellAt(d, st, rho, t)| && CellAt(d, st, rho, t)[l] == copy;
  }

  /** No image is held twice. */
  lemma ImageHeldOnce(d: Domain, pop: Population, st: State, rho: Triple<int>, e: PF.Store,
                      gid: int, r: Triple<real>, b: int, l: int, c: int, m: int)
    requires ValidDomain(d) && ValidState(d, st) && Placed(d, pop, ALL, st) && FromRank(d, st, rho, e)
    requires HeldAt(e, b, l, gid, r) && HeldAt(e, c, m, gid, r)
    ensures b == c && l == m
  {
    var t := SlotAtom(d, st, rho, e, b, l);
    var u := SlotAtom(d, st, rho, e, c, m);
    hide PF.Slot, CellAt, Expected, Placed, GetBoxFromTuple, GetTuple, GlobalCell;
    StoreLocatedAt(d, pop, st, rho, e, b, l);
    StoreLocatedAt(d, pop, st, rho, e, c, m);
    assert t == u;
    OncePerId(d, pop, st, rho, t, l, m);
  }

  lemma OncePerId(d: Domain, pop: Population, st: State, rho: Triple<int>, t: Triple<int>, l: int, m: int)
    requires ValidDomain(d) && ValidState(d, st) && Placed(d, pop, ALL, st) && ValidCoord(d, rho)
    requires ValidTuple(d.gridSize, t)
    requires 0 <= l < |CellAt(d, st, rho, t)| && 0 <= m < |CellAt(d, st, rho, t)|
    requires CellAt(d, st, rho, t)[l].gid == CellAt(d, st, rho, t)[m].gid
    ensures l == m
  {
    hide Expected, CellAt;
    assert HoldsExactly(d, pop, ALL, rho, t, CellAt(d, st, rho, t));
  }

  /** On a consistent state local atoms have different ids, as the half-pair kernel
      needs. */
  lemma LocalIdsDiffer(d: Domain, atoms: AtomSet, st: State, rho: Triple<int>, e: PF.Store, a: int, k: int, b: int,
                       l: int)
    requires ValidDomain(d) && ValidState(d, st) && Consistent(d, atoms, st) && FromRank(d, st, rho, e)
    requires ValidGrid(e.g) && HP.LocalAtom(e, a, k) && HP.LocalAtom(e, b, l)
    ensures HP.DifferentIds(e, a, k, b, l)
  {
    var t := SlotAtom(d, st, rho, e, a, k);
    var u := SlotAtom(d, st, rho, e, b, l);
    LocalBoxRoundTrip(e.g, a);
    LocalBoxRoundTrip(e.g, b);
    hide PF.Slot, CellAt, Expected, GetBoxFromTuple, GetTuple, GlobalCell, OwnerCoord, HomeTuple, NLocalBoxes,
         NTotalBoxes;
    SlotExpected(d, WithOwners(d, atoms), st, rho, t, k);
    ExpectedKnown(d, WithOwners(d, atoms), rho, t, CellAt(d, st, rho, t)[k]);
    var gid := CellAt(d, st, rho, t)[k].gid;
    if CellAt(d, st, rho, u)[l].gid == gid {
      var i := OneLocalCopy(d, atoms, st, gid);
      assert HasAt(d, st, rho, t, k, gid) && HasAt(d, st, rho, u, l, gid);
    }
  }

  lemma ExpectedKnown(d: Domain, pop: Population, rho: Triple<int>, t: Triple<int>, b: Atom)
    requires ValidDomain(d) && Expected(d, pop, ALL, rho, t, b)
    ensures b.gid in pop
  {
    hide OnAxis;
  }
}
