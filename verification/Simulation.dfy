/** Runs of the molecular dynamics loop: atoms move, ranks redistribute them, and
    the set of atoms of the simulation is conserved throughout. */
module Simulation {
  import opened Triples
  import opened LinkCellIndex
  import opened Decomposition
  import opened Atoms
  import opened Periodic
  import opened Placement
  import opened AtomProtocol
  import opened HaloBuffers
  import opened Redistribute

  /** The atoms of the simulation by id, with positions inside the periodic box. */
  type AtomSet = map<int, Atom>

  predicate ValidAtoms(d: Domain, atoms: AtomSet)
    requires ValidDomain(d)
  {
    forall gid :: gid in atoms ==> atoms[gid].gid == gid && InsideDomain(d, atoms[gid].r)
  }

  function WithOwners(d: Domain, atoms: AtomSet): Population
    requires ValidDomain(d)
  {
    map gid | gid in atoms :: Owned(OwnerCoord(d, atoms[gid].r), atoms[gid])
  }

  /** The state the force computation relies on. */
  ghost predicate Consistent(d: Domain, atoms: AtomSet, st: State)
    requires ValidDomain(d)
  {
    ValidAtoms(d, atoms) && PlacedInOrder(d, WithOwners(d, atoms), st)
  }

  // ----- where the one local copy of an atom is

  function HomeTuple(d: Domain, r: Triple<real>): Triple<int>
    requires ValidDomain(d)
  {
    Triple(GlobalCell(d, X, r.x) % d.gridSize.x, GlobalCell(d, Y, r.y) % d.gridSize.y,
           GlobalCell(d, Z, r.z) % d.gridSize.z)
  }

  lemma HomeOnAxis(cell: int, rho: int, t: int, p: int, g: int)
    requires p >= 1 && g >= 1 && 0 <= cell < p * g
    requires 0 <= rho < p && 0 <= t < g
    ensures ImageCell(cell, rho, t, p, g) <==> rho == cell / g && t == cell % g
    ensures ImageCell(cell, rho, t, p, g) ==> Periods(cell, rho, t, p, g) == 0
  {
    hide ImageCell, Periods;
    RowMajorSplit(cell, p, g);
    RowMajorBound(rho, p, t, g);
    if ImageCell(cell, rho, t, p, g) {
      PeriodsExact(cell, rho, t, p, g);
      var k := Periods(cell, rho, t, p, g);
      if k >= 1 {
        MulMono(1, k, p * g);
      } else if k <= -1 {
        MulMono(k, -1, p * g);
      }
      DivModUnique(rho, t, g);
    }
    if rho == cell / g && t == cell % g {
      PeriodsUnique(cell, rho, t, p, g, 0);
    }
  }

  lemma HomeAxis(d: Domain, ax: Axis, o: int, r: real, rho: int, t: int)
    requires ValidAxis(d, ax) && 0.0 <= r < d.globalExtent.At(ax)
    requires 0 <= rho < d.procGrid.At(ax) && 0 <= t < d.gridSize.At(ax)
    ensures FoundOn(d, true, ax, o, r, rho, t) <==>
              rho == GlobalCell(d, ax, r) / d.gridSize.At(ax) && t == GlobalCell(d, ax, r) % d.gridSize.At(ax)
    ensures FoundOn(d, true, ax, o, r, rho, t) ==> ImageCoord(d, true, ax, r, rho, t) == r
  {
    hide GlobalCell, ImageCell, Periods;
    InsideCell(d, ax, r);
    HomeOnAxis(GlobalCell(d, ax, r), rho, t, d.procGrid.At(ax), d.gridSize.At(ax));
    assert Shifted(r, 0, d.globalExtent.At(ax)) == r;
  }

  lemma HomeInRange(d: Domain, r: Triple<real>)
    requires ValidDomain(d) && InsideDomain(d, r)
    ensures ValidCoord(d, OwnerCoord(d, r)) && LocalTuple(d.gridSize, HomeTuple(d, r))
    ensures ValidTuple(d.gridSize, HomeTuple(d, r))
  {
    hide GlobalCell;
    InsideCell(d, X, r.x);
    InsideCell(d, Y, r.y);
    InsideCell(d, Z, r.z);
    RowMajorSplit(GlobalCell(d, X, r.x), d.procGrid.x, d.gridSize.x);
    RowMajorSplit(GlobalCell(d, Y, r.y), d.procGrid.y, d.gridSize.y);
    RowMajorSplit(GlobalCell(d, Z, r.z), d.procGrid.z, d.gridSize.z);
  }

  /** A local cell is expected to hold an atom only if it is the atom's home cell,
      and then unshifted. */
  lemma ExpectedAtHome(d: Domain, atoms: AtomSet, rho: Triple<int>, t: Triple<int>, b: Atom)
    requires ValidDomain(d) && ValidAtoms(d, atoms) && ValidCoord(d, rho) && LocalTuple(d.gridSize, t)
    ensures Expected(d, WithOwners(d, atoms), ALL, rho, t, b) <==>
              b.gid in atoms && b == atoms[b.gid] && rho == OwnerCoord(d, b.r) && t == HomeTuple(d, b.r)
  {
    hide GlobalCell, FoundOn, ImageCoord;
    if b.gid in atoms {
      var a := atoms[b.gid];
      var o := OwnerCoord(d, a.r);
      HomeAxis(d, X, o.x, a.r.x, rho.x, t.x);
      HomeAxis(d, Y, o.y, a.r.y, rho.y, t.y);
      HomeAxis(d, Z, o.z, a.r.z, rho.z, t.z);
    }
  }

  /** Slot j of local cell t on rank rho holds the atom with the given id. */
  predicate HasAt(d: Domain, st: State, rho: Triple<int>, t: Triple<int>, j: int, gid: int)
    requires ValidDomain(d) && ValidState(d, st)
  {
    && ValidCoord(d, rho) && LocalTuple(d.gridSize, t)
    && 0 <= j < |CellAt(d, st, rho, t)| && CellAt(d, st, rho, t)[j].gid == gid
  }

  /** Every atom has exactly one copy in a local cell anywhere: in its owner's home
      cell, at one slot. */
  lemma OneLocalCopy(d: Domain, atoms: AtomSet, st: State, gid: int) returns (i: nat)
    requires ValidDomain(d) && Consistent(d, atoms, st) && gid in atoms
    ensures var o, home := OwnerCoord(d, atoms[gid].r), HomeTuple(d, atoms[gid].r);
            && ValidCoord(d, o) && ValidTuple(d.gridSize, home)
            && i < |CellAt(d, st, o, home)| && CellAt(d, st, o, home)[i] == atoms[gid]
            && forall rho: Triple<int>, t: Triple<int>, j {:trigger CellAt(d, st, rho, t)[j]} ::
                 HasAt(d, st, rho, t, j, gid) ==> rho == o && t == home && j == i
  {
    hide GlobalCell, OwnerCoord, HomeTuple, Expected, GetBoxFromTuple, RankOf, NTotalBoxes, NRanks, CellAt;
    var a := atoms[gid];
    var o, home := OwnerCoord(d, a.r), HomeTuple(d, a.r);
    HomeInRange(d, a.r);
    ExpectedAtHome(d, atoms, o, home, a);
    var cell := CellAt(d, st, o, home);
    assert HoldsExactly(d, WithOwners(d, atoms), ALL, o, home, cell);
    assert a in cell;
    i :| 0 <= i < |cell| && cell[i] == a;
    forall rho: Triple<int>, t: Triple<int>, j | HasAt(d, st, rho, t, j, gid)
      ensures rho == o && t == home && j == i
    {
      var b := CellAt(d, st, rho, t)[j];
      assert HoldsExactly(d, WithOwners(d, atoms), ALL, rho, t, CellAt(d, st, rho, t));
      assert b in CellAt(d, st, rho, t);
      ExpectedAtHome(d, atoms, rho, t, b);
    }
  }

  // ----- one time step

  predicate SameShape(s: seq<Atom>, u: seq<Atom>) {
    |s| == |u| && forall i :: 0 <= i < |s| ==> u[i].gid == s[i].gid && u[i].species == s[i].species
  }

  /** At most one cell away from cell t of brick rho, on every axis. */
  predicate OneCellFrom(d: Domain, rho: Triple<int>, t: Triple<int>, r: Triple<real>)
    requires ValidDomain(d)
  {
    && -1 <= GlobalCell(d, X, r.x) - (rho.x * d.gridSize.x + t.x) <= 1
    && -1 <= GlobalCell(d, Y, r.y) - (rho.y * d.gridSize.y + t.y) <= 1
    && -1 <= GlobalCell(d, Z, r.z) - (rho.z * d.gridSize.z + t.z) <= 1
  }

  /** advancePosition on every rank: local atoms keep their slots, ids and species
      and move by at most one cell on each axis.  Momenta are free, and nothing is
      said of halo cells. */
  ghost predicate Advanced(d: Domain, st: State, moved: State)
    requires ValidDomain(d)
  {
    && ValidState(d, st) && ValidState(d, moved)
    && forall rho: Triple<int>, t: Triple<int> {:trigger CellAt(d, moved, rho, t)} {:trigger CellAt(d, st, rho, t)} ::
         ValidCoord(d, rho) && LocalTuple(d.gridSize, t) ==>
           && SameShape(CellAt(d, st, rho, t), CellAt(d, moved, rho, t))
           && forall i :: 0 <= i < |CellAt(d, moved, rho, t)| ==> OneCellFrom(d, rho, t, CellAt(d, moved, rho, t)[i].r)
  }

  function IndexOf(s: seq<Atom>, gid: int): (i: nat)
    ensures i <= |s|
    ensures i < |s| ==> s[i].gid == gid
    ensures forall j :: 0 <= j < i ==> s[j].gid != gid
  {
    if s == [] || s[0].gid == gid then 0 else 1 + IndexOf(s[1..], gid)
  }

  /** The atom in the slot that held gid before the move. */
  ghost function MovedAtom(d: Domain, atoms: AtomSet, st: State, moved: State, gid: int): Atom
    requires ValidDomain(d) && Consistent(d, atoms, st) && Advanced(d, st, moved) && gid in atoms
  {
    var o, home := OwnerCoord(d, atoms[gid].r), HomeTuple(d, atoms[gid].r);
    HomeInRange(d, atoms[gid].r);
    HomeSlot(d, atoms, st, moved, gid);
    CellAt(d, moved, o, home)[IndexOf(CellAt(d, st, o, home), gid)]
  }

  lemma HomeSlot(d: Domain, atoms: AtomSet, st: State, moved: State, gid: int)
    requires ValidDomain(d) && Consistent(d, atoms, st) && Advanced(d, st, moved) && gid in atoms
    ensures var o, home := OwnerCoord(d, atoms[gid].r), HomeTuple(d, atoms[gid].r);
            && ValidCoord(d, o) && LocalTuple(d.gridSize, home)
            && IndexOf(CellAt(d, st, o, home), gid) < |CellAt(d, st, o, home)| == |CellAt(d, moved, o, home)|
  {
    hide GlobalCell, OwnerCoord, HomeTuple, Expected, GetBoxFromTuple, RankOf, NTotalBoxes, NRanks, CellAt;
    HomeInRange(d, atoms[gid].r);
    var i := OneLocalCopy(d, atoms, st, gid);
    var o, home := OwnerCoord(d, atoms[gid].r), HomeTuple(d, atoms[gid].r);
    assert SameShape(CellAt(d, st, o, home), CellAt(d, moved, o, home));
  }

  ghost function MovedPopulation(d: Domain, atoms: AtomSet, st: State, moved: State): Population
    requires ValidDomain(d) && Consistent(d, atoms, st) && Advanced(d, st, moved)
  {
    map gid | gid in atoms :: Owned(OwnerCoord(d, atoms[gid].r), MovedAtom(d, atoms, st, moved, gid))
  }

  lemma MovedNear(d: Domain, o: Triple<int>, home: Triple<int>, r: Triple<real>)
    requires ValidDomain(d) && LocalTuple(d.gridSize, home) && OneCellFrom(d, o, home, r)
    ensures Near(d, o, r)
  {
    hide GlobalCell;
  }

  lemma MovedPopulationValid(d: Domain, atoms: AtomSet, st: State, moved: State)
    requires ValidDomain(d) && Consistent(d, atoms, st) && Advanced(d, st, moved)
    ensures ValidPopulation(d, MovedPopulation(d, atoms, st, moved))
    ensures forall gid :: gid in atoms ==> MovedAtom(d, atoms, st, moved, gid).species == atoms[gid].species
  {
    hide GlobalCell, OwnerCoord, HomeTuple, Expected, GetBoxFromTuple, RankOf, NTotalBoxes, NRanks, CellAt, Near;
    forall gid | gid in atoms
      ensures var a := MovedAtom(d, atoms, st, moved, gid); var o := OwnerCoord(d, atoms[gid].r);
              a.gid == gid && a.species == atoms[gid].species && ValidCoord(d, o) && Near(d, o, a.r)
    {
      HomeSlot(d, atoms, st, moved, gid);
      var o, home := OwnerCoord(d, atoms[gid].r), HomeTuple(d, atoms[gid].r);
      HomeInRange(d, atoms[gid].r);
      var i := OneLocalCopy(d, atoms, st, gid);
      var k := IndexOf(CellAt(d, st, o, home), gid);
      assert HasAt(d, st, o, home, k, gid);
      assert CellAt(d, st, o, home)[k].gid == gid;
      assert SameShape(CellAt(d, st, o, home), CellAt(d, moved, o, home));
      assert OneCellFrom(d, o, home, CellAt(d, moved, o, home)[k].r);
      MovedNear(d, o, home, CellAt(d, moved, o, home)[k].r);
    }
  }

  /** A slot of a local cell after the move holds the moved atom of its id. */
  lemma MovedSlot(d: Domain, atoms: AtomSet, st: State, moved: State, rho: Triple<int>, t: Triple<int>, j: nat)
    requires ValidDomain(d) && Consistent(d, atoms, st) && Advanced(d, st, moved)
    requires ValidCoord(d, rho) && LocalTuple(d.gridSize, t) && j < |CellAt(d, moved, rho, t)|
    ensures var a := CellAt(d, moved, rho, t)[j];
            && a.gid in atoms && MovedAtom(d, atoms, st, moved, a.gid) == a
            && rho == OwnerCoord(d, atoms[a.gid].r) && t == HomeTuple(d, atoms[a.gid].r)
            && j == IndexOf(CellAt(d, st, rho, t), a.gid)
  {
    hide GlobalCell, OwnerCoord, HomeTuple, Expected, GetBoxFromTuple, RankOf, NTotalBoxes, NRanks, CellAt;
    var gid := CellAt(d, moved, rho, t)[j].gid;
    assert SameShape(CellAt(d, st, rho, t), CellAt(d, moved, rho, t));
    var b := CellAt(d, st, rho, t)[j];
    assert HoldsExactly(d, WithOwners(d, atoms), ALL, rho, t, CellAt(d, st, rho, t));
    assert b in CellAt(d, st, rho, t);
    ExpectedAtHome(d, atoms, rho, t, b);
    var i := OneLocalCopy(d, atoms, st, gid);
    assert HasAt(d, st, rho, t, j, gid);
    HomeSlot(d, atoms, st, moved, gid);
    var k := IndexOf(CellAt(d, st, rho, t), gid);
    assert HasAt(d, st, rho, t, k, gid);
    assert CellAt(d, st, rho, t)[k].gid == gid;
  }

  lemma LocalCellTuple(d: Domain, st: State, rho: Triple<int>, k: nat) returns (t: Triple<int>)
    requires ValidDomain(d) && ValidState(d, st) && ValidCoord(d, rho) && k < NLocalBoxes(d.gridSize)
    ensures LocalTuple(d.gridSize, t) && GetBoxFromTuple(d.gridSize, t) == k
    ensures 0 <= RankOf(d, rho) < |st| && k < |st[RankOf(d, rho)]| && CellAt(d, st, rho, t) == st[RankOf(d, rho)][k]
  {
    GridIsValid(d);
    LocalBoxRoundTrip(d.gridSize, k);
    hide GetBoxFromTuple, NRanks, NLocalBoxes, NTotalBoxes, RankOf, GetTuple;
    t := GetTuple(d.gridSize, k);
    CellInRange(d, st, rho, t);
  }

  lemma TotalAtMostOne(cells: Cells, n: nat, a: Atom)
    requires n <= |cells|
    requires forall k :: 0 <= k < n ==> DistinctGids(cells[k])
    requires forall k, m, i, j :: 0 <= k < m < n && 0 <= i < |cells[k]| && 0 <= j < |cells[m]| ==>
               cells[k][i].gid != cells[m][j].gid
    ensures Total(cells, n)[a] <= 1
  {
    if n > 0 {
      TotalAtMostOne(cells, n - 1, a);
      SeqAtMostOne(cells[n - 1], a);
      InTotal(cells, n - 1, a);
    }
  }

  lemma SeqAtMostOne(s: seq<Atom>, a: Atom)
    requires DistinctGids(s)
    ensures multiset(s)[a] <= 1
  {
    if s != [] {
      var n := |s| - 1;
      assert s == s[..n] + [s[n]];
      SeqAtMostOne(s[..n], a);
    }
  }

  lemma MovedLocalMember(d: Domain, atoms: AtomSet, st: State, moved: State, rho: Triple<int>, a: Atom)
    requires ValidDomain(d) && Consistent(d, atoms, st) && Advanced(d, st, moved) && ValidCoord(d, rho)
    ensures a in LocalAtoms(d, moved, rho) <==>
              && a.gid in atoms && MovedAtom(d, atoms, st, moved, a.gid) == a
              && OwnerCoord(d, atoms[a.gid].r) == rho
  {
    RankRoundTrip(d, rho);
    GridIsValid(d);
    InTotal(moved[RankOf(d, rho)], NLocalBoxes(d.gridSize), a);
    hide GlobalCell, OwnerCoord, HomeTuple, Expected, GetBoxFromTuple, RankOf, NTotalBoxes, NLocalBoxes, NRanks,
         Consistent;
    if a in LocalAtoms(d, moved, rho) {
      var k :| 0 <= k < NLocalBoxes(d.gridSize) && a in moved[RankOf(d, rho)][k];
      var t := LocalCellTuple(d, moved, rho, k);
      var j :| 0 <= j < |CellAt(d, moved, rho, t)| && CellAt(d, moved, rho, t)[j] == a;
      MovedSlot(d, atoms, st, moved, rho, t, j);
    }
    if a.gid in atoms && MovedAtom(d, atoms, st, moved, a.gid) == a && OwnerCoord(d, atoms[a.gid].r) == rho {
      var home := HomeTuple(d, atoms[a.gid].r);
      HomeSlot(d, atoms, st, moved, a.gid);
      TupleRoundTrip(d.gridSize, home);
      assert a in CellAt(d, moved, rho, home);
      assert a in moved[RankOf(d, rho)][GetBoxFromTuple(d.gridSize, home)];
    }
  }

  lemma MovedOnce(d: Domain, atoms: AtomSet, st: State, moved: State, rho: Triple<int>, a: Atom)
    requires ValidDomain(d) && Consistent(d, atoms, st) && Advanced(d, st, moved) && ValidCoord(d, rho)
    ensures LocalAtoms(d, moved, rho)[a] <= 1
  {
    RankRoundTrip(d, rho);
    GridIsValid(d);
    var n := NLocalBoxes(d.gridSize);
    var cells := moved[RankOf(d, rho)];
    hide GlobalCell, OwnerCoord, HomeTuple, Expected, GetBoxFromTuple, RankOf, NTotalBoxes, NLocalBoxes, NRanks,
         Consistent, CellAt, Advanced;
    forall k | 0 <= k < n
      ensures DistinctGids(cells[k])
    {
      var t := LocalCellTuple(d, moved, rho, k);
      forall i, j | 0 <= i < j < |cells[k]|
        ensures cells[k][i].gid != cells[k][j].gid
      {
        MovedSlot(d, atoms, st, moved, rho, t, i);
        MovedSlot(d, atoms, st, moved, rho, t, j);
      }
    }
    forall k, m, i, j | 0 <= k < m < n && 0 <= i < |cells[k]| && 0 <= j < |cells[m]|
      ensures cells[k][i].gid != cells[m][j].gid
    {
      var t := LocalCellTuple(d, moved, rho, k);
      var u := LocalCellTuple(d, moved, rho, m);
      MovedSlot(d, atoms, st, moved, rho, t, i);
      MovedSlot(d, atoms, st, moved, rho, u, j);
    }
    TotalAtMostOne(cells, n, a);
  }

  lemma MovedOwned(d: Domain, atoms: AtomSet, st: State, moved: State)
    requires ValidDomain(d) && Consistent(d, atoms, st) && Advanced(d, st, moved)
    ensures OwnedBy(d, MovedPopulation(d, atoms, st, moved), moved)
  {
    hide GlobalCell, OwnerCoord, HomeTuple, LocalAtoms, NRanks, Consistent, MovedAtom;
    var pop := MovedPopulation(d, atoms, st, moved);
    forall rho: Triple<int>, a: Atom | ValidCoord(d, rho)
      ensures OwnsOnce(d, pop, moved, rho, a)
    {
      MovedLocalMember(d, atoms, st, moved, rho, a);
      MovedOnce(d, atoms, st, moved, rho, a);
    }
  }

  // ----- positions return to the periodic box

  function Wrap(d: Domain, ax: Axis, r: real): real
    requires ValidAxis(d, ax)
  {
    Shifted(r, WrapPeriods(GlobalCell(d, ax, r), d.procGrid.At(ax), d.gridSize.At(ax)), d.globalExtent.At(ax))
  }

  function WrapPeriods(cell: int, p: int, g: int): int
    requires p >= 1 && g >= 1
  {
    MulPositive(p, g);
    -(cell / (p * g))
  }

  function WrapAtom(d: Domain, a: Atom): Atom
    requires ValidDomain(d)
  {
    a.(r := Triple(Wrap(d, X, a.r.x), Wrap(d, Y, a.r.y), Wrap(d, Z, a.r.z)))
  }

  lemma WrappedCell(cell: int, p: int, g: int)
    requires p >= 1 && g >= 1
    ensures 0 <= cell + WrapPeriods(cell, p, g) * (p * g) < p * g
  {
    var m := p * g;
    assert cell == cell / m * m + cell % m;
  }

  lemma ImageOfWrapped(cell: int, k: int, rho: int, t: int, p: int, g: int)
    requires p >= 1 && g >= 1
    ensures ImageCell(cell + k * (p * g), rho, t, p, g) <==> ImageCell(cell, rho, t, p, g)
    ensures ImageCell(cell, rho, t, p, g) ==>
              Periods(cell + k * (p * g), rho, t, p, g) == Periods(cell, rho, t, p, g) - k
  {
    hide ImageCell, Periods;
    var m := p * g;
    if ImageCell(cell, rho, t, p, g) {
      PeriodsExact(cell, rho, t, p, g);
      var n := Periods(cell, rho, t, p, g);
      assert n * m == k * m + (n - k) * m;
      PeriodsUnique(cell + k * m, rho, t, p, g, n - k);
    }
    if ImageCell(cell + k * m, rho, t, p, g) {
      PeriodsExact(cell + k * m, rho, t, p, g);
      var n := Periods(cell + k * m, rho, t, p, g);
      assert (n + k) * m == k * m + n * m;
      PeriodsUnique(cell, rho, t, p, g, n + k);
    }
  }

  lemma WrapOnAxis(d: Domain, ax: Axis, o: int, u: int, r: real, rho: int, t: int)
    requires ValidAxis(d, ax)
    ensures 0.0 <= Wrap(d, ax, r) < d.globalExtent.At(ax)
    ensures FoundOn(d, true, ax, o, r, rho, t) <==> FoundOn(d, true, ax, u, Wrap(d, ax, r), rho, t)
    ensures FoundOn(d, true, ax, o, r, rho, t) ==>
              ImageCoord(d, true, ax, r, rho, t) == ImageCoord(d, true, ax, Wrap(d, ax, r), rho, t)
  {
    hide GlobalCell, ImageCell, Periods, WrapPeriods;
    var p, g, extent := d.procGrid.At(ax), d.gridSize.At(ax), d.globalExtent.At(ax);
    var cell := GlobalCell(d, ax, r);
    var k := WrapPeriods(cell, p, g);
    ShiftCell(d, ax, r, k);
    WrappedCell(cell, p, g);
    InsideCell(d, ax, Wrap(d, ax, r));
    ImageOfWrapped(cell, k, rho, t, p, g);
    ShiftTwice(r, k, Periods(cell, rho, t, p, g) - k, extent);
  }

  lemma ShiftTwice(r: real, k: int, n: int, extent: real)
    ensures Shifted(Shifted(r, k, extent), n, extent) == Shifted(r, k + n, extent)
  {
  }

  function WrapAll(d: Domain, pop: Population): AtomSet
    requires ValidDomain(d)
  {
    map gid | gid in pop :: WrapAtom(d, pop[gid].atom)
  }

  /** Wrapping positions into the box changes neither which cells hold an image nor
      where the image is. */
  lemma ExpectedWrapped(d: Domain, pop: Population, rho: Triple<int>, t: Triple<int>, b: Atom)
    requires ValidDomain(d) && ValidPopulation(d, pop)
    ensures Expected(d, pop, ALL, rho, t, b) <==> Expected(d, WithOwners(d, WrapAll(d, pop)), ALL, rho, t, b)
  {
    hide GlobalCell, FoundOn, ImageCoord, Wrap, OwnerCoord, Near;
    if b.gid in pop {
      var s := pop[b.gid];
      var u := OwnerCoord(d, WrapAtom(d, s.atom).r);
      WrapOnAxis(d, X, s.owner.x, u.x, s.atom.r.x, rho.x, t.x);
      WrapOnAxis(d, Y, s.owner.y, u.y, s.atom.r.y, rho.y, t.y);
      WrapOnAxis(d, Z, s.owner.z, u.z, s.atom.r.z, rho.z, t.z);
    }
  }

  lemma WrapAllValid(d: Domain, pop: Population)
    requires ValidDomain(d) && ValidPopulation(d, pop)
    ensures ValidAtoms(d, WrapAll(d, pop))
  {
    hide GlobalCell, FoundOn, ImageCoord, Wrap, Near;
    forall gid | gid in pop
      ensures InsideDomain(d, WrapAtom(d, pop[gid].atom).r)
    {
      var r := pop[gid].atom.r;
      WrapOnAxis(d, X, 0, 0, r.x, 0, 0);
      WrapOnAxis(d, Y, 0, 0, r.y, 0, 0);
      WrapOnAxis(d, Z, 0, 0, r.z, 0, 0);
    }
  }

  lemma PlacedWrapped(d: Domain, pop: Population, st: State)
    requires ValidDomain(d) && ValidPopulation(d, pop) && PlacedInOrder(d, pop, st)
    ensures Consistent(d, WrapAll(d, pop), st)
  {
    WrapAllValid(d, pop);
    hide Expected, CellAt, WithOwners, WrapAll, ValidPopulation, Ascending, ValidAtoms;
    var atoms := WrapAll(d, pop);
    forall rho: Triple<int>, t: Triple<int> | ValidCoord(d, rho) && ValidTuple(d.gridSize, t)
      ensures HoldsExactly(d, WithOwners(d, atoms), ALL, rho, t, CellAt(d, st, rho, t))
    {
      assert HoldsExactly(d, pop, ALL, rho, t, CellAt(d, st, rho, t));
      forall b: Atom
        ensures Expected(d, pop, ALL, rho, t, b) <==> Expected(d, WithOwners(d, atoms), ALL, rho, t, b)
      {
        ExpectedWrapped(d, pop, rho, t, b);
      }
    }
  }

  // ----- steps and runs

  /** One time step of all ranks. */
  ghost predicate TimeStep(d: Domain, st: State, next: State)
    requires ValidDomain(d)
  {
    exists moved: State :: Advanced(d, st, moved) && Redistributed(d, moved, next)
  }

  /** The same atoms: same ids and species. */
  predicate SameAtoms(before: AtomSet, after: AtomSet) {
    && before.Keys == after.Keys
    && forall gid :: gid in before ==> after[gid].species == before[gid].species
  }

  /** A step keeps the global state consistent for the same set of atoms, each at
      its own new position wrapped into the box. */
  lemma StepConsistent(d: Domain, atoms: AtomSet, st: State, moved: State, next: State) returns (after: AtomSet)
    requires ValidDomain(d) && Consistent(d, atoms, st)
    requires Advanced(d, st, moved) && Redistributed(d, moved, next)
    ensures SameAtoms(atoms, after) && Consistent(d, after, next)
    ensures forall gid :: gid in atoms ==> after[gid] == WrapAtom(d, MovedAtom(d, atoms, st, moved, gid))
  {
    hide Consistent, Advanced, Redistributed, OwnedBy, MovedAtom, PlacedInOrder, ValidPopulation, OwnerCoord, Wrap;
    var pop := MovedPopulation(d, atoms, st, moved);
    MovedPopulationValid(d, atoms, st, moved);
    MovedOwned(d, atoms, st, moved);
    assert ValidState(d, moved) by { AdvancedShape(d, st, moved); }
    RedistributeCorrect(d, pop, moved, next);
    PlacedWrapped(d, pop, next);
    after := WrapAll(d, pop);
  }

  lemma AdvancedShape(d: Domain, st: State, moved: State)
    requires ValidDomain(d) && Advanced(d, st, moved)
    ensures ValidState(d, moved)
  {
  }

  ghost predicate IsRun(d: Domain, run: seq<State>)
    requires ValidDomain(d)
  {
    forall n :: 0 <= n < |run| - 1 ==> TimeStep(d, run[n], run[n + 1])
  }

  /** Over any run of time steps no atom is lost, duplicated or changed in kind:
      after every step each cell of each rank holds exactly the images of one and
      the same set of atoms. */
  lemma {:induction false} RunConservesAtoms(d: Domain, atoms: AtomSet, run: seq<State>, n: nat) returns (now: AtomSet)
    requires ValidDomain(d) && IsRun(d, run) && n < |run|
    requires Consistent(d, atoms, run[0])
    ensures SameAtoms(atoms, now) && Consistent(d, now, run[n])
  {
    hide Consistent, Advanced, Redistributed, MovedAtom;
    if n == 0 {
      now := atoms;
    } else {
      var before := RunConservesAtoms(d, atoms, run, n - 1);
      assert TimeStep(d, run[n - 1], run[n - 1 + 1]);
      var moved: State :| Advanced(d, run[n - 1], moved) && Redistributed(d, moved, run[n]);
      now := StepConsistent(d, before, run[n - 1], moved, run[n]);
    }
  }
}
