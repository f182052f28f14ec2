/** Where atoms must be: the state of all ranks together, and the statement that
    every cell holds exactly one copy of exactly the atoms with a periodic image
    in it, axis by axis. */
module Placement {
  import opened Triples
  import opened LinkCellIndex
  import opened Decomposition
  import opened Atoms
  import opened Periodic

  /** The link cells of every rank. */
  type State = seq<Cells>

  predicate ValidState(d: Domain, st: State)
    requires ValidDomain(d)
  {
    && |st| == NRanks(d)
    && forall k :: 0 <= k < |st| ==> |st[k]| == NTotalBoxes(d.gridSize)
  }

  lemma CellInRange(d: Domain, st: State, rho: Triple<int>, t: Triple<int>)
    requires ValidDomain(d) && ValidState(d, st) && ValidCoord(d, rho) && ValidTuple(d.gridSize, t)
    ensures 0 <= RankOf(d, rho) < |st|
    ensures 0 <= GetBoxFromTuple(d.gridSize, t) < |st[RankOf(d, rho)]|
  {
    hide RankOf, GetBoxFromTuple, GetTuple, ProcCoord, NRanks, NTotalBoxes, NLocalBoxes;
    GridIsValid(d);
    RankRoundTrip(d, rho);
    TupleRoundTrip(d.gridSize, t);
  }

  /** The contents of cell t of the rank at processor coordinate rho. */
  function CellAt(d: Domain, st: State, rho: Triple<int>, t: Triple<int>): seq<Atom>
    requires ValidDomain(d) && ValidState(d, st) && ValidCoord(d, rho) && ValidTuple(d.gridSize, t)
  {
    CellInRange(d, st, rho, t);
    st[RankOf(d, rho)][GetBoxFromTuple(d.gridSize, t)]
  }

  /** An atom together with the rank that last owned it. */
  datatype Owned = Owned(owner: Triple<int>, atom: Atom)

  /** All atoms of the simulation, by global id. */
  type Population = map<int, Owned>

  predicate NearOn(d: Domain, ax: Axis, o: int, r: real)
    requires ValidAxis(d, ax)
  {
    -1 <= GlobalCell(d, ax, r) - o * d.gridSize.At(ax) <= d.gridSize.At(ax)
  }

  /** The position is inside its owner's brick or in the shell of cells around it. */
  predicate Near(d: Domain, o: Triple<int>, r: Triple<real>)
    requires ValidDomain(d)
  {
    NearOn(d, X, o.x, r.x) && NearOn(d, Y, o.y, r.y) && NearOn(d, Z, o.z, r.z)
  }

  predicate ValidPopulation(d: Domain, pop: Population)
    requires ValidDomain(d)
  {
    forall gid :: gid in pop ==>
      pop[gid].atom.gid == gid && ValidCoord(d, pop[gid].owner) && Near(d, pop[gid].owner, pop[gid].atom.r)
  }

  /** Whether, on one axis, the atom is to be found in cell t of brick rho: by its
      owner before the exchange along the axis, by every periodic image after. */
  predicate FoundOn(d: Domain, exchanged: bool, ax: Axis, o: int, r: real, rho: int, t: int)
    requires ValidAxis(d, ax)
  {
    if exchanged then
      ImageCell(GlobalCell(d, ax, r), rho, t, d.procGrid.At(ax), d.gridSize.At(ax))
    else
      OwnCell(o, GlobalCell(d, ax, r), rho, t, d.gridSize.At(ax))
  }

  /** The coordinate of that image, in the frame of brick rho. */
  function ImageCoord(d: Domain, exchanged: bool, ax: Axis, r: real, rho: int, t: int): real
    requires ValidAxis(d, ax)
  {
    if exchanged then
      Shifted(r, Periods(GlobalCell(d, ax, r), rho, t, d.procGrid.At(ax), d.gridSize.At(ax)), d.globalExtent.At(ax))
    else
      r
  }

  predicate OnAxis(d: Domain, exchanged: bool, ax: Axis, s: Owned, rho: Triple<int>, t: Triple<int>, b: Atom)
    requires ValidAxis(d, ax)
  {
    && FoundOn(d, exchanged, ax, s.owner.At(ax), s.atom.r.At(ax), rho.At(ax), t.At(ax))
    && b.r.At(ax) == ImageCoord(d, exchanged, ax, s.atom.r.At(ax), rho.At(ax), t.At(ax))
  }

  /** b is the copy of an atom of the population that belongs in cell t of rho. */
  predicate Expected(d: Domain, pop: Population, exchanged: Triple<bool>, rho: Triple<int>, t: Triple<int>, b: Atom)
    requires ValidDomain(d)
  {
    && b.gid in pop
    && b.species == pop[b.gid].atom.species
    && b.p == pop[b.gid].atom.p
    && OnAxis(d, exchanged.x, X, pop[b.gid], rho, t, b)
    && OnAxis(d, exchanged.y, Y, pop[b.gid], rho, t, b)
    && OnAxis(d, exchanged.z, Z, pop[b.gid], rho, t, b)
  }

  predicate DistinctGids(s: seq<Atom>) {
    forall i, j :: 0 <= i < j < |s| ==> s[i].gid != s[j].gid
  }

  /** Exactly the expected atoms, each once. */
  ghost predicate HoldsExactly(d: Domain, pop: Population, exchanged: Triple<bool>, rho: Triple<int>, t: Triple<int>,
                               s: seq<Atom>)
    requires ValidDomain(d)
  {
    && (forall b: Atom :: b in s <==> Expected(d, pop, exchanged, rho, t, b))
    && DistinctGids(s)
  }

  ghost predicate Placed(d: Domain, pop: Population, exchanged: Triple<bool>, st: State)
    requires ValidDomain(d) && ValidState(d, st)
  {
    forall rho: Triple<int>, t: Triple<int> :: ValidCoord(d, rho) && ValidTuple(d.gridSize, t) ==>
      HoldsExactly(d, pop, exchanged, rho, t, CellAt(d, st, rho, t))
  }

  /** An expected atom's coordinates lie in the very cell it is expected in. */
  lemma ExpectedCell(d: Domain, pop: Population, exchanged: Triple<bool>, rho: Triple<int>, t: Triple<int>, b: Atom,
                     ax: Axis)
    requires ValidDomain(d) && Expected(d, pop, exchanged, rho, t, b)
    ensures GlobalCell(d, ax, b.r.At(ax)) == rho.At(ax) * d.gridSize.At(ax) + t.At(ax)
  {
    hide GlobalCell, ImageCell, Periods;
    var s := pop[b.gid];
    var r := s.atom.r.At(ax);
    var p, g := d.procGrid.At(ax), d.gridSize.At(ax);
    assert OnAxis(d, exchanged.At(ax), ax, s, rho, t, b);
    if exchanged.At(ax) {
      var cell := GlobalCell(d, ax, r);
      var k := Periods(cell, rho.At(ax), t.At(ax), p, g);
      PeriodsExact(cell, rho.At(ax), t.At(ax), p, g);
      ShiftCell(d, ax, r, k);
      assert CellsOn(d, ax) == p * g;
    }
  }

  /** On any rank, a position is classified by the global cells of its coordinates. */
  lemma TupleFromCells(d: Domain, rho: Triple<int>, t: Triple<int>, r: Triple<real>)
    requires ValidDomain(d) && ValidTuple(d.gridSize, t)
    requires forall ax: Axis :: GlobalCell(d, ax, r.At(ax)) == rho.At(ax) * d.gridSize.At(ax) + t.At(ax)
    ensures TupleOfCoord(d, rho, r) == t
  {
    hide GlobalCell, AxisCell;
    AxisCellIsRelative(d, X, rho.x, r.x);
    AxisCellIsRelative(d, Y, rho.y, r.y);
    AxisCellIsRelative(d, Z, rho.z, r.z);
    assert GlobalCell(d, X, r.At(X)) == rho.At(X) * d.gridSize.At(X) + t.At(X);
    assert GlobalCell(d, Y, r.At(Y)) == rho.At(Y) * d.gridSize.At(Y) + t.At(Y);
    assert GlobalCell(d, Z, r.At(Z)) == rho.At(Z) * d.gridSize.At(Z) + t.At(Z);
  }

  lemma BoxTupleInjective(g: Triple<int>, t: Triple<int>, u: Triple<int>)
    requires ValidGrid(g) && ValidTuple(g, t) && ValidTuple(g, u)
    ensures GetBoxFromTuple(g, t) == GetBoxFromTuple(g, u) <==> t == u
  {
    TupleRoundTrip(g, t);
    TupleRoundTrip(g, u);
  }
}
