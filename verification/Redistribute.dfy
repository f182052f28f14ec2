/** One redistribution step on all ranks, and whole runs of time steps. */
module Redistribute {
  import opened Triples
  import opened LinkCellIndex
  import opened Decomposition
  import opened Atoms
  import opened Placement
  import opened AtomExchange
  import opened AtomProtocol
  import opened HaloBuffers

  // ----- redistributeAtoms

  /** The effect of updateLinkCells on one rank, as LinkCellStore.UpdateLinkCells
      ensures it. */
  ghost predicate RebinnedRank(d: Domain, c: Triple<int>, before: Cells, after: Cells)
    requires ValidDomain(d)
  {
    && |before| == |after| == NTotalBoxes(d.gridSize)
    && 0 <= NLocalBoxes(d.gridSize) <= |before|
    && Total(after, |after|) == Total(before, NLocalBoxes(d.gridSize))
    && forall j :: 0 <= j < |after| ==> InPlace(d, c, after[j], j)
  }

  ghost predicate Rebinned(d: Domain, st: State, after: State)
    requires ValidDomain(d)
  {
    && ValidState(d, st) && ValidState(d, after)
    && forall k :: 0 <= k < |st| ==> RebinnedRank(d, ProcCoord(d, k), st[k], after[k])
  }

  ghost predicate SortedFrom(d: Domain, st: State, after: State)
    requires ValidDomain(d)
  {
    && ValidState(d, st) && ValidState(d, after)
    && forall k, j :: 0 <= k < |st| && 0 <= j < |st[k]| ==> after[k][j] == SortById(st[k][j])
  }

  /** redistributeAtoms on every rank: re-bin, exchange halos, sort all cells. */
  ghost predicate Redistributed(d: Domain, st: State, after: State)
    requires ValidDomain(d)
  {
    exists mid: State, halo: State ::
      Rebinned(d, st, mid) && HaloExchanged(d, mid, halo) && SortedFrom(d, halo, after)
  }

  // ----- ownership before the exchange

  ghost function LocalAtoms(d: Domain, st: State, rho: Triple<int>): multiset<Atom>
    requires ValidDomain(d) && ValidState(d, st) && ValidCoord(d, rho)
  {
    RankRoundTrip(d, rho);
    GridIsValid(d);
    Total(st[RankOf(d, rho)], NLocalBoxes(d.gridSize))
  }

  /** The local cells of each rank hold exactly the atoms it owns, each once. */
  ghost predicate OwnedBy(d: Domain, pop: Population, st: State)
    requires ValidDomain(d) && ValidState(d, st)
  {
    forall rho: Triple<int>, a: Atom :: ValidCoord(d, rho) ==> OwnsOnce(d, pop, st, rho, a)
  }

  ghost predicate OwnsOnce(d: Domain, pop: Population, st: State, rho: Triple<int>, a: Atom)
    requires ValidDomain(d) && ValidState(d, st) && ValidCoord(d, rho)
  {
    && (a in LocalAtoms(d, st, rho) <==> a.gid in pop && pop[a.gid] == Owned(rho, a))
    && LocalAtoms(d, st, rho)[a] <= 1
  }

  lemma NearIsReachable(d: Domain, rho: Triple<int>, a: Atom)
    requires ValidDomain(d) && Near(d, rho, a.r)
    ensures Reachable(d, rho, a)
    ensures forall ax: Axis :: GlobalCell(d, ax, a.r.At(ax)) ==
              rho.At(ax) * d.gridSize.At(ax) + TupleOfCoord(d, rho, a.r).At(ax)
  {
    hide GlobalCell, AxisCell;
    AxisCellIsRelative(d, X, rho.x, a.r.x);
    AxisCellIsRelative(d, Y, rho.y, a.r.y);
    AxisCellIsRelative(d, Z, rho.z, a.r.z);
  }

  lemma CellInTotal(cells: Cells, n: nat, k: nat, a: Atom)
    requires k < n <= |cells|
    ensures multiset(cells[k])[a] <= Total(cells, n)[a]
  {
    if k < n - 1 {
      CellInTotal(cells, n - 1, k, a);
    }
  }

  lemma TwiceInSeq(s: seq<Atom>, i: nat, j: nat)
    requires i < j < |s| && s[i] == s[j]
    ensures multiset(s)[s[i]] >= 2
  {
    assert s == s[..j] + [s[j]] + s[j + 1..];
    assert s[i] in s[..j];
    assert multiset(s) == multiset(s[..j]) + multiset{s[j]} + multiset(s[j + 1..]);
  }

  /** An owned atom is the only one expected under its id before the exchange. */
  lemma ExpectedUnexchanged(d: Domain, pop: Population, rho: Triple<int>, t: Triple<int>, b: Atom)
    requires ValidDomain(d) && ValidPopulation(d, pop) && ValidTuple(d.gridSize, t)
    ensures Expected(d, pop, NONE, rho, t, b) <==>
              b.gid in pop && pop[b.gid] == Owned(rho, b) && TupleOfCoord(d, rho, b.r) == t
  {
    hide GlobalCell, TupleOfCoord;
    if Expected(d, pop, NONE, rho, t, b) {
      var s := pop[b.gid];
      assert s.owner == rho && s.atom == b;
      assert forall ax: Axis :: GlobalCell(d, ax, b.r.At(ax)) == rho.At(ax) * d.gridSize.At(ax) + t.At(ax);
      TupleFromCells(d, rho, t, b.r);
    }
    if b.gid in pop && pop[b.gid] == Owned(rho, b) && TupleOfCoord(d, rho, b.r) == t {
      NearIsReachable(d, rho, b);
      assert GlobalCell(d, X, b.r.At(X)) == rho.At(X) * d.gridSize.At(X) + t.At(X);
      assert GlobalCell(d, Y, b.r.At(Y)) == rho.At(Y) * d.gridSize.At(Y) + t.At(Y);
      assert GlobalCell(d, Z, b.r.At(Z)) == rho.At(Z) * d.gridSize.At(Z) + t.At(Z);
    }
  }

  lemma RebinnedCell(d: Domain, pop: Population, st: State, mid: State, rho: Triple<int>, t: Triple<int>, b: Atom)
    requires ValidDomain(d) && ValidPopulation(d, pop) && Rebinned(d, st, mid) && OwnedBy(d, pop, st)
    requires ValidCoord(d, rho) && ValidTuple(d.gridSize, t)
    ensures b in CellAt(d, mid, rho, t) <==> Expected(d, pop, NONE, rho, t, b)
  {
    RankRoundTrip(d, rho);
    CellInRange(d, mid, rho, t);
    GridIsValid(d);
    ExpectedUnexchanged(d, pop, rho, t, b);
    var box := GetBoxFromTuple(d.gridSize, t);
    var cells := mid[RankOf(d, rho)];
    assert RebinnedRank(d, rho, st[RankOf(d, rho)], cells);
    InTotal(cells, |cells|, b);
    assert OwnsOnce(d, pop, st, rho, b);
    hide Expected, GetBoxFromTuple, GetTuple, RankOf, TupleOfCoord, NLocalBoxes, NTotalBoxes, ProcCoord, NRanks;
    BoxIsTuple(d, rho, b);
    if b.gid in pop && pop[b.gid] == Owned(rho, b) {
      NearIsReachable(d, rho, b);
      BoxTupleInjective(d.gridSize, TupleOfCoord(d, rho, b.r), t);
      if k :| 0 <= k < |cells| && b in cells[k] {
        assert InPlace(d, rho, cells[k], k);
      }
    }
    if b in cells[box] {
      assert InPlace(d, rho, cells[box], box);
    }
  }

  /** updateLinkCells leaves every atom with its owner, in the local or halo cell
      of its position. */
  lemma RebinnedPlaced(d: Domain, pop: Population, st: State, mid: State)
    requires ValidDomain(d) && ValidPopulation(d, pop) && Rebinned(d, st, mid) && OwnedBy(d, pop, st)
    ensures Placed(d, pop, NONE, mid)
  {
    hide Expected, GetBoxFromTuple, RankOf, NLocalBoxes, NTotalBoxes, ProcCoord, NRanks;
    forall rho: Triple<int>, t: Triple<int> | ValidCoord(d, rho) && ValidTuple(d.gridSize, t)
      ensures HoldsExactly(d, pop, NONE, rho, t, CellAt(d, mid, rho, t))
    {
      var cell := CellAt(d, mid, rho, t);
      forall b: Atom
        ensures b in cell <==> Expected(d, pop, NONE, rho, t, b)
      {
        RebinnedCell(d, pop, st, mid, rho, t, b);
      }
      forall i, j | 0 <= i < j < |cell|
        ensures cell[i].gid != cell[j].gid
      {
        OncePerCell(d, pop, st, mid, rho, t, i, j);
      }
    }
  }

  lemma OncePerCell(d: Domain, pop: Population, st: State, mid: State, rho: Triple<int>, t: Triple<int>, i: nat, j: nat)
    requires ValidDomain(d) && ValidPopulation(d, pop) && Rebinned(d, st, mid) && OwnedBy(d, pop, st)
    requires ValidCoord(d, rho) && ValidTuple(d.gridSize, t)
    requires i < j < |CellAt(d, mid, rho, t)|
    ensures CellAt(d, mid, rho, t)[i].gid != CellAt(d, mid, rho, t)[j].gid
  {
    RankRoundTrip(d, rho);
    CellInRange(d, mid, rho, t);
    var cell := CellAt(d, mid, rho, t);
    var cells := mid[RankOf(d, rho)];
    assert RebinnedRank(d, rho, st[RankOf(d, rho)], cells);
    assert LocalAtoms(d, st, rho) == Total(cells, |cells|);
    assert OwnsOnce(d, pop, st, rho, cell[i]);
    hide GetBoxFromTuple, RankOf, NLocalBoxes, NTotalBoxes, ProcCoord, NRanks, ValidPopulation;
    if cell[i].gid == cell[j].gid {
      RebinnedCell(d, pop, st, mid, rho, t, cell[i]);
      RebinnedCell(d, pop, st, mid, rho, t, cell[j]);
      ExpectedUnexchanged(d, pop, rho, t, cell[i]);
      ExpectedUnexchanged(d, pop, rho, t, cell[j]);
      TwiceInSeq(cell, i, j);
      CellInTotal(cells, |cells|, GetBoxFromTuple(d.gridSize, t), cell[i]);
    }
  }

  // ----- the step as a whole

  /** Every cell holds exactly its images, in ascending order of id. */
  ghost predicate PlacedInOrder(d: Domain, pop: Population, st: State)
    requires ValidDomain(d)
  {
    && ValidState(d, st)
    && Placed(d, pop, ALL, st)
    && forall rho: Triple<int>, t: Triple<int> :: ValidCoord(d, rho) && ValidTuple(d.gridSize, t) ==>
         Ascending(CellAt(d, st, rho, t))
  }

  lemma SortingKeepsPlaced(d: Domain, pop: Population, st: State, after: State)
    requires ValidDomain(d) && SortedFrom(d, st, after) && Placed(d, pop, ALL, st)
    ensures PlacedInOrder(d, pop, after)
  {
    hide Expected, GetBoxFromTuple, RankOf, NTotalBoxes, NRanks;
    forall rho: Triple<int>, t: Triple<int> | ValidCoord(d, rho) && ValidTuple(d.gridSize, t)
      ensures HoldsExactly(d, pop, ALL, rho, t, CellAt(d, after, rho, t)) && Ascending(CellAt(d, after, rho, t))
    {
      CellInRange(d, st, rho, t);
      var cell := CellAt(d, st, rho, t);
      assert CellAt(d, after, rho, t) == SortById(cell);
      assert HoldsExactly(d, pop, ALL, rho, t, cell);
      SortByIdSorts(cell);
      forall b: Atom
        ensures b in SortById(cell) <==> b in cell
      {
        SortByIdMembers(cell, b);
      }
    }
  }

  /** redistributeAtoms: whenever every atom is within one cell of its owner's
      brick, every local and halo cell of every rank ends up with exactly one copy
      of exactly the atoms that have a periodic image in it, sorted by id. */
  lemma RedistributeCorrect(d: Domain, pop: Population, st: State, after: State)
    requires ValidDomain(d) && ValidPopulation(d, pop) && ValidState(d, st) && OwnedBy(d, pop, st)
    requires Redistributed(d, st, after)
    ensures PlacedInOrder(d, pop, after)
  {
    hide OwnedBy, Placed, ValidState, ValidPopulation, ExchangeAxis, CanDeliver;
    var mid: State, halo: State :|
      Rebinned(d, st, mid) && HaloExchanged(d, mid, halo) && SortedFrom(d, halo, after);
    RebinnedPlaced(d, pop, st, mid);
    var full := HaloExchangeComplete(d, pop, mid);
    assert full == halo;
    SortingKeepsPlaced(d, pop, halo, after);
  }

  /** The exchange cannot fail for want of a cell: from any such state, re-binned
      in any order, it runs to the end. */
  lemma RedistributeCompletes(d: Domain, pop: Population, st: State, mid: State) returns (after: State)
    requires ValidDomain(d) && ValidPopulation(d, pop) && ValidState(d, st) && OwnedBy(d, pop, st)
    requires Rebinned(d, st, mid)
    ensures Redistributed(d, st, after)
  {
    hide OwnedBy, Placed, ValidPopulation, ExchangeAxis, CanDeliver, HaloExchanged;
    RebinnedPlaced(d, pop, st, mid);
    var halo := HaloExchangeComplete(d, pop, mid);
    after := seq(|halo|, k requires 0 <= k < |halo| =>
      seq(|halo[k]|, j requires 0 <= j < |halo[k]| => SortById(halo[k][j])));
    assert SortedFrom(d, halo, after);
  }
}
