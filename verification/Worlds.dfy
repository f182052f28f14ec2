/** For every set of atoms that the cells have room for there is a consistent state, and
    stores that hold it: the results about such states are about every simulation. */
module Worlds {
  import opened Triples
  import opened LinkCellIndex
  import opened Decomposition
  import opened Atoms
  import opened Periodic
  import opened Placement
  import opened HaloBuffers
  import opened Simulation
  import opened ForceExchange
  import opened PairImages
  import opened ConsistentStores
  import AtomProtocol
  import AllRanks
  import PF = PairForces

  // ----- ascending lists of ids

  lemma Some<K>(s: set<K>) returns (k: K)
    requires s != {}
    ensures k in s
  {
    k :| k in s;
  }

  lemma {:induction false} HasLeast(s: set<int>) returns (m: int)
    requires s != {}
    ensures m in s && forall x :: x in s ==> m <= x
    decreases |s|
  {
    var k := Some(s);
    m := k;
    if s - {k} != {} {
      var n := HasLeast(s - {k});
      assert forall x :: x in s ==> x == k || x in s - {k};
      if n < k {
        m := n;
      }
    } else {
      assert s == {k};
    }
  }

  /** The ids in ascending order. */
  lemma {:induction false} InOrder(s: set<int>) returns (ids: seq<int>)
    ensures AscendingIds(ids) && forall x :: x in ids <==> x in s
    decreases |s|
  {
    if s == {} {
      ids := [];
    } else {
      var m := HasLeast(s);
      var rest := InOrder(s - {m});
      ids := [m] + rest;
      forall i, j | 0 <= i < j < |ids|
        ensures ids[i] < ids[j]
      {
        assert rest[j - 1] in rest;
      }
    }
  }

  // ----- what every cell must hold

  /** The copy of an atom that belongs in cell t of brick rho, if there is one. */
  function CopyIn(d: Domain, pop: Population, rho: Triple<int>, t: Triple<int>, gid: int): Atom
    requires ValidDomain(d) && gid in pop
  {
    var a := pop[gid].atom;
    Atom(gid, a.species,
         Triple(ImageCoord(d, true, X, a.r.x, rho.x, t.x), ImageCoord(d, true, Y, a.r.y, rho.y, t.y),
                ImageCoord(d, true, Z, a.r.z, rho.z, t.z)), a.p)
  }

  lemma ExpectedCopy(d: Domain, pop: Population, rho: Triple<int>, t: Triple<int>, b: Atom)
    requires ValidDomain(d)
    ensures Expected(d, pop, AtomProtocol.ALL, rho, t, b) <==>
              b.gid in pop && HasImage(d, pop[b.gid].atom.r, rho, t) && b == CopyIn(d, pop, rho, t, b.gid)
  {
    hide GlobalCell, ImageCell, Periods, Shifted;
  }

  ghost predicate RightCell(d: Domain, pop: Population, rho: Triple<int>, t: Triple<int>, cell: seq<Atom>)
    requires ValidDomain(d)
  {
    HoldsExactly(d, pop, AtomProtocol.ALL, rho, t, cell) && Ascending(cell)
  }

  lemma CellExists(d: Domain, pop: Population, rho: Triple<int>, t: Triple<int>) returns (cell: seq<Atom>)
    requires ValidDomain(d)
    ensures RightCell(d, pop, rho, t, cell)
  {
    hide HasImage, CopyIn, Expected;
    var s := set gid | gid in pop && HasImage(d, pop[gid].atom.r, rho, t);
    var ids := InOrder(s);
    assert forall i :: 0 <= i < |ids| ==> ids[i] in ids && ids[i] in s;
    cell := seq(|ids|, i requires 0 <= i < |ids| => CopyIn(d, pop, rho, t, ids[i]));
    forall i | 0 <= i < |ids|
      ensures cell[i].gid == ids[i]
    {
      CopyHasId(d, pop, rho, t, ids[i]);
    }
    forall b: Atom
      ensures b in cell <==> Expected(d, pop, AtomProtocol.ALL, rho, t, b)
    {
      ExpectedCopy(d, pop, rho, t, b);
      if b in cell {
        var i :| 0 <= i < |cell| && cell[i] == b;
      }
      if Expected(d, pop, AtomProtocol.ALL, rho, t, b) {
        assert b.gid in ids;
        var i :| 0 <= i < |ids| && ids[i] == b.gid;
        assert cell[i] == b;
      }
    }
  }

  lemma CopyHasId(d: Domain, pop: Population, rho: Triple<int>, t: Triple<int>, gid: int)
    requires ValidDomain(d) && gid in pop
    ensures CopyIn(d, pop, rho, t, gid).gid == gid
  {
    hide ImageCoord;
  }

  ghost function SomeCell(d: Domain, pop: Population, rho: Triple<int>, t: Triple<int>): (cell: seq<Atom>)
    requires ValidDomain(d)
    ensures RightCell(d, pop, rho, t, cell)
  {
    assert exists cell :: RightCell(d, pop, rho, t, cell) by {
      var cell := CellExists(d, pop, rho, t);
    }
    var cell :| RightCell(d, pop, rho, t, cell);
    cell
  }

  ghost function RankCells(d: Domain, pop: Population, rho: Triple<int>): (cells: Cells)
    requires ValidDomain(d) && ValidGrid(d.gridSize) && 0 <= NTotalBoxes(d.gridSize)
    ensures |cells| == NTotalBoxes(d.gridSize)
    ensures forall j :: 0 <= j < |cells| ==> cells[j] == SomeCell(d, pop, rho, GetTuple(d.gridSize, j))
  {
    seq(NTotalBoxes(d.gridSize), j requires 0 <= j => SomeCell(d, pop, rho, GetTuple(d.gridSize, j)))
  }

  /** Every valid set of atoms has a consistent state. */
  lemma ConsistentExists(d: Domain, atoms: AtomSet) returns (st: State)
    requires ValidDomain(d) && ValidAtoms(d, atoms)
    ensures ValidState(d, st) && Consistent(d, atoms, st)
  {
    GridIsValid(d);
    RankRoundTrip(d, Triple(0, 0, 0));
    var pop := WithOwners(d, atoms);
    hide HoldsExactly, Ascending, NTotalBoxes, NLocalBoxes, GetTuple, GetBoxFromTuple, ProcCoord, RankOf, NRanks,
         WithOwners, ValidAtoms;
    st := seq(NRanks(d), k requires 0 <= k => RankCells(d, pop, ProcCoord(d, k)));
    forall rho: Triple<int>, t: Triple<int> | ValidCoord(d, rho) && ValidTuple(d.gridSize, t)
      ensures RightCell(d, pop, rho, t, CellAt(d, st, rho, t))
    {
      CellInRange(d, st, rho, t);
      RankRoundTrip(d, rho);
      TupleRoundTrip(d.gridSize, t);
    }
  }

  // ----- stores that hold it

  /** The arrays for the cells of a rank. */
  function StoreWith(g: Triple<int>, cells: Cells): PF.Store {
    PF.Store(g, seq(|cells|, b requires 0 <= b < |cells| => |cells[b]|),
             seq(|cells| * PF.SLOTS, x requires 0 <= x => SlotOf(cells, x).r),
             seq(|cells| * PF.SLOTS, x requires 0 <= x => SlotOf(cells, x).gid))
  }

  function SlotOf(cells: Cells, x: nat): Atom {
    var b, l := x / PF.SLOTS, x % PF.SLOTS;
    if b < |cells| && l < |cells[b]| then cells[b][l] else Atom(0, 0, Triple(0.0, 0.0, 0.0), Triple(0.0, 0.0, 0.0))
  }

  lemma StoreWithCell(g: Triple<int>, cells: Cells, b: nat)
    requires b < |cells| && |cells[b]| <= PF.SLOTS
    ensures SameCell(StoreWith(g, cells), b, cells[b])
  {
    var e := StoreWith(g, cells);
    forall l | 0 <= l < |cells[b]|
      ensures SameSlot(e, PF.Slot(b, l), cells[b][l])
    {
      var x := PF.Slot(b, l);
      assert x / PF.SLOTS == b && x % PF.SLOTS == l;
    }
  }

  lemma StoreWithFits(d: Domain, st: State, k: nat)
    requires ValidDomain(d) && ValidState(d, st) && k < |st| && AllRanks.Fits(st)
    ensures FromRank(d, st, ProcCoord(d, k), StoreWith(d.gridSize, st[k]))
  {
    GridIsValid(d);
    CoordRoundTrip(d, k);
    var rho, e := ProcCoord(d, k), StoreWith(d.gridSize, st[k]);
    hide NTotalBoxes, NLocalBoxes, GetBoxFromTuple, GetTuple, ProcCoord, RankOf, SameCell;
    forall t: Triple<int> | ValidTuple(e.g, t)
      ensures SameCell(e, GetBoxFromTuple(e.g, t), CellAt(d, st, rho, t))
    {
      CellInRange(d, st, rho, t);
      StoreWithCell(d.gridSize, st[k], GetBoxFromTuple(d.gridSize, t));
    }
  }

  /** Every valid set of atoms that fits has a world: a consistent state, and stores of
      all ranks that hold it. */
  lemma WorldExists(d: Domain, atoms: AtomSet) returns (st: State, es: seq<PF.Store>)
    requires ValidDomain(d) && ValidAtoms(d, atoms) && AllRanks.RoomForImages(d, WithOwners(d, atoms))
    ensures World(d, atoms, st, es)
  {
    hide ValidAtoms, WithOwners, AllRanks.RoomForImages, NTotalBoxes, NLocalBoxes, ProcCoord, FromRank, StoreWith,
         HoldsExactly, Ascending, AllRanks.Fits;
    st := ConsistentExists(d, atoms);
    AllRanks.ImagesFit(d, WithOwners(d, atoms), st);
    es := seq(|st|, k requires 0 <= k < |st| => StoreWith(d.gridSize, st[k]));
    forall k: nat | k < |es|
      ensures WorldAt(d, st, es[k], k)
    {
      StoreWithFits(d, st, k);
    }
  }

  lemma FewImagesFit(d: Domain, pop: Population)
    requires ValidDomain(d) && |pop| <= MAXATOMS
    ensures AllRanks.RoomForImages(d, pop)
  {
    hide Expected;
    forall rho: Triple<int>, t: Triple<int>, s: seq<Atom> |
      ValidCoord(d, rho) && ValidTuple(d.gridSize, t) && HoldsExactly(d, pop, AtomProtocol.ALL, rho, t, s)
      ensures |s| <= MAXATOMS
    {
      forall i | 0 <= i < |s|
        ensures s[i].gid in pop
      {
        assert s[i] in s;
        ExpectedCopy(d, pop, rho, t, s[i]);
      }
      DistinctFew(s, pop.Keys);
    }
  }

  lemma {:induction false} DistinctFew(s: seq<Atom>, ids: set<int>)
    requires DistinctGids(s) && forall i :: 0 <= i < |s| ==> s[i].gid in ids
    ensures |s| <= |ids|
  {
    if s != [] {
      var n := |s| - 1;
      DistinctFew(s[..n], ids - {s[n].gid});
    }
  }
}
