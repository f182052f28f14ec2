/** A rank on which the counter of local atoms goes wrong. */
module CounterDrift {
  import opened Triples
  import opened LinkCellIndex
  import opened Decomposition
  import opened Atoms
  import opened LinkCells

  const ORIGIN: Triple<int> := Triple(0, 0, 0)

  /** An atom on the x axis. */
  function OnAxisAt(x: real): Atom {
    Atom(0, 0, Triple(x, 0.5, 0.5), Triple(0.0, 0.0, 0.0))
  }

  /** Half a cell inside the first rank's brick is its first cell, half a cell outside its
      first halo cell. */
  lemma CellsOfAtom()
    ensures ValidDomain(CUBE) && NLocalBoxes(CUBE.gridSize) == 8 && NTotalBoxes(CUBE.gridSize) == 64
    ensures Reachable(CUBE, ORIGIN, OnAxisAt(0.5)) && BoxOf(CUBE, ORIGIN, OnAxisAt(0.5)) == 0
    ensures Reachable(CUBE, ORIGIN, OnAxisAt(-0.5)) && BoxOf(CUBE, ORIGIN, OnAxisAt(-0.5)) == 8
  {
    TuplesOfAtom();
  }

  lemma TuplesOfAtom()
    ensures TupleOfCoord(CUBE, ORIGIN, OnAxisAt(0.5).r) == Triple(0, 0, 0)
    ensures TupleOfCoord(CUBE, ORIGIN, OnAxisAt(-0.5).r) == Triple(-1, 0, 0)
  {
  }

  /** Cells that hold one atom in all have room to be re-binned. */
  lemma {:induction false} CountAtMost(d: Domain, c: Triple<int>, cells: Cells, n: nat, j: int)
    requires ValidDomain(d) && n <= |cells|
    ensures CountAll(d, c, cells, n, j) <= Occupied(cells, 0, n)
  {
    if n > 0 {
      CountAtMost(d, c, cells, n - 1, j);
      CountForBound(d, c, cells[n - 1], j);
    }
  }

  lemma {:induction false} OneAtom(cells: Cells, n: nat)
    requires 0 < n <= |cells| && |cells[0]| == 1 && forall k :: 0 < k < n ==> cells[k] == []
    ensures Occupied(cells, 0, n) == 1
  {
    if n > 1 {
      OneAtom(cells, n - 1);
    }
  }

  lemma OneAtomFits(d: Domain, c: Triple<int>, cells: Cells, n: nat)
    requires ValidDomain(d)
    requires 0 < n <= |cells| && |cells[0]| == 1 && forall k :: 0 < k < n ==> cells[k] == []
    ensures RoomToRebin(d, c, cells, n)
  {
    hide BoxOf, CountAll, CountFor;
    OneAtom(cells, n);
    forall j | 0 <= j < |cells|
      ensures CountAll(d, c, cells, n, j) + (if j < n then Misplaced(d, c, cells[j], j) else 0) < MAXATOMS
    {
      CountAtMost(d, c, cells, n, j);
      CountForBound(d, c, cells[j], j);
    }
  }

  lemma OneCounted(d: Domain, c: Triple<int>, cells: Cells, n: nat, j: int)
    requires ValidDomain(d)
    requires 0 < n <= |cells| && |cells[0]| == 1 && forall k :: 0 < k < n ==> cells[k] == []
    requires BoxOf(d, c, cells[0][0]) == j
    ensures CountAll(d, c, cells, n, j) == 1
  {
    OneAtom(cells, n);
    CountAtMost(d, c, cells, n, j);
    CountForMember(d, c, cells[0], cells[0][0]);
    CountAllCovers(d, c, cells, n, 0, j);
  }

  /** The atom of the first cell moves by one cell width, as a time step may move it. */
  method Advance(s: LinkCellStore, x: real)
    requires s.Valid() && s.contents[0] == [OnAxisAt(0.5)]
    modifies s`contents, s.atoms
    ensures s.Valid() && s.contents == old(s.contents)[0 := [OnAxisAt(x)]]
  {
    hide NLocalBoxes, NTotalBoxes, ValidDomain;
    assert s.Stores(0, s.contents[0]);
    s.atoms[0] := OnAxisAt(x);
    s.contents := s.contents[0 := [OnAxisAt(x)]];
    assert forall k :: 0 <= k < s.nTotalBoxes && k != 0 ==> old(s.Stores(k, s.contents[k]));
  }

  /** A rank with one local atom, which moves into the first halo cell: before
      updateLinkCells the counter is 1 and right, afterwards it is 1 and there is no local
      atom. */
  method Drifts() returns (ok: bool, was: int, s: LinkCellStore)
    ensures ok && s.Valid() && was == 1 && s.nLocal == 1
    ensures Occupied(s.contents, 0, s.nLocalBoxes) == 0
  {
    CellsOfAtom();
    hide BoxOf, Reachable, NLocalBoxes, NTotalBoxes, ValidDomain, RoomToRebin, CountAll, Occupied, InPlace, Total;
    s := new LinkCellStore(CUBE, ORIGIN, OnAxisAt(0.0));
    s.PutAtomInBox(OnAxisAt(0.5));
    was := s.nLocal;
    Advance(s, -0.5);
    OneAtom(s.contents, s.nLocalBoxes);
    OneAtomFits(CUBE, ORIGIN, s.contents, s.nLocalBoxes);
    OneCounted(CUBE, ORIGIN, s.contents, s.nLocalBoxes, s.nLocalBoxes);
    ghost var before := s.contents;
    ok := s.UpdateLinkCells();
    NoneLeft(before, s);
  }

  /** All cells but the one that the atom went to are empty. */
  lemma NoneLeft(before: Cells, s: LinkCellStore)
    requires s.Valid() && |before| == |s.contents| && 0 < s.nLocalBoxes < s.nTotalBoxes == |before|
    requires |before[0]| == 1 && forall k :: 0 < k < s.nLocalBoxes ==> before[k] == []
    requires BoxOf(s.d, s.c, before[0][0]) == s.nLocalBoxes
    requires forall k :: 0 <= k < s.nTotalBoxes ==> |s.contents[k]| == CountAll(s.d, s.c, before, s.nLocalBoxes, k)
    ensures Occupied(s.contents, 0, s.nLocalBoxes) == 0
  {
    hide BoxOf, NLocalBoxes, NTotalBoxes;
    forall k | 0 <= k < s.nLocalBoxes
      ensures s.contents[k] == []
    {
      CountAllZero(s.d, s.c, before, s.nLocalBoxes, k);
    }
    OccupiedNothing(s.contents, 0, s.nLocalBoxes);
  }
}
