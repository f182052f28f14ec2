/** The loops that move atoms between a rank's cells and its message buffers, and
    the sort that puts every cell in a canonical order. */
module HaloBuffers {
  import opened Triples
  import opened LinkCellIndex
  import opened Decomposition
  import opened Atoms
  import opened LinkCells
  import opened Placement
  import opened AtomExchange

  lemma LoadNext(cells: Cells, boxes: seq<int>, i: nat, shift: Triple<real>, sofar: seq<Atom>)
    requires BoxesInRange(cells, boxes) && i < |boxes|
    ensures BoxesInRange(cells, boxes[i..]) && BoxesInRange(cells, boxes[i + 1..])
    ensures sofar + Load(cells, boxes[i..], shift)
         == sofar + ShiftAll(cells[boxes[i]], shift) + Load(cells, boxes[i + 1..], shift)
  {
    assert boxes[i..][1..] == boxes[i + 1..];
    var rest := Load(cells, boxes[i + 1..], shift);
    assert Load(cells, boxes[i..], shift) == ShiftAll(cells[boxes[i]], shift) + rest;
    assert sofar + (ShiftAll(cells[boxes[i]], shift) + rest) == sofar + ShiftAll(cells[boxes[i]], shift) + rest;
  }

  /** loadAtomsBuffer */
  method LoadAtomsBuffer(s: LinkCellStore, cellList: seq<int>, shift: Triple<real>) returns (buf: seq<Atom>)
    requires s.Valid() && BoxesInRange(s.contents, cellList)
    ensures buf == Load(s.contents, cellList, shift)
  {
    hide NLocalBoxes, NTotalBoxes, ValidDomain, Load;
    buf := [];
    assert cellList[0..] == cellList;
    var iCell := 0;
    while iCell < |cellList|
      invariant 0 <= iCell <= |cellList|
      invariant BoxesInRange(s.contents, cellList[iCell..])
      invariant buf + Load(s.contents, cellList[iCell..], shift) == Load(s.contents, cellList, shift)
    {
      var iBox := cellList[iCell];
      ghost var cell, start := s.contents[iBox], buf;
      assert s.Stores(iBox, cell);
      LoadNext(s.contents, cellList, iCell, shift, start);
      var ii := 0;
      while ii < s.nAtoms[iBox]
        invariant 0 <= ii <= |cell| && buf == start + ShiftAll(cell, shift)[..ii]
      {
        buf := buf + [ShiftAtom(s.atoms[iBox * MAXATOMS + ii], shift)];
        ii := ii + 1;
      }
      assert buf == start + ShiftAll(cell, shift);
      iCell := iCell + 1;
    }
    LoadNothing(s.contents, cellList, shift);
  }

  lemma LoadNothing(cells: Cells, boxes: seq<int>, shift: Triple<real>)
    ensures BoxesInRange(cells, boxes[|boxes|..]) && Load(cells, boxes[|boxes|..], shift) == []
  {
  }

  /** Every cell has slots for what the message brings it. */
  ghost predicate RoomFor(d: Domain, c: Triple<int>, cells: Cells, buf: seq<Atom>)
    requires ValidDomain(d)
  {
    forall j :: 0 <= j < |cells| ==> |cells[j]| + |Arrivals(d, c, buf, j)| <= MAXATOMS
  }

  lemma ArrivalsPrefix(d: Domain, c: Triple<int>, buf: seq<Atom>, n: nat, j: int)
    requires ValidDomain(d) && n < |buf|
    ensures |Arrivals(d, c, buf[..n], j)| + (if BoxOf(d, c, buf[n]) == j then 1 else 0) <= |Arrivals(d, c, buf, j)|
    decreases |buf|
  {
    hide BoxOf;
    var m := |buf| - 1;
    if n < m {
      assert buf[..m][..n] == buf[..n] && buf[..m][n] == buf[n];
      ArrivalsPrefix(d, c, buf[..m], n, j);
    }
  }

  /** unloadAtomsBuffer: received atoms in local cells become local atoms. */
  method UnloadAtomsBuffer(s: LinkCellStore, buf: seq<Atom>)
    requires s.Valid() && Deliverable(s.d, s.c, s.contents, buf) && RoomFor(s.d, s.c, s.contents, buf)
    modifies s, s.nAtoms, s.atoms
    ensures s.Valid()
    ensures s.contents == PutAll(s.d, s.c, old(s.contents), buf)
    ensures s.nLocal - Occupied(s.contents, 0, s.nLocalBoxes) ==
              old(s.nLocal) - Occupied(old(s.contents), 0, s.nLocalBoxes)
  {
    hide NLocalBoxes, NTotalBoxes, ValidDomain, BoxOf, Reachable;
    ghost var before := s.contents;
    var ii := 0;
    assert buf[..0] == [];
    while ii < |buf|
      invariant 0 <= ii <= |buf| && s.Valid()
      invariant Deliverable(s.d, s.c, before, buf[..ii]) && s.contents == PutAll(s.d, s.c, before, buf[..ii])
      invariant s.nLocal - Occupied(s.contents, 0, s.nLocalBoxes) == old(s.nLocal) - Occupied(before, 0, s.nLocalBoxes)
    {
      ghost var box := BoxOf(s.d, s.c, buf[ii]);
      PutAllCells(s.d, s.c, before, buf[..ii], box);
      ArrivalsPrefix(s.d, s.c, buf, ii, box);
      OccupiedUpdate(s.contents, 0, s.nLocalBoxes, box, s.contents[box] + [buf[ii]]);
      assert buf[..ii + 1][..ii] == buf[..ii];
      s.PutAtomInBox(buf[ii]);
      ii := ii + 1;
    }
    assert buf[..ii] == buf;
  }

  // ----- sorting a cell

  predicate Ascending(s: seq<Atom>) {
    forall i, j :: 0 <= i < j < |s| ==> s[i].gid < s[j].gid
  }

  function Insert(a: Atom, s: seq<Atom>): seq<Atom> {
    if s == [] || a.gid < s[0].gid then [a] + s else [s[0]] + Insert(a, s[1..])
  }

  /** What sorting by gid returns: with distinct gids there is only one such list. */
  function SortById(s: seq<Atom>): seq<Atom> {
    if s == [] then [] else Insert(s[0], SortById(s[1..]))
  }

  lemma {:induction false} InsertMembers(a: Atom, s: seq<Atom>)
    ensures multiset(Insert(a, s)) == multiset(s) + multiset{a}
  {
    if s == [] || a.gid < s[0].gid {
    } else {
      assert s == [s[0]] + s[1..];
      InsertMembers(a, s[1..]);
    }
  }

  lemma {:induction false} InsertAscending(a: Atom, s: seq<Atom>)
    requires Ascending(s) && forall b :: b in s ==> b.gid != a.gid
    ensures Ascending(Insert(a, s))
  {
    if s == [] || a.gid < s[0].gid {
    } else {
      InsertAscending(a, s[1..]);
      InsertMembers(a, s[1..]);
      var rest := Insert(a, s[1..]);
      forall i | 0 <= i < |rest|
        ensures s[0].gid < rest[i].gid
      {
        assert rest[i] in multiset(rest);
        assert rest[i] in s[1..] || rest[i] == a;
        assert s[0] in s;
      }
    }
  }

  lemma {:induction false} SortByIdSorts(s: seq<Atom>)
    requires DistinctGids(s)
    ensures Ascending(SortById(s))
    ensures multiset(SortById(s)) == multiset(s)
  {
    if s != [] {
      SortByIdSorts(s[1..]);
      forall b | b in SortById(s[1..])
        ensures b.gid != s[0].gid
      {
        assert b in multiset(SortById(s[1..]));
        assert b in s[1..];
      }
      InsertAscending(s[0], SortById(s[1..]));
      InsertMembers(s[0], SortById(s[1..]));
      assert s == [s[0]] + s[1..];
    }
  }

  lemma SortByIdMembers(s: seq<Atom>, b: Atom)
    requires DistinctGids(s)
    ensures b in SortById(s) <==> b in s
    ensures |SortById(s)| == |s|
  {
    SortByIdSorts(s);
    assert b in multiset(SortById(s)) <==> b in multiset(s);
    assert |multiset(SortById(s))| == |multiset(s)|;
  }

  /** sortAtomsInCell: copy out, sort, copy back.  The comparison function asserts
      that ids differ. */
  method SortAtomsInCell(s: LinkCellStore, iBox: nat)
    requires s.Valid() && iBox < s.nTotalBoxes && DistinctGids(s.contents[iBox])
    modifies s`contents, s.atoms
    ensures s.Valid()
    ensures s.contents == old(s.contents)[iBox := SortById(old(s.contents)[iBox])]
  {
    hide NLocalBoxes, NTotalBoxes, ValidDomain;
    ghost var cell := s.contents[iBox];
    assert s.Stores(iBox, cell);
    var nAtoms := s.nAtoms[iBox];
    var begin := iBox * MAXATOMS;
    var tmp := s.atoms[begin..begin + nAtoms];
    assert tmp == cell;
    SortByIdMembers(tmp, s.atoms[begin]);
    tmp := SortById(tmp);
    ghost var before := s.contents;
    var ii := 0;
    while ii < nAtoms
      invariant 0 <= ii <= nAtoms == |tmp|
      invariant s.contents == before && s.Shape()
      invariant forall k :: 0 <= k < s.nTotalBoxes && k != iBox ==> s.Stores(k, before[k])
      invariant s.nAtoms[iBox] == nAtoms <= MAXATOMS
      invariant forall i :: 0 <= i < ii ==> s.atoms[begin + i] == tmp[i]
    {
      s.atoms[begin + ii] := tmp[ii];
      ii := ii + 1;
    }
    s.contents := s.contents[iBox := tmp];
    assert s.Stores(iBox, tmp);
  }
}
