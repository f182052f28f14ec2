/** One rank's link cells, stored as CoMD stores them: a fixed number of slots per
    cell in one array of atoms, and the number of slots in use per cell. */
module LinkCells {
  import opened Triples
  import opened LinkCellIndex
  import opened Decomposition
  import opened Atoms

  class LinkCellStore {
    const d: Domain
    const c: Triple<int>
    const nLocalBoxes: nat
    const nTotalBoxes: nat
    const nAtoms: array<nat>
    const atoms: array<Atom>
    var nLocal: int

    /** The atoms of every cell, in slot order. */
    ghost var contents: Cells

    ghost predicate Shape()
      reads this
    {
      && ValidDomain(d)
      && nLocalBoxes == NLocalBoxes(d.gridSize)
      && nTotalBoxes == NTotalBoxes(d.gridSize)
      && 0 < nLocalBoxes < nTotalBoxes
      && nAtoms.Length == nTotalBoxes
      && atoms.Length == nTotalBoxes * MAXATOMS
      && |contents| == nTotalBoxes
    }

    ghost predicate Stores(k: int, cell: seq<Atom>)
      reads this, nAtoms, atoms
      requires Shape() && 0 <= k < nTotalBoxes
    {
      && nAtoms[k] == |cell| <= MAXATOMS
      && forall i :: 0 <= i < |cell| ==> atoms[k * MAXATOMS + i] == cell[i]
    }

    ghost predicate Valid()
      reads this, nAtoms, atoms
    {
      Shape() && forall k :: 0 <= k < nTotalBoxes ==> Stores(k, contents[k])
    }

    constructor (d: Domain, c: Triple<int>, blank: Atom)
      requires ValidDomain(d)
      ensures Valid() && this.d == d && this.c == c && nLocal == 0
      ensures fresh(nAtoms) && fresh(atoms)
      ensures forall k :: 0 <= k < nTotalBoxes ==> contents[k] == []
    {
      GridIsValid(d);
      this.d := d;
      this.c := c;
      nLocalBoxes := NLocalBoxes(d.gridSize);
      nTotalBoxes := NTotalBoxes(d.gridSize);
      nAtoms := new nat[NTotalBoxes(d.gridSize)](_ => 0);
      atoms := new Atom[NTotalBoxes(d.gridSize) * MAXATOMS](_ => blank);
      nLocal := 0;
      contents := seq(NTotalBoxes(d.gridSize), _ => []);
    }

    /** The atom goes to the end of the cell of its coordinate.  The original does
        not check for a full cell, so its callers must leave room. */
    method PutAtomInBox(a: Atom)
      requires Valid() && Reachable(d, c, a)
      requires 0 <= BoxOf(d, c, a) < nTotalBoxes && |contents[BoxOf(d, c, a)]| < MAXATOMS
      modifies this, nAtoms, atoms
      ensures Valid()
      ensures var box := BoxOf(d, c, a);
              contents == old(contents)[box := old(contents)[box] + [a]]
      ensures nLocal == old(nLocal) + (if BoxOf(d, c, a) < nLocalBoxes then 1 else 0)
    {
      hide BoxOf, NLocalBoxes, NTotalBoxes;
      var iBox := BoxOf(d, c, a);
      var iOff := iBox * MAXATOMS + nAtoms[iBox];
      if iBox < nLocalBoxes {
        nLocal := nLocal + 1;
      }
      nAtoms[iBox] := nAtoms[iBox] + 1;
      atoms[iOff] := a;
      contents := contents[iBox := contents[iBox] + [a]];
      assert Shape();
    }

    method CopyAtom(iAtom: nat, iBox: nat, jAtom: nat, jBox: nat)
      requires Shape() && iBox < nTotalBoxes && jBox < nTotalBoxes
      requires iAtom < MAXATOMS && jAtom < MAXATOMS
      modifies atoms
      ensures atoms[jBox * MAXATOMS + jAtom] == old(atoms[iBox * MAXATOMS + iAtom])
      ensures forall m :: 0 <= m < atoms.Length && m != jBox * MAXATOMS + jAtom ==> atoms[m] == old(atoms[m])
    {
      var iOff := MAXATOMS * iBox + iAtom;
      var jOff := MAXATOMS * jBox + jAtom;
      atoms[jOff] := atoms[iOff];
    }

    /** First half of moveAtom: the atom is copied to the end of cell jBox. */
    method AppendCopy(iId: nat, iBox: nat, jBox: nat)
      requires Valid() && iBox < nTotalBoxes && jBox < nTotalBoxes
      requires iId < |contents[iBox]| && |contents[jBox]| < MAXATOMS
      modifies this`contents, nAtoms, atoms
      ensures Valid()
      ensures contents == old(contents)[jBox := old(contents)[jBox] + [old(contents)[iBox][iId]]]
    {
      hide NLocalBoxes, NTotalBoxes, ValidDomain;
      assert Stores(iBox, contents[iBox]) && Stores(jBox, contents[jBox]);
      CopyAtom(iId, iBox, nAtoms[jBox], jBox);
      nAtoms[jBox] := nAtoms[jBox] + 1;
      contents := contents[jBox := contents[jBox] + [contents[iBox][iId]]];
      assert forall k :: 0 <= k < nTotalBoxes && k != jBox ==> old(Stores(k, contents[k]));
    }

    /** Second half of moveAtom: the last atom of cell iBox fills the gap. */
    method RemoveSlot(iId: nat, iBox: nat)
      requires Valid() && iBox < nTotalBoxes && iId < |contents[iBox]|
      modifies this`contents, nAtoms, atoms
      ensures Valid()
      ensures contents == old(contents)[iBox := SwapRemove(old(contents)[iBox], iId)]
    {
      hide NLocalBoxes, NTotalBoxes, ValidDomain;
      assert Stores(iBox, contents[iBox]);
      nAtoms[iBox] := nAtoms[iBox] - 1;
      var ni := nAtoms[iBox];
      if ni > 0 {
        CopyAtom(ni, iBox, iId, iBox);
      }
      contents := contents[iBox := SwapRemove(contents[iBox], iId)];
      assert forall k :: 0 <= k < nTotalBoxes && k != iBox ==> old(Stores(k, contents[k]));
    }

    /** Moves one atom to the end of another cell; the last atom of the source cell
        takes its place.  The bookkeeping of nLocal skips the first halo cell, as
        the original's comparison does.  ok is the original's assertion that the
        other cell has not become full; when it fails the program ends. */
    method MoveAtom(iId: nat, iBox: nat, jBox: nat) returns (ok: bool)
      requires Valid() && iBox < nTotalBoxes && jBox < nTotalBoxes && iBox != jBox
      requires iId < |contents[iBox]|
      modifies this, nAtoms, atoms
      ensures Valid()
      ensures ok <==> |old(contents)[jBox]| + 1 < MAXATOMS
      ensures ok ==> contents == Moved(old(contents), iId, iBox, jBox)
      ensures ok ==> nLocal == old(nLocal) - (if jBox > nLocalBoxes then 1 else 0)
    {
      assert Stores(jBox, contents[jBox]);
      ok := nAtoms[jBox] + 1 < MAXATOMS;
      if ok {
        AppendCopy(iId, iBox, jBox);
        RemoveSlot(iId, iBox);
        if jBox > nLocalBoxes {
          nLocal := nLocal - 1;
        }
      }
    }

    method EmptyHaloCells()
      requires Valid()
      modifies this`contents, nAtoms
      ensures Valid()
      ensures forall k :: 0 <= k < nTotalBoxes ==> contents[k] == if k < nLocalBoxes then old(contents)[k] else []
    {
      hide NLocalBoxes, NTotalBoxes;
      var ii := nLocalBoxes;
      while ii < nTotalBoxes
        invariant nLocalBoxes <= ii <= nTotalBoxes
        invariant Valid()
        invariant forall k :: 0 <= k < nTotalBoxes ==>
                    contents[k] == if nLocalBoxes <= k < ii then [] else old(contents)[k]
      {
        nAtoms[ii] := 0;
        contents := contents[ii := []];
        ii := ii + 1;
      }
    }

    /** Discards the halo atoms and moves every local atom to the cell of its
        coordinate.  Unless an assertion stops it, which cannot happen when every
        cell has room for the atoms that belong in it next to those that do not, no
        local atom is lost or duplicated, every cell ends up with exactly the atoms
        that belong in it, and halo cells hold just the atoms that left the brick.
        The counter nLocal drifts from the number of atoms in local cells by the
        number of local atoms that belong in the first halo cell. */
    method UpdateLinkCells() returns (ok: bool)
      requires Valid()
      requires forall k, i :: 0 <= k < nLocalBoxes && 0 <= i < |contents[k]| ==> Reachable(d, c, contents[k][i])
      modifies this, nAtoms, atoms
      ensures Valid()
      ensures RoomToRebin(d, c, old(contents), nLocalBoxes) ==> ok
      ensures ok ==> Total(contents, nTotalBoxes) == Total(old(contents), nLocalBoxes)
      ensures ok ==> forall k :: 0 <= k < nTotalBoxes ==>
                InPlace(d, c, contents[k], k) && |contents[k]| == CountAll(d, c, old(contents), nLocalBoxes, k)
      ensures ok ==>
                nLocal - Occupied(contents, 0, nLocalBoxes) ==
                old(nLocal) - Occupied(old(contents), 0, nLocalBoxes)
                + CountAll(d, c, old(contents), nLocalBoxes, nLocalBoxes)
    {
      hide BoxOf, Reachable, NLocalBoxes, NTotalBoxes, RebinState, RoomToRebin, InPlace, CountAll;
      ghost var before := contents;
      ghost var out := 0;
      EmptyHaloCells();
      RebinStart(d, c, before, contents, nLocalBoxes);
      var iBox := 0;
      while iBox < nLocalBoxes
        invariant 0 <= iBox <= nLocalBoxes
        invariant Valid() && RebinState(d, c, before, contents, nLocalBoxes, iBox, 0, out)
        invariant nLocal == old(nLocal) - out
      {
        var ii := 0;
        while ii < nAtoms[iBox]
          invariant 0 <= ii <= nAtoms[iBox]
          invariant Valid() && RebinState(d, c, before, contents, nLocalBoxes, iBox, ii, out)
          invariant nLocal == old(nLocal) - out
          decreases nAtoms[iBox] - ii
        {
          RebinMember(d, c, before, contents, nLocalBoxes, iBox, ii, out);
          assert Stores(iBox, contents[iBox]);
          var a := atoms[iBox * MAXATOMS + ii];
          BoxOfInRange(d, c, a);
          var jBox := BoxOf(d, c, a);
          if jBox != iBox {
            RebinMove(d, c, before, contents, nLocalBoxes, iBox, ii, out, jBox);
            ok := MoveAtom(ii, iBox, jBox);
            if !ok {
              return;
            }
            assert Stores(iBox, contents[iBox]);
            out := out + (if jBox > nLocalBoxes then 1 else 0);
          } else {
            RebinKeep(d, c, before, contents, nLocalBoxes, iBox, ii, out);
            ii := ii + 1;
          }
        }
        assert Stores(iBox, contents[iBox]);
        RebinNextCell(d, c, before, contents, nLocalBoxes, iBox, out);
        iBox := iBox + 1;
      }
      RebinDone(d, c, before, contents, nLocalBoxes, out);
      ok := true;
    }
  }

  /** After a run that no assertion stops, a counter that was right is right if and only
      if no local atom belongs in the first halo cell. */
  lemma CounterRight(d: Domain, c: Triple<int>, before: Cells, after: Cells, nLocalBoxes: nat, was: int, now: int)
    requires ValidDomain(d) && nLocalBoxes <= |before| && nLocalBoxes <= |after|
    requires was == Occupied(before, 0, nLocalBoxes)
    requires now - Occupied(after, 0, nLocalBoxes)
          == was - Occupied(before, 0, nLocalBoxes) + CountAll(d, c, before, nLocalBoxes, nLocalBoxes)
    ensures now == Occupied(after, 0, nLocalBoxes) <==>
              forall k, i :: 0 <= k < nLocalBoxes && 0 <= i < |before[k]| ==> BoxOf(d, c, before[k][i]) != nLocalBoxes
  {
    CountAllZero(d, c, before, nLocalBoxes, nLocalBoxes);
    hide BoxOf;
  }
}
