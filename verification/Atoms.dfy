/** Atoms, and the contents of a rank's link cells as plain values.  Forces and
    per-atom energies are left out: they are recomputed after every
    redistribution and never sent. */
module Atoms {
  import opened Triples
  import opened LinkCellIndex
  import opened Decomposition

  const MAXATOMS := 64

  datatype Atom = Atom(gid: int, species: int, r: Triple<real>, p: Triple<real>)

  /** One list of atoms per link cell, in slot order. */
  type Cells = seq<seq<Atom>>

  /** The position lies at most one cell outside the rank's brick, so the rank has
      a local or halo cell for it. */
  predicate Reachable(d: Domain, c: Triple<int>, a: Atom)
    requires ValidDomain(d)
  {
    ValidTuple(d.gridSize, TupleOfCoord(d, c, a.r))
  }

  /** getBoxFromCoord */
  function BoxOf(d: Domain, c: Triple<int>, a: Atom): int
    requires ValidDomain(d)
  {
    GetBoxFromTuple(d.gridSize, TupleOfCoord(d, c, a.r))
  }

  lemma GridIsValid(d: Domain)
    requires ValidDomain(d)
    ensures ValidGrid(d.gridSize)
    ensures 0 < NLocalBoxes(d.gridSize) < NTotalBoxes(d.gridSize)
  {
    var g := d.gridSize;
    TupleRoundTrip(g, Triple(0, 0, 0));
    TupleRoundTrip(g, Triple(-1, 0, 0));
  }

  lemma BoxOfInRange(d: Domain, c: Triple<int>, a: Atom)
    requires ValidDomain(d) && Reachable(d, c, a)
    ensures 0 <= BoxOf(d, c, a) < NTotalBoxes(d.gridSize)
  {
    GridIsValid(d);
    TupleRoundTrip(d.gridSize, TupleOfCoord(d, c, a.r));
  }

  // ----- multisets and counts over cells

  /** All atoms of the first n cells. */
  ghost function Total(cells: Cells, n: nat): multiset<Atom>
    requires n <= |cells|
  {
    if n == 0 then multiset{} else Total(cells, n - 1) + multiset(cells[n - 1])
  }

  lemma TotalLocality(a: Cells, b: Cells, n: nat)
    requires n <= |a| && n <= |b| && a[..n] == b[..n]
    ensures Total(a, n) == Total(b, n)
  {
    if n > 0 {
      assert a[..n][..n - 1] == a[..n - 1] && b[..n][..n - 1] == b[..n - 1];
      assert a[n - 1] == a[..n][n - 1] == b[..n][n - 1];
      TotalLocality(a, b, n - 1);
    }
  }

  lemma {:induction false} TotalUpdate(cells: Cells, n: nat, j: nat, s: seq<Atom>)
    requires j < n <= |cells|
    ensures Total(cells[j := s], n) + multiset(cells[j]) == Total(cells, n) + multiset(s)
  {
    var after := cells[j := s];
    if j == n - 1 {
      assert after[..n - 1] == cells[..n - 1];
      TotalLocality(after, cells, n - 1);
    } else {
      TotalUpdate(cells, n - 1, j, s);
      var m := multiset(cells[n - 1]);
      assert after[n - 1] == cells[n - 1];
      assert Total(after, n) + multiset(cells[j]) == (Total(after, n - 1) + multiset(cells[j])) + m;
    }
  }

  /** Membership in the total is membership in some cell. */
  lemma InTotal(cells: Cells, n: nat, a: Atom)
    requires n <= |cells|
    ensures a in Total(cells, n) <==> exists k :: 0 <= k < n && a in cells[k]
  {
    if n > 0 {
      InTotal(cells, n - 1, a);
      if a in cells[n - 1] {
        assert 0 <= n - 1 < n && a in cells[n - 1];
      }
    }
  }

  /** The number of atoms of s that belong in cell j. */
  ghost function CountFor(d: Domain, c: Triple<int>, s: seq<Atom>, j: int): nat
    requires ValidDomain(d)
  {
    if s == [] then 0 else CountFor(d, c, s[..|s| - 1], j) + (if BoxOf(d, c, s[|s| - 1]) == j then 1 else 0)
  }

  lemma CountForBound(d: Domain, c: Triple<int>, s: seq<Atom>, j: int)
    requires ValidDomain(d)
    ensures CountFor(d, c, s, j) <= |s|
  {
    hide BoxOf;
    if s != [] {
      CountForBound(d, c, s[..|s| - 1], j);
    }
  }

  lemma {:induction false} CountForUpdate(d: Domain, c: Triple<int>, s: seq<Atom>, i: nat, a: Atom, j: int)
    requires ValidDomain(d) && i < |s|
    ensures CountFor(d, c, s[i := a], j) + (if BoxOf(d, c, s[i]) == j then 1 else 0)
         == CountFor(d, c, s, j) + (if BoxOf(d, c, a) == j then 1 else 0)
  {
    hide BoxOf;
    var t := s[i := a];
    if i == |s| - 1 {
      assert t[..|t| - 1] == s[..|s| - 1];
    } else {
      assert t[..|t| - 1] == s[..|s| - 1][i := a];
      CountForUpdate(d, c, s[..|s| - 1], i, a, j);
    }
  }

  /** Taking an atom out by moving the last one into its place. */
  function SwapRemove(s: seq<Atom>, i: nat): seq<Atom>
    requires i < |s|
  {
    var n := |s| - 1;
    if i == n then s[..n] else s[..n][i := s[n]]
  }

  lemma SwapRemoveFacts(d: Domain, c: Triple<int>, s: seq<Atom>, i: nat, j: int)
    requires ValidDomain(d) && i < |s|
    ensures multiset(SwapRemove(s, i)) + multiset{s[i]} == multiset(s)
    ensures CountFor(d, c, SwapRemove(s, i), j) + (if BoxOf(d, c, s[i]) == j then 1 else 0) == CountFor(d, c, s, j)
    ensures SwapRemove(s, i)[..i] == s[..i]
  {
    SwapRemoveMultiset(s, i);
    hide BoxOf;
    var n := |s| - 1;
    if i < n {
      CountForUpdate(d, c, s[..n], i, s[n], j);
    }
  }

  lemma SwapRemoveMultiset(s: seq<Atom>, i: nat)
    requires i < |s|
    ensures multiset(SwapRemove(s, i)) + multiset{s[i]} == multiset(s)
  {
    var n := |s| - 1;
    assert s == s[..n] + [s[n]];
    if i < n {
      assert multiset(s[..n][i := s[n]]) == multiset(s[..n]) - multiset{s[i]} + multiset{s[n]};
    }
  }

  lemma CountForAppend(d: Domain, c: Triple<int>, s: seq<Atom>, a: Atom, j: int)
    requires ValidDomain(d)
    ensures CountFor(d, c, s + [a], j) == CountFor(d, c, s, j) + (if BoxOf(d, c, a) == j then 1 else 0)
  {
    hide BoxOf;
    assert (s + [a])[..|s|] == s;
  }

  /** How many atoms of the first n cells belong in cell j. */
  ghost function CountAll(d: Domain, c: Triple<int>, cells: Cells, n: nat, j: int): nat
    requires ValidDomain(d) && n <= |cells|
  {
    if n == 0 then 0 else CountAll(d, c, cells, n - 1, j) + CountFor(d, c, cells[n - 1], j)
  }

  lemma CountAllLocality(d: Domain, c: Triple<int>, a: Cells, b: Cells, n: nat, j: int)
    requires ValidDomain(d) && n <= |a| && n <= |b| && a[..n] == b[..n]
    ensures CountAll(d, c, a, n, j) == CountAll(d, c, b, n, j)
  {
    if n > 0 {
      assert a[..n][..n - 1] == a[..n - 1] && b[..n][..n - 1] == b[..n - 1];
      assert a[n - 1] == a[..n][n - 1] == b[..n][n - 1];
      CountAllLocality(d, c, a, b, n - 1, j);
    }
  }

  lemma {:induction false} CountAllUpdate(d: Domain, c: Triple<int>, cells: Cells, n: nat, k: nat, s: seq<Atom>, j: int)
    requires ValidDomain(d) && k < n <= |cells|
    ensures CountAll(d, c, cells[k := s], n, j) + CountFor(d, c, cells[k], j)
         == CountAll(d, c, cells, n, j) + CountFor(d, c, s, j)
  {
    var after := cells[k := s];
    if k == n - 1 {
      assert after[..n - 1] == cells[..n - 1];
      CountAllLocality(d, c, after, cells, n - 1, j);
    } else {
      CountAllUpdate(d, c, cells, n - 1, k, s, j);
      assert after[n - 1] == cells[n - 1];
    }
  }

  lemma CountAllCovers(d: Domain, c: Triple<int>, cells: Cells, n: nat, k: nat, j: int)
    requires ValidDomain(d) && k < n <= |cells|
    ensures CountFor(d, c, cells[k], j) <= CountAll(d, c, cells, n, j)
  {
    if k < n - 1 {
      CountAllCovers(d, c, cells, n - 1, k, j);
    }
  }

  // ----- re-binning: what updateLinkCells keeps while it moves atoms about

  predicate InPlace(d: Domain, c: Triple<int>, s: seq<Atom>, k: int)
    requires ValidDomain(d)
  {
    forall i :: 0 <= i < |s| ==> BoxOf(d, c, s[i]) == k
  }

  /** The number of atoms held by cells lo..hi. */
  ghost function Occupied(cells: Cells, lo: nat, hi: nat): nat
    requires hi <= |cells|
    decreases hi
  {
    if hi <= lo then 0 else Occupied(cells, lo, hi - 1) + |cells[hi - 1]|
  }

  lemma OccupiedUpdate(cells: Cells, lo: nat, hi: nat, j: nat, s: seq<Atom>)
    requires hi <= |cells| && j < |cells|
    ensures Occupied(cells[j := s], lo, hi) == Occupied(cells, lo, hi) + (if lo <= j < hi then |s| - |cells[j]| else 0)
    decreases hi
  {
    if hi > lo {
      OccupiedUpdate(cells, lo, hi - 1, j, s);
    }
  }

  lemma OccupiedNothing(cells: Cells, lo: nat, hi: nat)
    requires hi <= |cells| && forall k :: lo <= k < hi ==> cells[k] == []
    ensures Occupied(cells, lo, hi) == 0
    decreases hi
  {
    if lo < hi {
      OccupiedNothing(cells, lo, hi - 1);
    }
  }

  lemma OccupiedSplit(cells: Cells, lo: nat, mid: nat, hi: nat)
    requires lo <= mid <= hi <= |cells|
    ensures Occupied(cells, lo, hi) == Occupied(cells, lo, mid) + Occupied(cells, mid, hi)
    decreases hi
  {
    if mid < hi {
      OccupiedSplit(cells, lo, mid, hi - 1);
    }
  }

  lemma OccupiedIsTotal(cells: Cells, n: nat)
    requires n <= |cells|
    ensures Occupied(cells, 0, n) == |Total(cells, n)|
  {
    if n > 0 {
      OccupiedIsTotal(cells, n - 1);
    }
  }

  /** now holds exactly the local atoms of before; cells gain no atom that does not
      belong in them, and halo cells hold only atoms that do. */
  ghost predicate Rebinning(d: Domain, c: Triple<int>, before: Cells, now: Cells, nLocal: nat)
    requires ValidDomain(d)
  {
    && |before| == |now| && nLocal <= |now|
    && Total(now, |now|) == Total(before, nLocal)
    && (forall j :: 0 <= j < |now| ==> CountAll(d, c, now, |now|, j) == CountAll(d, c, before, nLocal, j))
    && (forall j :: 0 <= j < |now| ==>
          Misplaced(d, c, now[j], j) <= if j < nLocal then Misplaced(d, c, before[j], j) else 0)
    && (forall j :: nLocal <= j < |now| ==> InPlace(d, c, now[j], j))
  }

  ghost function Misplaced(d: Domain, c: Triple<int>, s: seq<Atom>, j: int): nat
    requires ValidDomain(d)
  {
    CountForBound(d, c, s, j);
    |s| - CountFor(d, c, s, j)
  }

  /** Room for the worst moment of re-binning: every cell could hold all atoms that
      belong in it and still its own misplaced ones. */
  ghost predicate RoomToRebin(d: Domain, c: Triple<int>, cells: Cells, nLocal: nat)
    requires ValidDomain(d) && nLocal <= |cells|
  {
    forall j :: 0 <= j < |cells| ==>
      CountAll(d, c, cells, nLocal, j) + (if j < nLocal then Misplaced(d, c, cells[j], j) else 0) < MAXATOMS
  }

  lemma CountForNothing(d: Domain, c: Triple<int>, j: int)
    requires ValidDomain(d)
    ensures CountFor(d, c, [], j) == 0
  {
  }

  lemma {:induction false} TotalEmptied(d: Domain, c: Triple<int>, before: Cells, now: Cells, nLocal: nat, n: nat,
                                        j: int)
    requires ValidDomain(d) && |before| == |now| && nLocal <= n <= |now|
    requires forall k :: 0 <= k < |now| ==> now[k] == if k < nLocal then before[k] else []
    ensures Total(now, n) == Total(before, nLocal)
    ensures CountAll(d, c, now, n, j) == CountAll(d, c, before, nLocal, j)
  {
    CountForNothing(d, c, j);
    hide BoxOf, CountFor;
    if n > nLocal {
      TotalEmptied(d, c, before, now, nLocal, n - 1, j);
    } else {
      assert now[..n] == before[..n];
      TotalLocality(now, before, n);
      CountAllLocality(d, c, now, before, n, j);
    }
  }

  lemma RebinningStarts(d: Domain, c: Triple<int>, before: Cells, now: Cells, nLocal: nat)
    requires ValidDomain(d) && |before| == |now| && nLocal <= |now|
    requires forall k :: 0 <= k < |now| ==> now[k] == if k < nLocal then before[k] else []
    ensures Rebinning(d, c, before, now, nLocal)
  {
    hide BoxOf;
    TotalEmptied(d, c, before, now, nLocal, |now|, 0);
    forall j | 0 <= j < |now|
      ensures CountAll(d, c, now, |now|, j) == CountAll(d, c, before, nLocal, j)
    {
      TotalEmptied(d, c, before, now, nLocal, |now|, j);
    }
  }

  function Moved(cells: Cells, iId: nat, iBox: nat, jBox: nat): Cells
    requires iBox < |cells| && jBox < |cells| && iId < |cells[iBox]|
  {
    cells[jBox := cells[jBox] + [cells[iBox][iId]]][iBox := SwapRemove(cells[iBox], iId)]
  }

  lemma MovedKeepsTotal(d: Domain, c: Triple<int>, now: Cells, iId: nat, iBox: nat, jBox: nat)
    requires ValidDomain(d)
    requires iBox < |now| && jBox < |now| && iBox != jBox && iId < |now[iBox]|
    ensures Total(Moved(now, iId, iBox, jBox), |now|) == Total(now, |now|)
  {
    hide BoxOf, Total;
    var a := now[iBox][iId];
    var mid := now[jBox := now[jBox] + [a]];
    TotalUpdate(now, |now|, jBox, now[jBox] + [a]);
    TotalUpdate(mid, |now|, iBox, SwapRemove(now[iBox], iId));
    SwapRemoveFacts(d, c, now[iBox], iId, 0);
    hide SwapRemove, CountFor;
    MovedTotal(Total(now, |now|), Total(mid, |now|), Total(Moved(now, iId, iBox, jBox), |now|), multiset(now[jBox]),
               multiset(now[iBox]), multiset(SwapRemove(now[iBox], iId)), a);
  }

  lemma MovedKeepsCount(d: Domain, c: Triple<int>, now: Cells, iId: nat, iBox: nat, jBox: nat, j: int)
    requires ValidDomain(d)
    requires iBox < |now| && jBox < |now| && iBox != jBox && iId < |now[iBox]|
    ensures CountAll(d, c, Moved(now, iId, iBox, jBox), |now|, j) == CountAll(d, c, now, |now|, j)
  {
    hide BoxOf, CountAll, CountFor, SwapRemove;
    var a := now[iBox][iId];
    var mid := now[jBox := now[jBox] + [a]];
    CountAllUpdate(d, c, now, |now|, jBox, now[jBox] + [a], j);
    CountAllUpdate(d, c, mid, |now|, iBox, SwapRemove(now[iBox], iId), j);
    CountForAppend(d, c, now[jBox], a, j);
    SwapRemoveFacts(d, c, now[iBox], iId, j);
  }

  /** One moveAtom to the cell of the atom's coordinate keeps re-binning going. */
  lemma RebinningMove(d: Domain, c: Triple<int>, before: Cells, now: Cells, nLocal: nat, iId: nat, iBox: nat, jBox: nat)
    requires ValidDomain(d) && Rebinning(d, c, before, now, nLocal)
    requires iBox < nLocal && jBox < |now| && iBox != jBox && iId < |now[iBox]|
    requires BoxOf(d, c, now[iBox][iId]) == jBox
    ensures Rebinning(d, c, before, Moved(now, iId, iBox, jBox), nLocal)
  {
    hide BoxOf, CountAll, CountFor, Total;
    var a := now[iBox][iId];
    MovedKeepsTotal(d, c, now, iId, iBox, jBox);
    forall j | 0 <= j < |now|
      ensures CountAll(d, c, Moved(now, iId, iBox, jBox), |now|, j) == CountAll(d, c, now, |now|, j)
    {
      MovedKeepsCount(d, c, now, iId, iBox, jBox, j);
    }
    CountForAppend(d, c, now[jBox], a, jBox);
    SwapRemoveFacts(d, c, now[iBox], iId, iBox);
    assert |SwapRemove(now[iBox], iId)| == |now[iBox]| - 1;
    hide SwapRemove;
    assert InPlace(d, c, now[jBox], jBox) ==> InPlace(d, c, now[jBox] + [a], jBox);
  }

  lemma MovedTotal(t0: multiset<Atom>, t1: multiset<Atom>, t2: multiset<Atom>, mj: multiset<Atom>, mi: multiset<Atom>,
                   swapped: multiset<Atom>, a: Atom)
    requires t1 + mj == t0 + (mj + multiset{a})
    requires t2 + mi == t1 + swapped
    requires swapped + multiset{a} == mi
    ensures t2 == t0
  {
    forall x: Atom
      ensures t2[x] == t0[x]
    {
      assert (t1 + mj)[x] == (t0 + (mj + multiset{a}))[x];
      assert (t2 + mi)[x] == (t1 + swapped)[x];
      assert (swapped + multiset{a})[x] == mi[x];
    }
  }

  /** The destination of a pending move has room for one more atom. */
  lemma RebinningRoom(d: Domain, c: Triple<int>, before: Cells, now: Cells, nLocal: nat, iId: nat, iBox: nat, jBox: nat)
    requires ValidDomain(d) && Rebinning(d, c, before, now, nLocal)
    requires RoomToRebin(d, c, before, nLocal)
    requires iBox < |now| && jBox < |now| && iBox != jBox && iId < |now[iBox]|
    requires BoxOf(d, c, now[iBox][iId]) == jBox
    ensures |now[jBox]| + 1 < MAXATOMS
  {
    hide BoxOf;
    CountAllCoversTwo(d, c, now, |now|, jBox, iBox, jBox);
    CountForMember(d, c, now[iBox], now[iBox][iId]);
  }

  /** An atom being re-binned is one of the local atoms it started from. */
  lemma RebinningMember(d: Domain, c: Triple<int>, before: Cells, now: Cells, nLocal: nat, iBox: nat, iId: nat)
    requires ValidDomain(d) && Rebinning(d, c, before, now, nLocal)
    requires iBox < |now| && iId < |now[iBox]|
    ensures exists k :: 0 <= k < nLocal && now[iBox][iId] in before[k]
  {
    hide BoxOf;
    assert now[iBox][iId] in now[iBox];
    InTotal(now, |now|, now[iBox][iId]);
    InTotal(before, nLocal, now[iBox][iId]);
  }

  lemma CountForMember(d: Domain, c: Triple<int>, s: seq<Atom>, a: Atom)
    requires ValidDomain(d) && a in s
    ensures CountFor(d, c, s, BoxOf(d, c, a)) >= 1
  {
    hide BoxOf;
    if s[|s| - 1] != a {
      CountForMember(d, c, s[..|s| - 1], a);
    }
  }

  lemma CountAllCoversTwo(d: Domain, c: Triple<int>, cells: Cells, n: nat, k: nat, m: nat, j: int)
    requires ValidDomain(d) && k < n <= |cells| && m < n && k != m
    ensures CountFor(d, c, cells[k], j) + CountFor(d, c, cells[m], j) <= CountAll(d, c, cells, n, j)
  {
    hide BoxOf;
    if k == n - 1 {
      CountAllCovers(d, c, cells, n - 1, m, j);
    } else if m == n - 1 {
      CountAllCovers(d, c, cells, n - 1, k, j);
    } else {
      CountAllCoversTwo(d, c, cells, n - 1, k, m, j);
    }
  }

  /** The state of the re-binning loops at atom ii of cell iBox: earlier cells and
      earlier atoms are settled, and `out` atoms sit in halo cells after the first. */
  ghost predicate RebinState(d: Domain, c: Triple<int>, before: Cells, now: Cells, nLocal: nat, iBox: nat, ii: nat,
                             out: int)
    requires ValidDomain(d)
  {
    && Rebinning(d, c, before, now, nLocal)
    && nLocal < |now| && iBox <= nLocal
    && (forall k :: 0 <= k < iBox ==> InPlace(d, c, now[k], k))
    && ii <= |now[iBox]|
    && (ii == 0 || InPlace(d, c, now[iBox][..ii], iBox))
    && Occupied(now, nLocal + 1, |now|) == out
  }

  lemma RebinStart(d: Domain, c: Triple<int>, before: Cells, now: Cells, nLocal: nat)
    requires ValidDomain(d) && |before| == |now| && nLocal < |now|
    requires forall k :: 0 <= k < |now| ==> now[k] == if k < nLocal then before[k] else []
    ensures RebinState(d, c, before, now, nLocal, 0, 0, 0)
  {
    hide BoxOf;
    RebinningStarts(d, c, before, now, nLocal);
    OccupiedNothing(now, nLocal + 1, |now|);
  }

  lemma RebinMove(d: Domain, c: Triple<int>, before: Cells, now: Cells, nLocal: nat, iBox: nat, ii: nat, out: int,
                  jBox: nat)
    requires ValidDomain(d) && RebinState(d, c, before, now, nLocal, iBox, ii, out)
    requires iBox < nLocal && ii < |now[iBox]| && jBox < |now| && jBox != iBox
    requires BoxOf(d, c, now[iBox][ii]) == jBox
    ensures RoomToRebin(d, c, before, nLocal) ==> |now[jBox]| + 1 < MAXATOMS
    ensures RebinState(d, c, before, Moved(now, ii, iBox, jBox), nLocal, iBox, ii,
                       out + (if jBox > nLocal then 1 else 0))
  {
    hide BoxOf;
    var a := now[iBox][ii];
    var mid := now[jBox := now[jBox] + [a]];
    var after := Moved(now, ii, iBox, jBox);
    assert after == mid[iBox := SwapRemove(mid[iBox], ii)];
    if RoomToRebin(d, c, before, nLocal) {
      RebinningRoom(d, c, before, now, nLocal, ii, iBox, jBox);
    }
    RebinningMove(d, c, before, now, nLocal, ii, iBox, jBox);
    SwapRemoveFacts(d, c, now[iBox], ii, 0);
    OccupiedUpdate(now, nLocal + 1, |now|, jBox, now[jBox] + [a]);
    OccupiedUpdate(mid, nLocal + 1, |now|, iBox, SwapRemove(mid[iBox], ii));
    assert after[iBox][..ii] == now[iBox][..ii];
  }

  /** Every atom met by the loop is one of the rank's original local atoms. */
  lemma RebinMember(d: Domain, c: Triple<int>, before: Cells, now: Cells, nLocal: nat, iBox: nat, ii: nat, out: int)
    requires ValidDomain(d) && RebinState(d, c, before, now, nLocal, iBox, ii, out)
    requires forall k, i :: 0 <= k < nLocal && 0 <= i < |before[k]| ==> Reachable(d, c, before[k][i])
    requires ii < |now[iBox]|
    ensures Reachable(d, c, now[iBox][ii])
  {
    hide BoxOf, Reachable;
    RebinningMember(d, c, before, now, nLocal, iBox, ii);
    var k :| 0 <= k < nLocal && now[iBox][ii] in before[k];
    var i :| 0 <= i < |before[k]| && before[k][i] == now[iBox][ii];
  }

  lemma RebinKeep(d: Domain, c: Triple<int>, before: Cells, now: Cells, nLocal: nat, iBox: nat, ii: nat, out: int)
    requires ValidDomain(d) && RebinState(d, c, before, now, nLocal, iBox, ii, out)
    requires ii < |now[iBox]| && BoxOf(d, c, now[iBox][ii]) == iBox
    ensures RebinState(d, c, before, now, nLocal, iBox, ii + 1, out)
  {
    hide BoxOf;
    assert now[iBox][..ii + 1] == now[iBox][..ii] + [now[iBox][ii]];
  }

  lemma RebinNextCell(d: Domain, c: Triple<int>, before: Cells, now: Cells, nLocal: nat, iBox: nat, out: int)
    requires ValidDomain(d) && iBox < nLocal < |now| && RebinState(d, c, before, now, nLocal, iBox, |now[iBox]|, out)
    ensures RebinState(d, c, before, now, nLocal, iBox + 1, 0, out)
  {
    hide BoxOf;
    assert now[iBox][..|now[iBox]|] == now[iBox];
  }

  lemma {:induction false} CountForPlaced(d: Domain, c: Triple<int>, s: seq<Atom>, k: int, j: int)
    requires ValidDomain(d) && InPlace(d, c, s, k)
    ensures CountFor(d, c, s, j) == if j == k then |s| else 0
  {
    hide BoxOf;
    if s != [] {
      var n := |s| - 1;
      assert s[..n][..] == s[..n] && BoxOf(d, c, s[n]) == k;
      CountForPlaced(d, c, s[..n], k, j);
    }
  }

  lemma {:induction false} CountForZero(d: Domain, c: Triple<int>, s: seq<Atom>, j: int)
    requires ValidDomain(d)
    ensures CountFor(d, c, s, j) == 0 <==> forall i :: 0 <= i < |s| ==> BoxOf(d, c, s[i]) != j
  {
    hide BoxOf;
    if s != [] {
      var n := |s| - 1;
      CountForZero(d, c, s[..n], j);
      assert forall i :: 0 <= i < n ==> s[..n][i] == s[i];
    }
  }

  lemma {:induction false} CountAllZero(d: Domain, c: Triple<int>, cells: Cells, n: nat, j: int)
    requires ValidDomain(d) && n <= |cells|
    ensures CountAll(d, c, cells, n, j) == 0 <==>
              forall k, i :: 0 <= k < n && 0 <= i < |cells[k]| ==> BoxOf(d, c, cells[k][i]) != j
  {
    hide BoxOf, CountFor;
    if n > 0 {
      CountAllZero(d, c, cells, n - 1, j);
      CountForZero(d, c, cells[n - 1], j);
    }
  }

  /** When every atom is in its place, a cell has just the atoms that belong in it. */
  lemma {:induction false} CountInPlace(d: Domain, c: Triple<int>, cells: Cells, n: nat, j: int)
    requires ValidDomain(d) && n <= |cells| && forall k :: 0 <= k < n ==> InPlace(d, c, cells[k], k)
    ensures CountAll(d, c, cells, n, j) == if 0 <= j < n then |cells[j]| else 0
  {
    hide BoxOf, InPlace;
    if n > 0 {
      CountInPlace(d, c, cells, n - 1, j);
      CountForPlaced(d, c, cells[n - 1], n - 1, j);
    }
  }

  lemma AllInPlace(d: Domain, c: Triple<int>, before: Cells, now: Cells, nLocal: nat, out: int)
    requires ValidDomain(d) && RebinState(d, c, before, now, nLocal, nLocal, 0, out)
    ensures forall k :: 0 <= k < |now| ==> InPlace(d, c, now[k], k)
  {
    hide BoxOf, CountAll, CountFor, Misplaced, Occupied, InPlace, Total;
  }

  lemma OneCell(cells: Cells, k: nat)
    requires k < |cells|
    ensures Occupied(cells, k, k + 1) == |cells[k]|
  {
  }

  lemma RebinDone(d: Domain, c: Triple<int>, before: Cells, now: Cells, nLocal: nat, out: int)
    requires ValidDomain(d) && RebinState(d, c, before, now, nLocal, nLocal, 0, out)
    ensures Total(now, |now|) == Total(before, nLocal)
    ensures forall k :: 0 <= k < |now| ==> InPlace(d, c, now[k], k)
    ensures Occupied(now, 0, nLocal) + |now[nLocal]| + out == Occupied(before, 0, nLocal)
    ensures forall k :: 0 <= k < |now| ==> |now[k]| == CountAll(d, c, before, nLocal, k)
  {
    hide BoxOf, CountAll, CountFor, Misplaced, Occupied;
    AllInPlace(d, c, before, now, nLocal, out);
    forall k | 0 <= k < |now|
      ensures |now[k]| == CountAll(d, c, before, nLocal, k)
    {
      CountInPlace(d, c, now, |now|, k);
    }
    OneCell(now, nLocal);
    OccupiedIsTotal(now, |now|);
    OccupiedIsTotal(before, nLocal);
    OccupiedSplit(now, 0, nLocal, |now|);
    OccupiedSplit(now, nLocal, nLocal + 1, |now|);
  }
}
