/** The loops that move force data between a rank's slots and its message buffers,
    and the capacity of those buffers. */
module ForceBuffers {
  import opened Triples
  import opened Atoms
  import opened CellLists
  import opened AtomExchange
  import opened ForceExchange

  /** The array holds the given values in the slots in use of every cell. */
  ghost predicate Shows(nAtoms: array<nat>, df: array<real>, slots: Slots)
    reads nAtoms, df
  {
    && nAtoms.Length == |slots| && df.Length == |slots| * MAXATOMS
    && forall k :: 0 <= k < |slots| ==> ShowsCell(nAtoms, df, k, slots[k])
  }

  ghost predicate ShowsCell(nAtoms: array<nat>, df: array<real>, k: int, cell: seq<real>)
    reads nAtoms, df
    requires 0 <= k < nAtoms.Length && df.Length == nAtoms.Length * MAXATOMS
  {
    && nAtoms[k] == |cell| <= MAXATOMS
    && forall i :: 0 <= i < |cell| ==> df[k * MAXATOMS + i] == cell[i]
  }

  lemma LoadForceNext(slots: Slots, boxes: seq<int>, i: nat, sofar: seq<real>)
    requires InSlots(slots, boxes) && i < |boxes|
    ensures InSlots(slots, boxes[i..]) && InSlots(slots, boxes[i + 1..])
    ensures sofar + LoadForce(slots, boxes[i..]) == (sofar + slots[boxes[i]]) + LoadForce(slots, boxes[i + 1..])
  {
    assert boxes[i..][1..] == boxes[i + 1..];
    assert sofar + (slots[boxes[i]] + LoadForce(slots, boxes[i + 1..])) ==
             (sofar + slots[boxes[i]]) + LoadForce(slots, boxes[i + 1..]);
  }

  /** loadForceBuffer */
  method LoadForceBuffer(nAtoms: array<nat>, dfEmbed: array<real>, cellList: seq<int>,
                         ghost slots: Slots) returns (buf: seq<real>)
    requires Shows(nAtoms, dfEmbed, slots) && InSlots(slots, cellList)
    ensures buf == LoadForce(slots, cellList)
  {
    hide LoadForce;
    buf := [];
    var iCell := 0;
    assert cellList[0..] == cellList;
    while iCell < |cellList|
      invariant 0 <= iCell <= |cellList| && InSlots(slots, cellList[iCell..])
      invariant buf + LoadForce(slots, cellList[iCell..]) == LoadForce(slots, cellList)
    {
      var iBox := cellList[iCell];
      ghost var start := buf;
      LoadForceNext(slots, cellList, iCell, start);
      assert ShowsCell(nAtoms, dfEmbed, iBox, slots[iBox]);
      var ii := 0;
      while ii < nAtoms[iBox]
        invariant 0 <= ii <= nAtoms[iBox] && buf == start + slots[iBox][..ii]
      {
        buf := buf + [dfEmbed[iBox * MAXATOMS + ii]];
        ii := ii + 1;
      }
      assert slots[iBox][..ii] == slots[iBox];
      iCell := iCell + 1;
    }
    LoadForceNothing(slots, cellList);
  }

  lemma LoadForceNothing(slots: Slots, boxes: seq<int>)
    ensures InSlots(slots, boxes[|boxes|..]) && LoadForce(slots, boxes[|boxes|..]) == []
  {
  }

  lemma LoadSplit(slots: Slots, boxes: seq<int>, i: nat)
    requires i < |boxes| && InSlots(slots, boxes[i..])
    ensures InSlots(slots, boxes[i + 1..]) && 0 <= boxes[i] < |slots|
    ensures LoadForce(slots, boxes[i..]) == slots[boxes[i]] + LoadForce(slots, boxes[i + 1..])
  {
    assert boxes[i..][0] == boxes[i] && boxes[i..][1..] == boxes[i + 1..];
    assert InSlots(slots, boxes[i..][1..]);
  }

  lemma UnloadSplit(slots: Slots, boxes: seq<int>, buf: seq<real>)
    requires boxes != [] && InSlots(slots, boxes) && |buf| == |LoadForce(slots, boxes)|
    ensures var n := |slots[boxes[0]]|;
            && n <= |buf|
            && var next := slots[boxes[0] := buf[..n]];
            && InSlots(next, boxes[1..]) && |buf[n..]| == |LoadForce(next, boxes[1..])|
            && UnloadForce(slots, boxes, buf) == UnloadForce(next, boxes[1..], buf[n..])
  {
    LoadSameShape(slots, slots[boxes[0] := buf[..|slots[boxes[0]]|]], boxes[1..]);
  }

  /** Part way through a message: the cells from the i-th on still have to take the
      numbers from position `at` on. */
  ghost predicate Unloading(before: Slots, slots: Slots, boxes: seq<int>, i: nat, buf: seq<real>, at: nat) {
    && i <= |boxes| && at <= |buf|
    && InSlots(before, boxes) && |buf| == |LoadForce(before, boxes)|
    && InSlots(slots, boxes[i..]) && |buf[at..]| == |LoadForce(slots, boxes[i..])|
    && UnloadForce(slots, boxes[i..], buf[at..]) == UnloadForce(before, boxes, buf)
  }

  lemma UnloadingStart(before: Slots, boxes: seq<int>, buf: seq<real>)
    requires InSlots(before, boxes) && |buf| == |LoadForce(before, boxes)|
    ensures Unloading(before, before, boxes, 0, buf, 0)
  {
    assert boxes[0..] == boxes && buf[0..] == buf;
  }

  lemma UnloadingStep(before: Slots, slots: Slots, boxes: seq<int>, i: nat, buf: seq<real>, at: nat)
    requires Unloading(before, slots, boxes, i, buf, at) && i < |boxes|
    ensures 0 <= boxes[i] < |slots| && at + |slots[boxes[i]]| <= |buf|
    ensures var n := |slots[boxes[i]]|;
            Unloading(before, slots[boxes[i] := buf[at..at + n]], boxes, i + 1, buf, at + n)
  {
    hide LoadForce, UnloadForce;
    LoadSplit(slots, boxes, i);
    UnloadSplit(slots, boxes[i..], buf[at..]);
    var n := |slots[boxes[i]]|;
    assert boxes[i..][0] == boxes[i] && boxes[i..][1..] == boxes[i + 1..];
    assert buf[at..][..n] == buf[at..at + n] && buf[at..][n..] == buf[at + n..];
  }

  lemma UnloadingEnd(before: Slots, slots: Slots, boxes: seq<int>, buf: seq<real>, at: nat)
    requires Unloading(before, slots, boxes, |boxes|, buf, at)
    ensures InSlots(before, boxes) && |buf| == |LoadForce(before, boxes)|
    ensures slots == UnloadForce(before, boxes, buf)
  {
  }

  /** The inner loop of unloadForceBuffer: one cell takes its share of the message. */
  method UnloadCell(nAtoms: array<nat>, dfEmbed: array<real>, iBox: nat, buf: seq<real>, start: nat, ghost slots: Slots)
    requires Shows(nAtoms, dfEmbed, slots) && iBox < |slots| && start + |slots[iBox]| <= |buf|
    modifies dfEmbed
    ensures Shows(nAtoms, dfEmbed, slots[iBox := buf[start..start + |slots[iBox]|]])
  {
    assert ShowsCell(nAtoms, dfEmbed, iBox, slots[iBox]);
    var ii := 0;
    while ii < nAtoms[iBox]
      invariant 0 <= ii <= nAtoms[iBox]
      invariant forall k :: 0 <= k < |slots| && k != iBox ==> ShowsCell(nAtoms, dfEmbed, k, slots[k])
      invariant forall m :: iBox * MAXATOMS <= m < iBox * MAXATOMS + ii ==>
                  dfEmbed[m] == buf[start + m - iBox * MAXATOMS]
    {
      dfEmbed[iBox * MAXATOMS + ii] := buf[start + ii];
      ii := ii + 1;
    }
  }

  /** unloadForceBuffer: the message has exactly one number per receiving slot. */
  method UnloadForceBuffer(nAtoms: array<nat>, dfEmbed: array<real>, cellList: seq<int>, buf: seq<real>,
                           ghost before: Slots)
    requires Shows(nAtoms, dfEmbed, before) && InSlots(before, cellList)
    requires |buf| == |LoadForce(before, cellList)|
    modifies dfEmbed
    ensures Shows(nAtoms, dfEmbed, UnloadForce(before, cellList, buf))
  {
    ghost var slots := before;
    UnloadingStart(before, cellList, buf);
    hide LoadForce, UnloadForce, Unloading;
    var iCell, iBuf := 0, 0;
    while iCell < |cellList|
      invariant 0 <= iCell <= |cellList| && 0 <= iBuf
      invariant Shows(nAtoms, dfEmbed, slots) && Unloading(before, slots, cellList, iCell, buf, iBuf)
    {
      var iBox := cellList[iCell];
      UnloadingStep(before, slots, cellList, iCell, buf, iBuf);
      assert ShowsCell(nAtoms, dfEmbed, iBox, slots[iBox]);
      UnloadCell(nAtoms, dfEmbed, iBox, buf, iBuf, slots);
      slots := slots[iBox := buf[iBuf..iBuf + nAtoms[iBox]]];
      iBuf := iBuf + nAtoms[iBox];
      iCell := iCell + 1;
    }
    UnloadingEnd(before, slots, cellList, buf, iBuf);
  }

  // ----- buffer capacities

  function Max(a: int, b: int): int {
    if a > b then a else b
  }

  /** The number of cells of a face of the grid with its halo. */
  function AtomFace(g: Triple<int>, ax: Axis): int {
    match ax
    case X => (g.y + 2) * (g.z + 2)
    case Y => (g.x + 2) * (g.z + 2)
    case Z => (g.x + 2) * (g.y + 2)
  }

  function ForceFace(g: Triple<int>, ax: Axis): int {
    match ax
    case X => g.y * g.z
    case Y => (g.x + 2) * g.z
    case Z => (g.x + 2) * (g.y + 2)
  }

  /** initAtomHaloExchange: the maximum of the first two face sizes is computed and
      then overwritten, so the x face does not count. */
  function AtomBufCapacity(g: Triple<int>): int {
    Max(AtomFace(g, Y), AtomFace(g, Z)) * 2 * MAXATOMS
  }

  function ForceBufCapacity(g: Triple<int>): int {
    Max(ForceFace(g, Y), ForceFace(g, Z)) * MAXATOMS
  }

  lemma AtomMessageCells(g: Triple<int>, ax: Axis, side: Side)
    requires g.x >= 2 && g.y >= 2 && g.z >= 2
    ensures |AtomTuples(g, ax, side)| == 2 * AtomFace(g, ax)
  {
    var lo, hi := AtomListLo(g, ax, side), AtomListHi(g, ax, side);
    BlockLength(lo, hi);
    hide Block;
    match ax
    case X => FaceProduct(hi.x - lo.x, hi.y - lo.y, hi.z - lo.z);
    case Y => FaceProduct(hi.x - lo.x, hi.y - lo.y, hi.z - lo.z);
    case Z => FaceProduct(hi.x - lo.x, hi.y - lo.y, hi.z - lo.z);
  }

  /** The size of a block that is one or two planes thick along an axis. */
  lemma FaceProduct(a: int, b: int, c: int)
    ensures a == 1 ==> a * (b * c) == b * c
    ensures b == 1 ==> a * (b * c) == a * c
    ensures c == 1 ==> a * (b * c) == a * b
    ensures a == 2 ==> a * (b * c) == 2 * (b * c)
    ensures b == 2 ==> a * (b * c) == 2 * (a * c)
    ensures c == 2 ==> a * (b * c) == 2 * (a * b)
  {
  }

  lemma ForceMessageCells(g: Triple<int>, ax: Axis, side: Side)
    requires g.x >= 2 && g.y >= 2 && g.z >= 2
    ensures |SendTuples(g, ax, side)| == ForceFace(g, ax)
  {
    var plane := if side.MinusSide? then 0 else g.At(ax) - 1;
    var lo, hi := FullLo(ax).With(ax, plane), FullHi(g, ax).With(ax, plane + 1);
    BlockLength(lo, hi);
    hide Block;
    match ax
    case X => FaceProduct(hi.x - lo.x, hi.y - lo.y, hi.z - lo.z);
    case Y => FaceProduct(hi.x - lo.x, hi.y - lo.y, hi.z - lo.z);
    case Z => FaceProduct(hi.x - lo.x, hi.y - lo.y, hi.z - lo.z);
  }

  /** The atom buffers hold the largest message of every face exactly when the x
      face is no larger than the largest of the other two. */
  lemma AtomBuffersSuffice(g: Triple<int>)
    requires g.x >= 2 && g.y >= 2 && g.z >= 2
    ensures (forall ax: Axis, side: Side :: |AtomTuples(g, ax, side)| * MAXATOMS <= AtomBufCapacity(g))
       <==> AtomFace(g, X) <= Max(AtomFace(g, Y), AtomFace(g, Z))
  {
    hide AtomTuples, AtomFace;
    AtomMessageCells(g, X, MinusSide);
    if AtomFace(g, X) <= Max(AtomFace(g, Y), AtomFace(g, Z)) {
      forall ax: Axis, side: Side
        ensures |AtomTuples(g, ax, side)| * MAXATOMS <= AtomBufCapacity(g)
      {
        AtomMessageCells(g, ax, side);
        assert ax == X || ax == Y || ax == Z;
      }
    }
  }

  lemma ForceBuffersSuffice(g: Triple<int>)
    requires g.x >= 2 && g.y >= 2 && g.z >= 2
    ensures (forall ax: Axis, side: Side :: |SendTuples(g, ax, side)| * MAXATOMS <= ForceBufCapacity(g))
       <==> ForceFace(g, X) <= Max(ForceFace(g, Y), ForceFace(g, Z))
  {
    hide SendTuples, ForceFace;
    ForceMessageCells(g, X, MinusSide);
    if ForceFace(g, X) <= Max(ForceFace(g, Y), ForceFace(g, Z)) {
      forall ax: Axis, side: Side
        ensures |SendTuples(g, ax, side)| * MAXATOMS <= ForceBufCapacity(g)
      {
        ForceMessageCells(g, ax, side);
        assert ax == X || ax == Y || ax == Z;
      }
    }
  }

  /** Two cells on the x axis and eight on the others are enough to overflow. */
  lemma AtomBufferTooSmall()
    ensures var g := Triple(2, 8, 8); |AtomTuples(g, X, MinusSide)| * MAXATOMS > AtomBufCapacity(g)
  {
    AtomMessageCells(Triple(2, 8, 8), X, MinusSide);
    hide AtomTuples;
  }

  lemma ForceBufferTooSmall()
    ensures var g := Triple(2, 8, 8); |SendTuples(g, X, MinusSide)| * MAXATOMS > ForceBufCapacity(g)
  {
    ForceMessageCells(Triple(2, 8, 8), X, MinusSide);
    hide SendTuples;
  }
}
