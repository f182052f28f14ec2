/** Pair interactions of the atoms held by one rank, and why only adjacent link cells
    matter. */
module PairForces {
  import opened Triples
  import opened LinkCellIndex
  import opened Decomposition
  import opened LoadSums
  import opened PairLaws
  import CL = CellLists
  import Atoms

  /** The atoms of a rank in their slots: MAXATOMS to a cell, nAtoms of them in use. */
  datatype Store = Store(g: Triple<int>, nAtoms: seq<nat>, r: seq<Triple<real>>, gid: seq<int>)

  const SLOTS: nat := Atoms.MAXATOMS

  ghost predicate ValidStore(e: Store) {
    && ValidGrid(e.g) && |e.nAtoms| == NTotalBoxes(e.g)
    && |e.r| == |e.gid| == |e.nAtoms| * SLOTS
    && forall b :: 0 <= b < |e.nAtoms| ==> e.nAtoms[b] <= SLOTS
  }

  function Slot(b: int, k: int): int {
    b * SLOTS + k
  }

  /** Slot k of cell b holds an atom. */
  predicate Holds(e: Store, b: int, k: int) {
    0 <= b < |e.nAtoms| && 0 <= k < e.nAtoms[b]
  }

  lemma SlotInside(e: Store, b: int, k: int)
    requires ValidStore(e) && Holds(e, b, k)
    ensures 0 <= Slot(b, k) < |e.r| == |e.gid|
    ensures NLocalBoxes(e.g) <= |e.nAtoms|
    ensures Slot(b, k) < NLocalBoxes(e.g) * SLOTS <==> b < NLocalBoxes(e.g)
  {
    TupleRoundTrip(e.g, Triple(0, 0, 0));
    TupleRoundTrip(e.g, Triple(-1, 0, 0));
  }

  lemma SlotsDiffer(e: Store, b: int, k: int, c: int, l: int)
    requires ValidStore(e) && Holds(e, b, k) && Holds(e, c, l) && Slot(b, k) == Slot(c, l)
    ensures b == c && k == l
  {
  }

  function R2(e: Store, i: int, j: int): real
    requires 0 <= i < |e.r| && 0 <= j < |e.r|
  {
    Square(Difference(e.r[i], e.r[j]))
  }

  /** What the atom in slot i gets from the atom in slot j. */
  function PairLoad(e: Store, p: Potential, i: int, j: int): Load
    requires Good(p) && 0 <= i < |e.r| && 0 <= j < |e.r|
  {
    var r2 := R2(e, i, j);
    if !Beyond(p, r2) && r2 > 0.0 then Contribution(p, Couple(p, i, j), Difference(e.r[i], e.r[j]), r2) else NONE
  }

  lemma PairOpposite(e: Store, p: Potential, i: int, j: int)
    requires Good(p) && 0 <= i < |e.r| && 0 <= j < |e.r|
    ensures PairLoad(e, p, j, i) == Opposite(PairLoad(e, p, i, j))
  {
    SquareEven(e.r[i], e.r[j]);
    CoupleEven(p, i, j);
    hide Contribution, Square, Difference, Couple, GoodLaw;
    if 0.0 < R2(e, i, j) && !Beyond(p, R2(e, i, j)) {
      ContributionOpposite(p, Couple(p, i, j), e.r[i], e.r[j], R2(e, i, j));
    }
  }

  lemma PairSelf(e: Store, p: Potential, i: int)
    requires Good(p) && 0 <= i < |e.r|
    ensures R2(e, i, i) == 0.0 && PairLoad(e, p, i, i) == NONE
  {
    hide Contribution, GoodLaw, Couple;
  }

  // ----- sums over cells

  /** What slot i gets from each atom of cell b. */
  function PairVals(e: Store, p: Potential, i: int, b: int): (vals: seq<Load>)
    requires ValidStore(e) && Good(p) && 0 <= i < |e.r| && 0 <= b < |e.nAtoms|
    ensures |vals| == e.nAtoms[b]
    ensures forall k :: 0 <= k < |vals| ==>
              Holds(e, b, k) && 0 <= Slot(b, k) < |e.r| && vals[k] == PairLoad(e, p, i, Slot(b, k))
  {
    seq(e.nAtoms[b], k requires 0 <= k < e.nAtoms[b] => PairLoad(e, p, i, Slot(b, k)))
  }

  /** What slot i gets from cell b. */
  function CellLoad(e: Store, p: Potential, i: int, b: int): Load
    requires ValidStore(e) && Good(p) && 0 <= i < |e.r| && 0 <= b < |e.nAtoms|
  {
    Sum(PairVals(e, p, i, b), e.nAtoms[b])
  }

  function CellVals(e: Store, p: Potential, i: int): (vals: seq<Load>)
    requires ValidStore(e) && Good(p) && 0 <= i < |e.r|
    ensures |vals| == |e.nAtoms| && forall b :: 0 <= b < |vals| ==> vals[b] == CellLoad(e, p, i, b)
  {
    seq(|e.nAtoms|, b requires 0 <= b < |e.nAtoms| => CellLoad(e, p, i, b))
  }

  /** The sum over all atoms of all cells: what the kernels must compute. */
  function BruteForce(e: Store, p: Potential, i: int): Load
    requires ValidStore(e) && Good(p) && 0 <= i < |e.r|
  {
    Sum(CellVals(e, p, i), |e.nAtoms|)
  }

  // ----- neighbouring cells

  function Minus1(t: Triple<int>): Triple<int> {
    Triple(t.x - 1, t.y - 1, t.z - 1)
  }

  function Plus2(t: Triple<int>): Triple<int> {
    Triple(t.x + 2, t.y + 2, t.z + 2)
  }

  predicate Adjacent(t: Triple<int>, u: Triple<int>) {
    -1 <= u.x - t.x <= 1 && -1 <= u.y - t.y <= 1 && -1 <= u.z - t.z <= 1
  }

  function NeighborTuples(g: Triple<int>, iBox: int): seq<Triple<int>>
    requires ValidGrid(g)
  {
    CL.Block(Minus1(GetTuple(g, iBox)), Plus2(GetTuple(g, iBox)))
  }

  function NeighborBoxes(g: Triple<int>, iBox: int): seq<int>
    requires ValidGrid(g)
  {
    CL.Boxes(g, NeighborTuples(g, iBox))
  }

  /** getNeighborBoxes */
  method GetNeighborBoxes(g: Triple<int>, iBox: int) returns (nbrBoxes: seq<int>)
    requires ValidGrid(g)
    ensures nbrBoxes == NeighborBoxes(g, iBox)
  {
    var t := GetTuple(g, iBox);
    nbrBoxes := CL.MakeCellList(g, Minus1(t), Plus2(t));
  }

  /** A local cell has 27 different neighbours, itself among them: the cells of the
      adjacent tuples. */
  lemma NeighborsAre(g: Triple<int>, iBox: int)
    requires ValidGrid(g) && 0 <= iBox < NLocalBoxes(g)
    ensures |NeighborBoxes(g, iBox)| == 27
    ensures forall q :: 0 <= q < 27 ==> 0 <= NeighborBoxes(g, iBox)[q] < NTotalBoxes(g)
    ensures forall p, q :: 0 <= p < q < 27 ==> NeighborBoxes(g, iBox)[p] != NeighborBoxes(g, iBox)[q]
    ensures forall b :: 0 <= b < NTotalBoxes(g) ==>
              (b in NeighborBoxes(g, iBox) <==> Adjacent(GetTuple(g, iBox), GetTuple(g, b)))
  {
    LocalBoxRoundTrip(g, iBox);
    var t := GetTuple(g, iBox);
    var tuples, boxes := NeighborTuples(g, iBox), NeighborBoxes(g, iBox);
    CL.BlockFacts(Minus1(t), Plus2(t));
    CL.BlockLength(Minus1(t), Plus2(t));
    hide GetTuple, GetBoxFromTuple, NTotalBoxes, NLocalBoxes, NeighborTuples, NeighborBoxes, CL.Block;
    assert |boxes| == |tuples| && forall q :: 0 <= q < |tuples| ==> boxes[q] == GetBoxFromTuple(g, tuples[q]) by {
      BoxesAre(g, iBox);
    }
    forall q | 0 <= q < 27
      ensures ValidTuple(g, tuples[q]) && 0 <= boxes[q] < NTotalBoxes(g) && GetTuple(g, boxes[q]) == tuples[q]
      ensures Adjacent(t, tuples[q])
    {
      assert tuples[q] in tuples;
      TupleRoundTrip(g, tuples[q]);
    }
    forall p, q | 0 <= p < q < 27
      ensures boxes[p] != boxes[q]
    {
      assert tuples[p] != tuples[q];
      assert GetTuple(g, boxes[p]) == tuples[p] && GetTuple(g, boxes[q]) == tuples[q];
    }
    forall b | 0 <= b < NTotalBoxes(g)
      ensures b in boxes <==> Adjacent(t, GetTuple(g, b))
    {
      BoxRoundTrip(g, b);
      if Adjacent(t, GetTuple(g, b)) {
        assert GetTuple(g, b) in tuples;
      }
    }
  }

  lemma BoxesAre(g: Triple<int>, iBox: int)
    requires ValidGrid(g)
    ensures NeighborTuples(g, iBox) == CL.Block(Minus1(GetTuple(g, iBox)), Plus2(GetTuple(g, iBox)))
    ensures |NeighborBoxes(g, iBox)| == |NeighborTuples(g, iBox)|
    ensures forall q :: 0 <= q < |NeighborBoxes(g, iBox)| ==>
              NeighborBoxes(g, iBox)[q] == GetBoxFromTuple(g, NeighborTuples(g, iBox)[q])
  {
    hide GetBoxFromTuple, GetTuple, CL.Block;
  }

  /** Being neighbours goes both ways. */
  lemma NeighborsMutual(g: Triple<int>, a: int, b: int)
    requires ValidGrid(g) && 0 <= a < NLocalBoxes(g) && 0 <= b < NLocalBoxes(g) <= NTotalBoxes(g)
    ensures a in NeighborBoxes(g, b) <==> b in NeighborBoxes(g, a)
  {
    hide GetTuple, NeighborBoxes, NLocalBoxes, NTotalBoxes;
    NeighborsAre(g, a);
    NeighborsAre(g, b);
  }

  // ----- only neighbouring cells are within the cutoff

  /** The position lies in cell t of the brick rho. */
  ghost predicate InCell(d: Domain, rho: Triple<int>, t: Triple<int>, r: Triple<real>)
    requires ValidDomain(d)
  {
    && GlobalCell(d, X, r.x) == rho.x * d.gridSize.x + t.x
    && GlobalCell(d, Y, r.y) == rho.y * d.gridSize.y + t.y
    && GlobalCell(d, Z, r.z) == rho.z * d.gridSize.z + t.z
  }

  /** Every atom is in the cell that holds it, and cells are no narrower than the
      cutoff. */
  ghost predicate Located(d: Domain, rho: Triple<int>, e: Store, p: Potential) {
    && ValidDomain(d) && ValidStore(e) && e.g == d.gridSize
    && Good(p) && p.cutoff <= d.boxSize.x && p.cutoff <= d.boxSize.y && p.cutoff <= d.boxSize.z
    && forall b, k :: Holds(e, b, k) ==>
         0 <= Slot(b, k) < |e.r| && InCell(d, rho, GetTuple(e.g, b), e.r[Slot(b, k)])
  }

  lemma LocatedAt(d: Domain, rho: Triple<int>, e: Store, p: Potential, b: int, k: int)
    requires Located(d, rho, e, p) && Holds(e, b, k)
    ensures 0 <= Slot(b, k) < |e.r| && InCell(d, rho, GetTuple(e.g, b), e.r[Slot(b, k)])
  {
    hide InCell, GetTuple, Slot, Holds, ValidStore, ValidDomain;
  }

  /** Coordinates two cells apart are further apart than a cell is wide. */
  lemma CellsApart(d: Domain, ax: Axis, x: real, y: real)
    requires ValidAxis(d, ax) && GlobalCell(d, ax, x) + 2 <= GlobalCell(d, ax, y)
    ensures y - x > d.boxSize.At(ax)
  {
    var b, c := d.boxSize.At(ax), GlobalCell(d, ax, x);
    FloorBelow(x, c + 1, b);
    FloorBelow(y, c + 2, b);
    WidthNext(c + 1, b);
  }

  lemma WidthNext(n: int, b: real)
    ensures (n + 1) as real * b == n as real * b + b
  {
  }

  lemma SquareMono(x: real, c: real)
    requires x > c > 0.0
    ensures Times(x, x) > Times(c, c)
  {
    assert x * x - c * c == (x - c) * (x + c);
    TimesPositive(x - c, x + c);
  }

  lemma SquareAbove(v: Triple<real>, c: real)
    requires c > 0.0 && (v.x > c || v.x < -c || v.y > c || v.y < -c || v.z > c || v.z < -c)
    ensures Square(v) > Times(c, c)
  {
    SquareNonnegative(v.x);
    SquareNonnegative(v.y);
    SquareNonnegative(v.z);
    SquareOutside(v.x, c);
    SquareOutside(v.y, c);
    SquareOutside(v.z, c);
    SquareIs(v);
    hide Times, Square;
  }

  lemma SquareIs(v: Triple<real>)
    ensures Square(v) == Times(v.x, v.x) + Times(v.y, v.y) + Times(v.z, v.z)
  {
  }

  lemma SquareOutside(x: real, c: real)
    requires c > 0.0
    ensures x > c || x < -c ==> Times(x, x) > Times(c, c)
  {
    EvenProduct(x);
    assert Times(x, x) == Times(-x, -x);
    hide Times;
    if x > c {
      SquareMono(x, c);
    } else if x < -c {
      SquareMono(-x, c);
    }
  }

  lemma SquareNonnegative(x: real)
    ensures Times(x, x) >= 0.0
  {
    EvenProduct(x);
    assert Times(x, x) == Times(-x, -x);
    hide Times;
    if x > 0.0 {
      TimesPositive(x, x);
    } else if x < 0.0 {
      TimesPositive(-x, -x);
    } else {
      TimesZero(x);
    }
  }

  lemma TimesZero(x: real)
    ensures Times(0.0, x) == 0.0
  {
  }

  /** Positions in cells that are not adjacent are beyond the cutoff. */
  lemma FarCells(d: Domain, rho: Triple<int>, p: Potential, t: Triple<int>, u: Triple<int>, a: Triple<real>,
                 b: Triple<real>)
    requires ValidDomain(d) && Good(p) && p.cutoff <= d.boxSize.x && p.cutoff <= d.boxSize.y && p.cutoff <= d.boxSize.z
    requires InCell(d, rho, t, a) && InCell(d, rho, u, b) && !Adjacent(t, u)
    ensures Square(Difference(a, b)) > Cut2(p)
  {
    FarAxis(d, X, a.x, b.x);
    FarAxis(d, Y, a.y, b.y);
    FarAxis(d, Z, a.z, b.z);
    hide Square, GlobalCell;
    SquareAbove(Difference(a, b), p.cutoff);
  }

  lemma FarAxis(d: Domain, ax: Axis, x: real, y: real)
    requires ValidAxis(d, ax)
    ensures !(-1 <= GlobalCell(d, ax, y) - GlobalCell(d, ax, x) <= 1) ==>
              x - y > d.boxSize.At(ax) || x - y < -d.boxSize.At(ax)
  {
    hide GlobalCell;
    if GlobalCell(d, ax, x) + 2 <= GlobalCell(d, ax, y) {
      CellsApart(d, ax, x, y);
    } else if GlobalCell(d, ax, y) + 2 <= GlobalCell(d, ax, x) {
      CellsApart(d, ax, y, x);
    }
  }

  lemma FarPair(d: Domain, rho: Triple<int>, e: Store, p: Potential, a: int, k: int, b: int, l: int)
    requires Located(d, rho, e, p) && Holds(e, a, k) && Holds(e, b, l)
    requires 0 <= a < NLocalBoxes(e.g) && b !in NeighborBoxes(e.g, a)
    ensures 0 <= Slot(a, k) < |e.r| && 0 <= Slot(b, l) < |e.r|
    ensures R2(e, Slot(a, k), Slot(b, l)) > Cut2(p)
    ensures PairLoad(e, p, Slot(a, k), Slot(b, l)) == NONE
  {
    LocatedAt(d, rho, e, p, a, k);
    LocatedAt(d, rho, e, p, b, l);
    hide InCell, GetTuple, Slot, NeighborBoxes, Contribution, Square, NTotalBoxes, NLocalBoxes;
    NeighborsAre(e.g, a);
    FarCells(d, rho, p, GetTuple(e.g, a), GetTuple(e.g, b), e.r[Slot(a, k)], e.r[Slot(b, l)]);
  }

  /** A cell that is not a neighbour contributes nothing. */
  lemma FarCellLoad(d: Domain, rho: Triple<int>, e: Store, p: Potential, a: int, k: int, b: int)
    requires Located(d, rho, e, p) && Holds(e, a, k) && 0 <= b < |e.nAtoms|
    requires 0 <= a < NLocalBoxes(e.g) && b !in NeighborBoxes(e.g, a)
    ensures 0 <= Slot(a, k) < |e.r| && CellLoad(e, p, Slot(a, k), b) == NONE
  {
    LocatedAt(d, rho, e, p, a, k);
    var i := Slot(a, k);
    hide Located, NeighborBoxes, Slot, PairLoad, NLocalBoxes, Sum, ValidStore;
    LocatedStore(d, rho, e, p);
    var vals := PairVals(e, p, i, b);
    forall l | 0 <= l < |vals|
      ensures vals[l] == NONE
    {
      FarPair(d, rho, e, p, a, k, b, l);
    }
    SumZeros(vals, e.nAtoms[b]);
  }

  lemma LocatedStore(d: Domain, rho: Triple<int>, e: Store, p: Potential)
    requires Located(d, rho, e, p)
    ensures ValidStore(e) && Good(p) && ValidGrid(e.g) && |e.nAtoms| == NTotalBoxes(e.g)
  {
  }

  /** The search through the 27 neighbours finds what the search through all cells
      finds. */
  lemma NeighborsSuffice(d: Domain, rho: Triple<int>, e: Store, p: Potential, a: int, k: int)
    requires Located(d, rho, e, p) && Holds(e, a, k) && 0 <= a < NLocalBoxes(e.g)
    ensures 0 <= Slot(a, k) < |e.r| && ValidStore(e) && |NeighborBoxes(e.g, a)| == 27
    ensures forall q :: 0 <= q < 27 ==> 0 <= NeighborBoxes(e.g, a)[q] < |e.nAtoms|
    ensures Listed(CellVals(e, p, Slot(a, k)), NeighborBoxes(e.g, a), 27) == BruteForce(e, p, Slot(a, k))
  {
    LocatedAt(d, rho, e, p, a, k);
    LocatedStore(d, rho, e, p);
    var i, list := Slot(a, k), NeighborBoxes(e.g, a);
    hide Located, NeighborBoxes, Slot, CellLoad, NLocalBoxes, NTotalBoxes, Sum, Listed, ValidStore, GetTuple;
    NeighborsAre(e.g, a);
    var vals := CellVals(e, p, i);
    forall b | 0 <= b < |vals| && (forall q :: 0 <= q < 27 ==> list[q] != b)
      ensures vals[b] == NONE
    {
      FarCellLoad(d, rho, e, p, a, k, b);
    }
    ListedIsAll(vals, list, 27);
  }
}
