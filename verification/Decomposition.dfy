/** The spatial decomposition: ranks form a periodic 3D grid of equal bricks, and
    every brick is divided into the same number of link cells per axis.  Positions
    are exact reals.  All classification of coordinates is done on the integer
    `GlobalCell` of a coordinate, which the per-rank arithmetic is proved to
    agree with. */
module Decomposition {
  import opened Triples
  import opened LinkCellIndex
  import opened Wrappers

  /** What initDecomposition and initLinkCells record: the processor grid, the
      size of the simulation and of one brick, the number of link cells of a brick
      and the size of one cell. */
  datatype Domain = Domain(procGrid: Triple<int>, globalExtent: Triple<real>, localExtent: Triple<real>,
                           gridSize: Triple<int>, boxSize: Triple<real>)

  predicate PositiveGrid(d: Domain) {
    d.procGrid.x >= 1 && d.procGrid.y >= 1 && d.procGrid.z >= 1
  }

  predicate ValidAxis(d: Domain, ax: Axis) {
    AxisLayout(d.procGrid.At(ax), d.globalExtent.At(ax), d.localExtent.At(ax), d.gridSize.At(ax), d.boxSize.At(ax))
  }

  /** procs bricks of g cells of width b, at least two cells to a brick. */
  predicate AxisLayout(procs: int, globalExtent: real, localExtent: real, g: int, b: real) {
    && procs >= 1 && g >= 2 && b > 0.0
    && localExtent == g as real * b
    && globalExtent == procs as real * localExtent
  }

  predicate ValidDomain(d: Domain) {
    ValidAxis(d, X) && ValidAxis(d, Y) && ValidAxis(d, Z)
  }

  function BrickExtent(procs: int, globalExtent: real): real
    requires procs >= 1
  {
    globalExtent / procs as real
  }

  /** initLinkCells truncates; with positive operands that is the floor. */
  function CellsAcross(extent: real, cutoff: real): int
    requires cutoff > 0.0
  {
    (extent / cutoff).Floor
  }

  lemma CellWidth(extent: real, cutoff: real)
    requires cutoff > 0.0 && extent > 0.0 && CellsAcross(extent, cutoff) >= 2
    ensures CellsAcross(extent, cutoff) as real * CellSize(extent, CellsAcross(extent, cutoff)) == extent
    ensures CellSize(extent, CellsAcross(extent, cutoff)) >= cutoff
  {
    var g := CellsAcross(extent, cutoff) as real;
    QuotientTimes(extent, cutoff);
    QuotientTimes(extent, g);
    ScaledCompare(g, extent / cutoff, cutoff);
    LargerFactor(g, cutoff, extent / g);
  }

  lemma BrickWidth(procs: int, globalExtent: real)
    requires procs >= 1 && globalExtent > 0.0
    ensures BrickExtent(procs, globalExtent) > 0.0
    ensures procs as real * BrickExtent(procs, globalExtent) == globalExtent
  {
    QuotientTimes(globalExtent, procs as real);
  }

  /** initDecomposition followed by initLinkCells; nothing when the assertion on
      two cells per axis fails. */
  function InitDomain(procGrid: Triple<int>, globalExtent: Triple<real>, cutoff: real): (d: Option<Domain>)
    requires procGrid.x >= 1 && procGrid.y >= 1 && procGrid.z >= 1
    requires globalExtent.x > 0.0 && globalExtent.y > 0.0 && globalExtent.z > 0.0
    requires cutoff > 0.0
  {
    var ext := Triple(BrickExtent(procGrid.x, globalExtent.x),
                      BrickExtent(procGrid.y, globalExtent.y),
                      BrickExtent(procGrid.z, globalExtent.z));
    var g := Triple(CellsAcross(ext.x, cutoff), CellsAcross(ext.y, cutoff), CellsAcross(ext.z, cutoff));
    if g.x >= 2 && g.y >= 2 && g.z >= 2 then
      Some(Domain(procGrid, globalExtent, ext, g,
                  Triple(CellSize(ext.x, g.x), CellSize(ext.y, g.y), CellSize(ext.z, g.z))))
    else
      None
  }

  function CellSize(extent: real, g: int): real
    requires g >= 1
  {
    extent / g as real
  }

  lemma InitAxisValid(procs: int, globalExtent: real, cutoff: real)
    requires procs >= 1 && globalExtent > 0.0 && cutoff > 0.0
    requires CellsAcross(BrickExtent(procs, globalExtent), cutoff) >= 2
    ensures var ext := BrickExtent(procs, globalExtent);
            var g := CellsAcross(ext, cutoff);
            AxisLayout(procs, globalExtent, ext, g, CellSize(ext, g)) && CellSize(ext, g) >= cutoff
  {
    BrickWidth(procs, globalExtent);
    CellWidth(BrickExtent(procs, globalExtent), cutoff);
  }

  /** An accepted layout divides the simulation into whole bricks of whole cells,
      and no cell is narrower than the cutoff. */
  lemma InitDomainValid(procGrid: Triple<int>, globalExtent: Triple<real>, cutoff: real)
    requires procGrid.x >= 1 && procGrid.y >= 1 && procGrid.z >= 1
    requires globalExtent.x > 0.0 && globalExtent.y > 0.0 && globalExtent.z > 0.0
    requires cutoff > 0.0
    requires InitDomain(procGrid, globalExtent, cutoff).Some?
    ensures var d := InitDomain(procGrid, globalExtent, cutoff).value;
            ValidDomain(d) && d.boxSize.x >= cutoff && d.boxSize.y >= cutoff && d.boxSize.z >= cutoff
  {
    InitAxisValid(procGrid.x, globalExtent.x, cutoff);
    InitAxisValid(procGrid.y, globalExtent.y, cutoff);
    InitAxisValid(procGrid.z, globalExtent.z, cutoff);
  }

  // ----- ranks and their coordinates in the processor grid

  function NRanks(d: Domain): int {
    d.procGrid.x * d.procGrid.y * d.procGrid.z
  }

  predicate ValidCoord(d: Domain, c: Triple<int>) {
    InRange(Triple(0, 0, 0), c, d.procGrid)
  }

  function ProcCoord(d: Domain, rank: int): Triple<int>
    requires PositiveGrid(d)
  {
    Triple(rank % d.procGrid.x, (rank / d.procGrid.x) % d.procGrid.y, (rank / d.procGrid.x) / d.procGrid.y)
  }

  function RankOf(d: Domain, c: Triple<int>): int {
    c.x + d.procGrid.x * (c.y + d.procGrid.y * c.z)
  }

  function ProcessorNum(d: Domain, c: Triple<int>, delta: Triple<int>): int
    requires PositiveGrid(d)
  {
    var p := d.procGrid;
    RankOf(d, Triple((c.x + delta.x + p.x) % p.x, (c.y + delta.y + p.y) % p.y, (c.z + delta.z + p.z) % p.z))
  }

  lemma RankRoundTrip(d: Domain, c: Triple<int>)
    requires PositiveGrid(d) && ValidCoord(d, c)
    ensures 0 <= RankOf(d, c) < NRanks(d)
    ensures ProcCoord(d, RankOf(d, c)) == c
  {
    var p := d.procGrid;
    var row := c.z * p.y + c.y;
    RowMajorBound(c.z, p.z, c.y, p.y);
    RowMajorBound(row, p.z * p.y, c.x, p.x);
    assert p.y * c.z == c.z * p.y;
    assert RankOf(d, c) == row * p.x + c.x;
    assert (p.z * p.y) * p.x == NRanks(d);
    DivModUnique(row, c.x, p.x);
    DivModUnique(c.z, c.y, p.y);
  }

  lemma CoordRoundTrip(d: Domain, rank: int)
    requires PositiveGrid(d) && 0 <= rank < NRanks(d)
    ensures ValidCoord(d, ProcCoord(d, rank))
    ensures RankOf(d, ProcCoord(d, rank)) == rank
  {
    MixedRadixSplit(rank, d.procGrid.x, d.procGrid.y, d.procGrid.z);
  }

  /** The unit step of size n along one axis. */
  function Along(ax: Axis, n: int): Triple<int> {
    Triple(0, 0, 0).With(ax, n)
  }

  /** The periodic neighbour n bricks away on one axis, as processorNum's
      coordinates. */
  function NeighborCoord(d: Domain, c: Triple<int>, ax: Axis, n: int): Triple<int>
    requires PositiveGrid(d)
  {
    c.With(ax, (c.At(ax) + n + d.procGrid.At(ax)) % d.procGrid.At(ax))
  }

  lemma ModStep(c: int, n: int, p: int)
    requires p >= 1 && 0 <= c < p && -1 <= n <= 1
    ensures 0 <= (c + n + p) % p < p
    ensures (c + n + p) % p == if c + n < 0 then c + n + p else if c + n >= p then c + n - p else c + n
  {
    var k := c + n + p;
    if k < p {
      DivModUnique(0, k, p);
      assert 0 * p + k == k;
    } else if k < 2 * p {
      DivModUnique(1, k - p, p);
      assert 1 * p + (k - p) == k;
    } else {
      DivModUnique(2, k - 2 * p, p);
      assert 2 * p + (k - 2 * p) == k;
    }
  }

  lemma ModStepBack(c: int, n: int, p: int)
    requires p >= 1 && 0 <= c < p && -1 <= n <= 1
    ensures 0 <= (c + n + p) % p < p
    ensures ((c + n + p) % p - n + p) % p == c
  {
    ModStep(c, n, p);
    ModStep((c + n + p) % p, -n, p);
  }

  lemma ProcessorNumIsNeighbor(d: Domain, c: Triple<int>, ax: Axis, n: int)
    requires PositiveGrid(d) && ValidCoord(d, c) && -1 <= n <= 1
    ensures ValidCoord(d, NeighborCoord(d, c, ax, n))
    ensures ProcessorNum(d, c, Along(ax, n)) == RankOf(d, NeighborCoord(d, c, ax, n))
  {
    hide RankOf;
    ModStep(c.x, 0, d.procGrid.x);
    ModStep(c.y, 0, d.procGrid.y);
    ModStep(c.z, 0, d.procGrid.z);
    ModStep(c.At(ax), n, d.procGrid.At(ax));
  }

  /** processorNum with a step of -1, 0 or +1 on one axis names a real rank, whose
      coordinates differ only there; and stepping back returns, so a rank's minus
      neighbour has that rank as its plus neighbour and conversely. */
  lemma ProcessorNumNeighbors(d: Domain, c: Triple<int>, ax: Axis, n: int)
    requires PositiveGrid(d) && ValidCoord(d, c) && -1 <= n <= 1
    ensures ValidCoord(d, NeighborCoord(d, c, ax, n))
    ensures 0 <= ProcessorNum(d, c, Along(ax, n)) < NRanks(d)
    ensures ProcCoord(d, ProcessorNum(d, c, Along(ax, n))) == NeighborCoord(d, c, ax, n)
    ensures ProcessorNum(d, NeighborCoord(d, c, ax, n), Along(ax, -n)) == RankOf(d, c)
  {
    hide RankOf, NRanks, ProcCoord;
    var nb := NeighborCoord(d, c, ax, n);
    ProcessorNumIsNeighbor(d, c, ax, n);
    RankRoundTrip(d, nb);
    ProcessorNumIsNeighbor(d, nb, ax, -n);
    ModStepBack(c.At(ax), n, d.procGrid.At(ax));
  }

  // ----- coordinates

  /** The cell a coordinate falls in when the whole periodic axis, repeated
      without end, is counted in cells from the global origin. */
  function GlobalCell(d: Domain, ax: Axis, r: real): int
    requires ValidAxis(d, ax)
  {
    CellCount(r, d.boxSize.At(ax))
  }

  function CellCount(r: real, boxSize: real): int
    requires boxSize > 0.0
  {
    (r / boxSize).Floor
  }

  /** The number of cells of the whole simulation on one axis. */
  function CellsOn(d: Domain, ax: Axis): int {
    d.procGrid.At(ax) * d.gridSize.At(ax)
  }

  function LocalMin(d: Domain, ax: Axis, pc: int): real {
    pc as real * d.localExtent.At(ax)
  }

  function LocalMax(d: Domain, ax: Axis, pc: int): real {
    (pc + 1) as real * d.localExtent.At(ax)
  }

  /** One axis of getBoxFromCoord on a rank with processor coordinate pc. */
  function AxisCell(d: Domain, ax: Axis, pc: int, r: real): int
    requires ValidAxis(d, ax)
  {
    CellInBrick(r, LocalMin(d, ax, pc), LocalMax(d, ax, pc), d.boxSize.At(ax), d.gridSize.At(ax))
  }

  /** getBoxFromCoord's arithmetic and its two corrections: a coordinate below the
      upper bound never lands in the upper halo, any other always does. */
  function CellInBrick(r: real, localMin: real, localMax: real, boxSize: real, g: int): int
    requires boxSize > 0.0
  {
    var invBoxSize := 1.0 / boxSize;
    var ix := ((r - localMin) * invBoxSize).Floor;
    if r < localMax then
      if ix == g then g - 1 else ix
    else
      g
  }

  lemma Extents(d: Domain, ax: Axis)
    requires ValidAxis(d, ax)
    ensures d.globalExtent.At(ax) == CellsOn(d, ax) as real * d.boxSize.At(ax)
  {
    BrickEdge(d.procGrid.At(ax), d.gridSize.At(ax), d.boxSize.At(ax), d.localExtent.At(ax));
  }

  lemma QuotientTimes(a: real, b: real)
    requires b > 0.0
    ensures (a / b) * b == a
    ensures a > 0.0 ==> a / b > 0.0
  {
  }

  lemma SubDivide(r: real, n: int, b: real)
    requires b > 0.0
    ensures (r - n as real * b) / b == r / b - n as real
    ensures (r - n as real * b) * (1.0 / b) == (r - n as real * b) / b
  {
    QuotientTimes(r, b);
    var q := r / b - n as real;
    assert q * b == r - n as real * b;
    assert (q * b) / b == q;
  }

  lemma BrickEdge(pc: int, g: int, b: real, extent: real)
    requires extent == g as real * b
    ensures pc as real * extent == (pc * g) as real * b
  {
    assert (pc * g) as real == pc as real * g as real;
    assert pc as real * (g as real * b) == (pc as real * g as real) * b;
  }

  lemma FloorMinus(x: real, n: int)
    ensures (x - n as real).Floor == x.Floor - n
  {
  }

  lemma FloorBelow(r: real, n: int, b: real)
    requires b > 0.0
    ensures r < n as real * b <==> (r / b).Floor < n
  {
    QuotientTimes(r, b);
    var q := r / b;
    assert q * b == r;
    if q < n as real {
      assert q * b < n as real * b;
    } else {
      assert q * b >= n as real * b;
    }
  }

  /** getBoxFromCoord's arithmetic is exact: it yields the global cell relative to
      the rank's first cell, with everything at or above the upper bound put in
      the upper halo. */
  lemma AxisCellIsRelative(d: Domain, ax: Axis, pc: int, r: real)
    requires ValidAxis(d, ax)
    ensures AxisCell(d, ax, pc, r) ==
            var rel := GlobalCell(d, ax, r) - pc * d.gridSize.At(ax);
            if rel >= d.gridSize.At(ax) then d.gridSize.At(ax) else rel
  {
    CellInBrickIsRelative(r, pc, d.gridSize.At(ax), d.boxSize.At(ax), d.localExtent.At(ax));
  }

  lemma CellInBrickIsRelative(r: real, pc: int, g: int, b: real, extent: real)
    requires b > 0.0 && extent == g as real * b
    ensures CellInBrick(r, pc as real * extent, (pc + 1) as real * extent, b, g)
         == if CellCount(r, b) - pc * g >= g then g else CellCount(r, b) - pc * g
  {
    BrickEdge(pc, g, b, extent);
    BrickEdge(pc + 1, g, b, extent);
    SubDivide(r, pc * g, b);
    FloorMinus(r / b, pc * g);
    FloorBelow(r, (pc + 1) * g, b);
    assert (pc + 1) * g == pc * g + g;
  }

  /** A coordinate k periods further along a periodic axis. */
  function Shifted(r: real, k: int, extent: real): real {
    r + k as real * extent
  }

  /** Shifting a coordinate by whole periods shifts its cell by whole periods. */
  lemma ShiftCell(d: Domain, ax: Axis, r: real, k: int)
    requires ValidAxis(d, ax)
    ensures GlobalCell(d, ax, Shifted(r, k, d.globalExtent.At(ax))) == GlobalCell(d, ax, r) + k * CellsOn(d, ax)
  {
    Extents(d, ax);
    ShiftCount(r, k, CellsOn(d, ax), d.boxSize.At(ax), d.globalExtent.At(ax));
  }

  lemma ShiftCount(r: real, k: int, m: int, b: real, extent: real)
    requires b > 0.0 && extent == m as real * b
    ensures CellCount(Shifted(r, k, extent), b) == CellCount(r, b) + k * m
  {
    var n := -(k * m);
    BrickEdge(k, m, b, extent);
    assert n as real * b == -((k * m) as real * b);
    SubDivide(r, n, b);
    FloorMinus(r / b, n);
  }

  /** A coordinate lies inside the simulation exactly when its cell does. */
  lemma InsideCell(d: Domain, ax: Axis, r: real)
    requires ValidAxis(d, ax)
    ensures 0.0 <= r < d.globalExtent.At(ax) <==> 0 <= GlobalCell(d, ax, r) < CellsOn(d, ax)
  {
    Extents(d, ax);
    FloorBelow(r, 0, d.boxSize.At(ax));
    FloorBelow(r, CellsOn(d, ax), d.boxSize.At(ax));
  }

  lemma ScaledCompare(a: real, b: real, c: real)
    requires a <= b && c >= 0.0
    ensures a * c <= b * c
  {
  }

  lemma LargerFactor(g: real, a: real, b: real)
    requires g > 0.0 && g * a <= g * b
    ensures a <= b
  {
  }

  // ----- ownership of a position

  predicate InsideDomain(d: Domain, r: Triple<real>) {
    && 0.0 <= r.x < d.globalExtent.x && 0.0 <= r.y < d.globalExtent.y && 0.0 <= r.z < d.globalExtent.z
  }

  function TupleOfCoord(d: Domain, c: Triple<int>, r: Triple<real>): Triple<int>
    requires ValidDomain(d)
  {
    Triple(AxisCell(d, X, c.x, r.x), AxisCell(d, Y, c.y, r.y), AxisCell(d, Z, c.z, r.z))
  }

  /** The processor coordinate whose brick holds a position. */
  function OwnerCoord(d: Domain, r: Triple<real>): Triple<int>
    requires ValidDomain(d)
  {
    Triple(GlobalCell(d, X, r.x) / d.gridSize.x, GlobalCell(d, Y, r.y) / d.gridSize.y,
           GlobalCell(d, Z, r.z) / d.gridSize.z)
  }

  lemma AxisOwner(d: Domain, ax: Axis, pc: int, r: real)
    requires ValidAxis(d, ax)
    requires 0.0 <= r < d.globalExtent.At(ax)
    ensures 0 <= GlobalCell(d, ax, r) / d.gridSize.At(ax) < d.procGrid.At(ax)
    ensures 0 <= AxisCell(d, ax, pc, r) < d.gridSize.At(ax) <==> pc == GlobalCell(d, ax, r) / d.gridSize.At(ax)
  {
    AxisCellIsRelative(d, ax, pc, r);
    InsideCell(d, ax, r);
    OwnerOfCell(GlobalCell(d, ax, r), pc, d.procGrid.At(ax), d.gridSize.At(ax));
  }

  lemma OwnerOfCell(cell: int, pc: int, p: int, g: int)
    requires p >= 1 && g >= 1 && 0 <= cell < p * g
    ensures 0 <= cell / g < p
    ensures 0 <= cell - pc * g < g <==> pc == cell / g
  {
    RowMajorSplit(cell, p, g);
    if 0 <= cell - pc * g < g {
      DivModUnique(pc, cell - pc * g, g);
    }
  }

  /** Every position inside the simulation is classified into a local cell by its
      owner and by no other rank. */
  lemma ExactlyOneOwner(d: Domain, c: Triple<int>, r: Triple<real>)
    requires ValidDomain(d) && InsideDomain(d, r)
    ensures ValidCoord(d, OwnerCoord(d, r))
    ensures LocalTuple(d.gridSize, TupleOfCoord(d, c, r)) <==> c == OwnerCoord(d, r)
  {
    AxisOwner(d, X, c.x, r.x);
    AxisOwner(d, Y, c.y, r.y);
    AxisOwner(d, Z, c.z, r.z);
  }

  // ----- a small layout for examples

  /** Two ranks along each axis, each with two cells of width 1 along each axis. */
  const CUBE: Domain := Domain(Triple(2, 2, 2), Triple(4.0, 4.0, 4.0), Triple(2.0, 2.0, 2.0), Triple(2, 2, 2),
                               Triple(1.0, 1.0, 1.0))
}
