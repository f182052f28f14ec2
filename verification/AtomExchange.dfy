/** The exchange of atoms along one axis: what each rank loads for its two
    neighbours, what arrives, and where it is put. */
module AtomExchange {
  import opened Triples
  import opened LinkCellIndex
  import opened Decomposition
  import opened Atoms
  import opened CellLists
  import opened Placement
  import opened Periodic

  datatype Side = MinusSide | PlusSide

  // ----- the cells sent across a face, and the shift applied on the way

  function AtomListLo(g: Triple<int>, ax: Axis, side: Side): Triple<int> {
    var lo := Triple(-1, -1, -1);
    if side.PlusSide? then lo.With(ax, g.At(ax) - 1) else lo
  }

  function AtomListHi(g: Triple<int>, ax: Axis, side: Side): Triple<int> {
    var hi := Triple(g.x + 1, g.y + 1, g.z + 1);
    if side.MinusSide? then hi.With(ax, 1) else hi
  }

  /** The first two planes of cells at a face, halo plane included. */
  function AtomTuples(g: Triple<int>, ax: Axis, side: Side): seq<Triple<int>> {
    Block(AtomListLo(g, ax, side), AtomListHi(g, ax, side))
  }

  /** mkAtomCellList */
  method MkAtomCellList(g: Triple<int>, ax: Axis, side: Side) returns (list: seq<int>)
    requires ValidGrid(g)
    ensures list == Boxes(g, AtomTuples(g, ax, side))
  {
    var lo, hi := Triple(-1, -1, -1), Triple(g.x + 1, g.y + 1, g.z + 1);
    match side {
      case MinusSide => hi := hi.With(ax, lo.At(ax) + 2);
      case PlusSide => lo := lo.With(ax, hi.At(ax) - 2);
    }
    list := MakeCellList(g, lo, hi);
  }

  /** +1 on the low face of the simulation, -1 on the high face, else 0. */
  function PbcFactor(d: Domain, c: Triple<int>, ax: Axis, side: Side): int {
    match side
    case MinusSide => if c.At(ax) == 0 then 1 else 0
    case PlusSide => if c.At(ax) == d.procGrid.At(ax) - 1 then -1 else 0
  }

  function PbcShift(d: Domain, c: Triple<int>, ax: Axis, side: Side): Triple<real> {
    Triple(0.0, 0.0, 0.0).With(ax, PbcFactor(d, c, ax, side) as real * d.globalExtent.At(ax))
  }

  function ShiftAtom(a: Atom, shift: Triple<real>): Atom {
    a.(r := Triple(a.r.x + shift.x, a.r.y + shift.y, a.r.z + shift.z))
  }

  function UnshiftAtom(a: Atom, shift: Triple<real>): Atom {
    a.(r := Triple(a.r.x - shift.x, a.r.y - shift.y, a.r.z - shift.z))
  }

  function ShiftAll(s: seq<Atom>, shift: Triple<real>): (u: seq<Atom>)
    ensures |u| == |s| && forall k :: 0 <= k < |s| ==> u[k] == ShiftAtom(s[k], shift)
  {
    seq(|s|, k requires 0 <= k < |s| => ShiftAtom(s[k], shift))
  }

  // ----- load and unload

  predicate BoxesInRange(cells: Cells, boxes: seq<int>) {
    forall k :: 0 <= k < |boxes| ==> 0 <= boxes[k] < |cells|
  }

  /** The message: all atoms of the listed cells, shifted. */
  function Load(cells: Cells, boxes: seq<int>, shift: Triple<real>): seq<Atom>
    requires BoxesInRange(cells, boxes)
  {
    if boxes == [] then [] else ShiftAll(cells[boxes[0]], shift) + Load(cells, boxes[1..], shift)
  }

  predicate Deliverable(d: Domain, c: Triple<int>, cells: Cells, buf: seq<Atom>)
    requires ValidDomain(d)
  {
    forall i :: 0 <= i < |buf| ==> Reachable(d, c, buf[i]) && 0 <= BoxOf(d, c, buf[i]) < |cells|
  }

  /** putAtomInBox for every atom of a message, in order. */
  function PutAll(d: Domain, c: Triple<int>, cells: Cells, buf: seq<Atom>): (after: Cells)
    requires ValidDomain(d) && Deliverable(d, c, cells, buf)
    ensures |after| == |cells|
    decreases |buf|
  {
    if buf == [] then cells
    else
      var n := |buf| - 1;
      var before := PutAll(d, c, cells, buf[..n]);
      var box := BoxOf(d, c, buf[n]);
      before[box := before[box] + [buf[n]]]
  }

  /** The atoms of a message that belong in cell j. */
  function Arrivals(d: Domain, c: Triple<int>, buf: seq<Atom>, j: int): seq<Atom>
    requires ValidDomain(d)
  {
    if buf == [] then []
    else
      var n := |buf| - 1;
      Arrivals(d, c, buf[..n], j) + (if BoxOf(d, c, buf[n]) == j then [buf[n]] else [])
  }

  /** Unloading appends to every cell the atoms of the message that belong there. */
  lemma PutAllCells(d: Domain, c: Triple<int>, cells: Cells, buf: seq<Atom>, j: int)
    requires ValidDomain(d) && Deliverable(d, c, cells, buf) && 0 <= j < |cells|
    ensures PutAll(d, c, cells, buf)[j] == cells[j] + Arrivals(d, c, buf, j)
    decreases |buf|
  {
    hide BoxOf, Reachable;
    if buf != [] {
      PutAllCells(d, c, cells, buf[..|buf| - 1], j);
    }
  }

  lemma ArrivalsMember(d: Domain, c: Triple<int>, buf: seq<Atom>, j: int, b: Atom)
    requires ValidDomain(d)
    ensures b in Arrivals(d, c, buf, j) <==> b in buf && BoxOf(d, c, b) == j
  {
    hide BoxOf;
    if buf != [] {
      var n := |buf| - 1;
      assert buf == buf[..n] + [buf[n]];
      ArrivalsMember(d, c, buf[..n], j, b);
    }
  }

  lemma LoadMember(cells: Cells, boxes: seq<int>, shift: Triple<real>, b: Atom)
    requires BoxesInRange(cells, boxes)
    ensures b in Load(cells, boxes, shift) <==>
            exists k :: 0 <= k < |boxes| && UnshiftAtom(b, shift) in cells[boxes[k]]
  {
    if boxes != [] {
      var u := UnshiftAtom(b, shift);
      var rest := boxes[1..];
      LoadMember(cells, rest, shift, b);
      ShiftMember(cells[boxes[0]], shift, b);
      if u in cells[boxes[0]] {
        assert 0 <= 0 < |boxes| && u in cells[boxes[0]];
      }
      if k :| 0 <= k < |rest| && u in cells[rest[k]] {
        assert u in cells[boxes[k + 1]];
      }
      if k :| 0 <= k < |boxes| && u in cells[boxes[k]] {
        if k > 0 {
          assert u in cells[rest[k - 1]];
        }
      }
    }
  }

  lemma ShiftMember(s: seq<Atom>, shift: Triple<real>, b: Atom)
    ensures b in ShiftAll(s, shift) <==> UnshiftAtom(b, shift) in s
  {
    var u := UnshiftAtom(b, shift);
    if b in ShiftAll(s, shift) {
      var k :| 0 <= k < |s| && ShiftAll(s, shift)[k] == b;
      assert s[k] == u;
    }
    if u in s {
      var k :| 0 <= k < |s| && s[k] == u;
      assert ShiftAll(s, shift)[k] == b;
    }
  }

  // ----- no atom arrives twice in one cell

  /** Atoms with the same id are bound for different cells. */
  ghost predicate SpreadOut(d: Domain, c: Triple<int>, buf: seq<Atom>)
    requires ValidDomain(d)
  {
    forall i, k :: 0 <= i < k < |buf| && buf[i].gid == buf[k].gid ==> BoxOf(d, c, buf[i]) != BoxOf(d, c, buf[k])
  }

  lemma ArrivalsDistinct(d: Domain, c: Triple<int>, buf: seq<Atom>, j: int)
    requires ValidDomain(d) && SpreadOut(d, c, buf)
    ensures DistinctGids(Arrivals(d, c, buf, j))
  {
    hide BoxOf;
    if buf != [] {
      var n := |buf| - 1;
      ArrivalsDistinct(d, c, buf[..n], j);
      var before := Arrivals(d, c, buf[..n], j);
      forall i | 0 <= i < |before| && BoxOf(d, c, buf[n]) == j
        ensures before[i].gid != buf[n].gid
      {
        ArrivalsMember(d, c, buf[..n], j, before[i]);
        var m :| 0 <= m < n && buf[..n][m] == before[i];
        assert buf[m] == before[i];
      }
    }
  }

  /** Every cell of the list is delivered whole to one cell, different cells to
      different cells. */
  ghost predicate CellByCell(d: Domain, c: Triple<int>, cells: Cells, boxes: seq<int>, shift: Triple<real>,
                             dest: seq<int>)
    requires ValidDomain(d) && BoxesInRange(cells, boxes)
  {
    && |dest| == |boxes|
    && (forall k, i :: 0 <= k < |boxes| && 0 <= i < |cells[boxes[k]]| ==>
          BoxOf(d, c, ShiftAtom(cells[boxes[k]][i], shift)) == dest[k])
    && (forall k, m :: 0 <= k < m < |boxes| ==> dest[k] != dest[m])
    && (forall k :: 0 <= k < |boxes| ==> DistinctGids(cells[boxes[k]]))
  }

  lemma LoadSpreadOut(d: Domain, c: Triple<int>, cells: Cells, boxes: seq<int>, shift: Triple<real>, dest: seq<int>)
    requires ValidDomain(d) && BoxesInRange(cells, boxes) && CellByCell(d, c, cells, boxes, shift, dest)
    ensures SpreadOut(d, c, Load(cells, boxes, shift))
    ensures forall b :: b in Load(cells, boxes, shift) ==> BoxOf(d, c, b) in dest
  {
    hide BoxOf;
    if boxes != [] {
      var first, rest := ShiftAll(cells[boxes[0]], shift), Load(cells, boxes[1..], shift);
      assert CellByCell(d, c, cells, boxes[1..], shift, dest[1..]);
      LoadSpreadOut(d, c, cells, boxes[1..], shift, dest[1..]);
      assert forall b :: b in first ==> BoxOf(d, c, b) == dest[0];
      assert dest[0] !in dest[1..];
      assert DistinctGids(first);
      forall i, k | 0 <= i < k < |first + rest| && (first + rest)[i].gid == (first + rest)[k].gid
        ensures BoxOf(d, c, (first + rest)[i]) != BoxOf(d, c, (first + rest)[k])
      {
        if k < |first| {
        } else if i < |first| {
          assert (first + rest)[k] in rest && (first + rest)[i] in first;
        } else {
          assert rest[i - |first|].gid == rest[k - |first|].gid;
        }
      }
    }
  }

  // ----- one axis of the exchange, on all ranks

  function Step(side: Side): int {
    if side.MinusSide? then -1 else 1
  }

  function Opposite(side: Side): Side {
    if side.MinusSide? then PlusSide else MinusSide
  }

  lemma AtomTuplesFacts(g: Triple<int>, ax: Axis, side: Side)
    requires g.x >= 2 && g.y >= 2 && g.z >= 2
    ensures forall t :: t in AtomTuples(g, ax, side) <==>
              ValidTuple(g, t) && (if side.MinusSide? then t.At(ax) <= 0 else t.At(ax) >= g.At(ax) - 1)
    ensures Distinct(AtomTuples(g, ax, side))
  {
    BlockFacts(AtomListLo(g, ax, side), AtomListHi(g, ax, side));
  }

  lemma AtomBoxesInRange(d: Domain, ax: Axis, side: Side)
    requires ValidDomain(d)
    ensures forall k :: 0 <= k < |AtomTuples(d.gridSize, ax, side)| ==>
              && ValidTuple(d.gridSize, AtomTuples(d.gridSize, ax, side)[k])
              && 0 <= Boxes(d.gridSize, AtomTuples(d.gridSize, ax, side))[k] < NTotalBoxes(d.gridSize)
  {
    var g := d.gridSize;
    var tuples := AtomTuples(g, ax, side);
    hide GetBoxFromTuple, NTotalBoxes, NLocalBoxes, GetTuple, AtomTuples;
    AtomTuplesFacts(g, ax, side);
    forall k | 0 <= k < |tuples|
      ensures ValidTuple(g, tuples[k]) && 0 <= Boxes(g, tuples)[k] < NTotalBoxes(g)
    {
      assert tuples[k] in tuples;
      TupleRoundTrip(g, tuples[k]);
    }
  }

  /** What the rank at rho sends across one of its faces. */
  function Outgoing(d: Domain, st: State, rho: Triple<int>, ax: Axis, side: Side): seq<Atom>
    requires ValidDomain(d) && ValidState(d, st) && ValidCoord(d, rho)
  {
    RankRoundTrip(d, rho);
    AtomBoxesInRange(d, ax, side);
    Load(st[RankOf(d, rho)], Boxes(d.gridSize, AtomTuples(d.gridSize, ax, side)), PbcShift(d, rho, ax, side))
  }

  /** What the rank at rho receives through one of its faces: the neighbour there
      sent it across its own opposite face. */
  function Incoming(d: Domain, st: State, rho: Triple<int>, ax: Axis, side: Side): seq<Atom>
    requires ValidDomain(d) && ValidState(d, st) && ValidCoord(d, rho)
  {
    ProcessorNumNeighbors(d, rho, ax, Step(side));
    Outgoing(d, st, NeighborCoord(d, rho, ax, Step(side)), ax, Opposite(side))
  }

  /** Every received atom has a cell on its receiver. */
  ghost predicate CanDeliver(d: Domain, st: State, ax: Axis)
    requires ValidDomain(d) && ValidState(d, st)
  {
    forall rho: Triple<int>, side: Side {:trigger Incoming(d, st, rho, ax, side)} :: ValidCoord(d, rho) ==>
      Deliverable(d, rho, st[RankCheck(d, st, rho)], Incoming(d, st, rho, ax, side))
  }

  function RankCheck(d: Domain, st: State, rho: Triple<int>): (k: nat)
    requires ValidDomain(d) && ValidState(d, st) && ValidCoord(d, rho)
    ensures k < |st| && k == RankOf(d, rho)
  {
    RankRoundTrip(d, rho);
    RankOf(d, rho)
  }

  /** One rank's part of exchangeData: the minus message is unloaded first. */
  function RankAfter(d: Domain, st: State, rho: Triple<int>, ax: Axis): Cells
    requires ValidDomain(d) && ValidState(d, st) && ValidCoord(d, rho) && CanDeliver(d, st, ax)
  {
    var cells := st[RankCheck(d, st, rho)];
    PutAll(d, rho, PutAll(d, rho, cells, Incoming(d, st, rho, ax, MinusSide)), Incoming(d, st, rho, ax, PlusSide))
  }

  /** exchangeData on every rank: all messages are loaded before any is unloaded. */
  function ExchangeAxis(d: Domain, st: State, ax: Axis): State
    requires ValidDomain(d) && ValidState(d, st) && CanDeliver(d, st, ax)
  {
    seq(NRanks(d), k requires 0 <= k < NRanks(d) =>
      CoordRoundTrip(d, k);
      RankAfter(d, st, ProcCoord(d, k), ax))
  }

  // ----- what the receiver expects is what it has plus what its neighbours hold

  /** The sender's processor coordinate, step and shift factor fit together. */
  lemma SenderOffset(d: Domain, rho: Triple<int>, ax: Axis, side: Side)
    requires ValidDomain(d) && ValidCoord(d, rho)
    ensures var nb := NeighborCoord(d, rho, ax, Step(side));
            ValidCoord(d, nb) &&
            rho.At(ax) == nb.At(ax) - Step(side) + PbcFactor(d, nb, ax, Opposite(side)) * d.procGrid.At(ax)
  {
    ProcessorNumIsNeighbor(d, rho, ax, Step(side));
    ModStep(rho.At(ax), Step(side), d.procGrid.At(ax));
  }

  function SenderShift(d: Domain, rho: Triple<int>, ax: Axis, side: Side): Triple<real>
    requires ValidDomain(d)
  {
    PbcShift(d, NeighborCoord(d, rho, ax, Step(side)), ax, Opposite(side))
  }

  /** The cell an atom of the sender's cell t arrives in. */
  function ArrivalTuple(d: Domain, ax: Axis, side: Side, t: Triple<int>): Triple<int> {
    t.With(ax, t.At(ax) + Step(side) * d.gridSize.At(ax))
  }

  lemma ArrivalValid(d: Domain, ax: Axis, side: Side, t: Triple<int>)
    requires ValidDomain(d) && t in AtomTuples(d.gridSize, ax, Opposite(side))
    ensures ValidTuple(d.gridSize, t) && ValidTuple(d.gridSize, ArrivalTuple(d, ax, side, t))
  {
    hide AtomTuples;
    AtomTuplesFacts(d.gridSize, ax, Opposite(side));
  }

  lemma ArrivalCell(rho: int, nb: int, step: int, f: int, p: int, g: int, t: int)
    requires rho == nb - step + f * p
    ensures nb * g + t + f * (p * g) == rho * g + (t + step * g)
  {
    SumOfBricks(rho, nb - step, f, p, g);
    assert (nb - step) * g == nb * g - step * g;
  }

  lemma ArrivesOnAxis(d: Domain, rho: Triple<int>, ax: Axis, side: Side, t: Triple<int>, a: Atom)
    requires ValidDomain(d) && ValidCoord(d, rho)
    requires var nb := NeighborCoord(d, rho, ax, Step(side));
             GlobalCell(d, ax, a.r.At(ax)) == nb.At(ax) * d.gridSize.At(ax) + t.At(ax)
    ensures GlobalCell(d, ax, ShiftAtom(a, SenderShift(d, rho, ax, side)).r.At(ax))
         == rho.At(ax) * d.gridSize.At(ax) + ArrivalTuple(d, ax, side, t).At(ax)
  {
    hide GlobalCell;
    var nb := NeighborCoord(d, rho, ax, Step(side));
    SenderOffset(d, rho, ax, side);
    var f := PbcFactor(d, nb, ax, Opposite(side));
    ArrivalCell(rho.At(ax), nb.At(ax), Step(side), f, d.procGrid.At(ax), d.gridSize.At(ax), t.At(ax));
    ShiftCell(d, ax, a.r.At(ax), f);
    assert ShiftAtom(a, SenderShift(d, rho, ax, side)).r.At(ax) == Shifted(a.r.At(ax), f, d.globalExtent.At(ax));
  }

  /** An atom the sender holds in its cell t arrives in the matching cell. */
  lemma ArrivesAt(d: Domain, pop: Population, ex: Triple<bool>, rho: Triple<int>, ax: Axis, side: Side,
                  t: Triple<int>, a: Atom)
    requires ValidDomain(d) && ValidCoord(d, rho)
    requires t in AtomTuples(d.gridSize, ax, Opposite(side))
    requires Expected(d, pop, ex, NeighborCoord(d, rho, ax, Step(side)), t, a)
    ensures ValidTuple(d.gridSize, ArrivalTuple(d, ax, side, t))
    ensures TupleOfCoord(d, rho, ShiftAtom(a, SenderShift(d, rho, ax, side)).r) == ArrivalTuple(d, ax, side, t)
  {
    hide GlobalCell, AtomTuples, Expected, TupleOfCoord, PbcFactor;
    var nb := NeighborCoord(d, rho, ax, Step(side));
    var b := ShiftAtom(a, SenderShift(d, rho, ax, side));
    var u := ArrivalTuple(d, ax, side, t);
    ArrivalValid(d, ax, side, t);
    forall bx: Axis
      ensures GlobalCell(d, bx, b.r.At(bx)) == rho.At(bx) * d.gridSize.At(bx) + u.At(bx)
    {
      ExpectedCell(d, pop, ex, nb, t, a, bx);
      if bx == ax {
        ArrivesOnAxis(d, rho, ax, side, t, a);
      } else {
        assert b.r.At(bx) == a.r.At(bx) && nb.At(bx) == rho.At(bx) && u.At(bx) == t.At(bx);
      }
    }
    TupleFromCells(d, rho, u, b.r);
  }

  predicate Borders(d: Domain, ax: Axis, side: Side, t: Triple<int>) {
    if side.MinusSide? then t.At(ax) <= 0 else t.At(ax) >= d.gridSize.At(ax) - 1
  }

  /** The sender's cell whose atoms arrive in cell t. */
  function SourceTuple(d: Domain, ax: Axis, side: Side, t: Triple<int>): Triple<int> {
    t.With(ax, t.At(ax) - Step(side) * d.gridSize.At(ax))
  }

  /** The neighbour on the given side holds what arrives in cell t as b. */
  predicate FromSide(d: Domain, pop: Population, ex: Triple<bool>, rho: Triple<int>, t: Triple<int>, ax: Axis,
                     side: Side, b: Atom)
    requires ValidDomain(d)
  {
    && Borders(d, ax, side, t)
    && Expected(d, pop, ex, NeighborCoord(d, rho, ax, Step(side)), SourceTuple(d, ax, side, t),
                UnshiftAtom(b, SenderShift(d, rho, ax, side)))
  }

  predicate OnAxisFrom(d: Domain, ax: Axis, side: Side, s: Owned, rho: Triple<int>, t: Triple<int>, b: Atom)
    requires ValidDomain(d)
  {
    && Borders(d, ax, side, t)
    && OnAxis(d, false, ax, s, NeighborCoord(d, rho, ax, Step(side)), SourceTuple(d, ax, side, t),
              UnshiftAtom(b, SenderShift(d, rho, ax, side)))
  }

  lemma UnshiftedCoord(d: Domain, rho: Triple<int>, ax: Axis, side: Side, b: Atom, r: real, k: int)
    requires ValidDomain(d)
    requires k == PbcFactor(d, NeighborCoord(d, rho, ax, Step(side)), ax, Opposite(side))
    ensures b.r.At(ax) == Shifted(r, k, d.globalExtent.At(ax))
       <==> UnshiftAtom(b, SenderShift(d, rho, ax, side)).r.At(ax) == r
  {
    hide PbcFactor;
    var shift := SenderShift(d, rho, ax, side);
    assert shift.At(ax) == k as real * d.globalExtent.At(ax);
    assert UnshiftAtom(b, shift).r.At(ax) == b.r.At(ax) - shift.At(ax);
  }

  lemma OnAxisSplits(d: Domain, ax: Axis, s: Owned, rho: Triple<int>, t: Triple<int>, b: Atom)
    requires ValidDomain(d) && ValidCoord(d, rho) && ValidTuple(d.gridSize, t)
    requires ValidCoord(d, s.owner) && NearOn(d, ax, s.owner.At(ax), s.atom.r.At(ax))
    ensures OnAxis(d, true, ax, s, rho, t, b) <==>
              || OnAxis(d, false, ax, s, rho, t, b)
              || OnAxisFrom(d, ax, MinusSide, s, rho, t, b)
              || OnAxisFrom(d, ax, PlusSide, s, rho, t, b)
    ensures OwnCell(s.owner.At(ax), GlobalCell(d, ax, s.atom.r.At(ax)), rho.At(ax), t.At(ax), d.gridSize.At(ax)) ==>
              !OnAxisFrom(d, ax, MinusSide, s, rho, t, b) && !OnAxisFrom(d, ax, PlusSide, s, rho, t, b)
  {
    hide GlobalCell, ImageCell, Periods, Minus, Plus;
    var p, g := d.procGrid.At(ax), d.gridSize.At(ax);
    var o, r := s.owner.At(ax), s.atom.r.At(ax);
    var cell := GlobalCell(d, ax, r);
    OneAxisCovers(o, cell, rho.At(ax), t.At(ax), p, g);
    NeighborIsMinusPlus(d, rho, ax);
    var k := Periods(cell, rho.At(ax), t.At(ax), p, g);
    if OwnCell(o, cell, rho.At(ax), t.At(ax), g) {
      assert Shifted(r, 0, d.globalExtent.At(ax)) == r;
    }
    if Borders(d, ax, MinusSide, t) && OwnCell(o, cell, Minus(rho.At(ax), p), t.At(ax) + g, g) {
      UnshiftedCoord(d, rho, ax, MinusSide, b, r, k);
    }
    if Borders(d, ax, PlusSide, t) && OwnCell(o, cell, Plus(rho.At(ax), p), t.At(ax) - g, g) {
      UnshiftedCoord(d, rho, ax, PlusSide, b, r, k);
    }
  }

  lemma NeighborIsMinusPlus(d: Domain, rho: Triple<int>, ax: Axis)
    requires ValidDomain(d)
    ensures NeighborCoord(d, rho, ax, Step(MinusSide)).At(ax) == Minus(rho.At(ax), d.procGrid.At(ax))
    ensures NeighborCoord(d, rho, ax, Step(PlusSide)).At(ax) == Plus(rho.At(ax), d.procGrid.At(ax))
  {
  }

  lemma OffAxis(d: Domain, e: bool, ax: Axis, bx: Axis, side: Side, s: Owned, rho: Triple<int>, t: Triple<int>, b: Atom)
    requires ValidDomain(d) && bx != ax
    ensures OnAxis(d, e, bx, s, NeighborCoord(d, rho, ax, Step(side)), SourceTuple(d, ax, side, t),
                   UnshiftAtom(b, SenderShift(d, rho, ax, side)))
       <==> OnAxis(d, e, bx, s, rho, t, b)
  {
    hide GlobalCell, ImageCell, Periods, PbcFactor;
    assert UnshiftAtom(b, SenderShift(d, rho, ax, side)).r.At(bx) == b.r.At(bx);
    assert NeighborCoord(d, rho, ax, Step(side)).At(bx) == rho.At(bx);
    assert SourceTuple(d, ax, side, t).At(bx) == t.At(bx);
  }

  predicate Others(d: Domain, ex: Triple<bool>, ax: Axis, s: Owned, rho: Triple<int>, t: Triple<int>, b: Atom)
    requires ValidDomain(d)
  {
    && (ax != X ==> OnAxis(d, ex.x, X, s, rho, t, b))
    && (ax != Y ==> OnAxis(d, ex.y, Y, s, rho, t, b))
    && (ax != Z ==> OnAxis(d, ex.z, Z, s, rho, t, b))
  }

  lemma ExpectedByAxis(d: Domain, pop: Population, ex: Triple<bool>, ax: Axis, rho: Triple<int>, t: Triple<int>,
                       b: Atom)
    requires ValidDomain(d)
    ensures Expected(d, pop, ex, rho, t, b) <==>
              && b.gid in pop && b.species == pop[b.gid].atom.species && b.p == pop[b.gid].atom.p
              && OnAxis(d, ex.At(ax), ax, pop[b.gid], rho, t, b)
              && Others(d, ex, ax, pop[b.gid], rho, t, b)
  {
    hide OnAxis;
  }

  lemma FromSideByAxis(d: Domain, pop: Population, ex: Triple<bool>, ax: Axis, side: Side, rho: Triple<int>,
                       t: Triple<int>, b: Atom)
    requires ValidDomain(d) && !ex.At(ax)
    ensures FromSide(d, pop, ex, rho, t, ax, side, b) <==>
              && b.gid in pop && b.species == pop[b.gid].atom.species && b.p == pop[b.gid].atom.p
              && OnAxisFrom(d, ax, side, pop[b.gid], rho, t, b)
              && Others(d, ex, ax, pop[b.gid], rho, t, b)
  {
    hide OnAxis, NeighborCoord, SourceTuple, SenderShift;
    var nb, u := NeighborCoord(d, rho, ax, Step(side)), UnshiftAtom(b, SenderShift(d, rho, ax, side));
    ExpectedByAxis(d, pop, ex, ax, nb, SourceTuple(d, ax, side, t), u);
    if b.gid in pop {
      var s := pop[b.gid];
      if ax != X { OffAxis(d, ex.x, ax, X, side, s, rho, t, b); }
      if ax != Y { OffAxis(d, ex.y, ax, Y, side, s, rho, t, b); }
      if ax != Z { OffAxis(d, ex.z, ax, Z, side, s, rho, t, b); }
    }
  }

  /** After the exchange along an axis a cell must hold what it held before, what
      the minus neighbour had one brick above and what the plus neighbour had one
      brick below. */
  lemma ExpectedSplits(d: Domain, pop: Population, ex: Triple<bool>, ax: Axis, rho: Triple<int>, t: Triple<int>,
                       b: Atom)
    requires ValidDomain(d) && ValidPopulation(d, pop) && ValidCoord(d, rho) && ValidTuple(d.gridSize, t) && !ex.At(ax)
    ensures Expected(d, pop, ex.With(ax, true), rho, t, b) <==>
              || Expected(d, pop, ex, rho, t, b)
              || FromSide(d, pop, ex, rho, t, ax, MinusSide, b)
              || FromSide(d, pop, ex, rho, t, ax, PlusSide, b)
  {
    hide OnAxis, OnAxisFrom, FromSide, Expected, NearOn;
    var ex' := ex.With(ax, true);
    ExpectedByAxis(d, pop, ex', ax, rho, t, b);
    ExpectedByAxis(d, pop, ex, ax, rho, t, b);
    FromSideByAxis(d, pop, ex, ax, MinusSide, rho, t, b);
    FromSideByAxis(d, pop, ex, ax, PlusSide, rho, t, b);
    if b.gid in pop {
      OnAxisSplits(d, ax, pop[b.gid], rho, t, b);
    }
  }

  /** The three sources never supply the same atom. */
  lemma SourcesDisjoint(d: Domain, pop: Population, ex: Triple<bool>, ax: Axis, rho: Triple<int>, t: Triple<int>,
                        a: Atom, b: Atom)
    requires ValidDomain(d) && ValidPopulation(d, pop) && ValidCoord(d, rho) && ValidTuple(d.gridSize, t) && !ex.At(ax)
    requires a.gid == b.gid
    ensures Expected(d, pop, ex, rho, t, a) ==>
              !FromSide(d, pop, ex, rho, t, ax, MinusSide, b) && !FromSide(d, pop, ex, rho, t, ax, PlusSide, b)
    ensures FromSide(d, pop, ex, rho, t, ax, MinusSide, a) ==> !FromSide(d, pop, ex, rho, t, ax, PlusSide, b)
  {
    hide OnAxisFrom, FromSide, Expected, NearOn, GlobalCell;
    ExpectedByAxis(d, pop, ex, ax, rho, t, a);
    FromSideByAxis(d, pop, ex, ax, MinusSide, rho, t, a);
    FromSideByAxis(d, pop, ex, ax, MinusSide, rho, t, b);
    FromSideByAxis(d, pop, ex, ax, PlusSide, rho, t, b);
    if b.gid in pop {
      var s := pop[b.gid];
      OnAxisSplits(d, ax, s, rho, t, b);
      NotBothBorders(d, ax, s, rho, t, a, b);
    }
  }

  lemma NotBothBorders(d: Domain, ax: Axis, s: Owned, rho: Triple<int>, t: Triple<int>, a: Atom, b: Atom)
    requires ValidDomain(d)
    ensures !(OnAxisFrom(d, ax, MinusSide, s, rho, t, a) && OnAxisFrom(d, ax, PlusSide, s, rho, t, b))
  {
  }
}
