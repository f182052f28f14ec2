/** Correctness of the atom exchange: one axis at a time, it replaces ownership by
    periodic images, and after three axes every cell of every rank holds exactly
    one copy of exactly the atoms with an image in it. */
module AtomProtocol {
  import opened Triples
  import opened LinkCellIndex
  import opened Decomposition
  import opened Atoms
  import opened CellLists
  import opened Placement
  import opened AtomExchange

  lemma ShiftUnshift(b: Atom, shift: Triple<real>)
    ensures ShiftAtom(UnshiftAtom(b, shift), shift) == b
    ensures UnshiftAtom(ShiftAtom(b, shift), shift) == b
  {
  }

  lemma SourceArrival(d: Domain, ax: Axis, side: Side, t: Triple<int>)
    requires ValidDomain(d) && ValidTuple(d.gridSize, t)
    ensures ArrivalTuple(d, ax, side, SourceTuple(d, ax, side, t)) == t
    ensures Borders(d, ax, side, t) <==> SourceTuple(d, ax, side, t) in AtomTuples(d.gridSize, ax, Opposite(side))
  {
    hide AtomTuples;
    AtomTuplesFacts(d.gridSize, ax, Opposite(side));
  }

  lemma ArrivalSource(d: Domain, ax: Axis, side: Side, t: Triple<int>)
    requires ValidDomain(d)
    ensures SourceTuple(d, ax, side, ArrivalTuple(d, ax, side, t)) == t
  {
  }

  /** Every received atom comes from one cell of the sender and lands in the
      matching cell. */
  lemma IncomingOrigin(d: Domain, pop: Population, ex: Triple<bool>, st: State, rho: Triple<int>, ax: Axis,
                       side: Side, b: Atom)
      returns (t: Triple<int>)
    requires ValidDomain(d) && ValidState(d, st) && Placed(d, pop, ex, st) && ValidCoord(d, rho)
    requires b in Incoming(d, st, rho, ax, side)
    ensures ValidTuple(d.gridSize, t) && FromSide(d, pop, ex, rho, t, ax, side, b)
    ensures TupleOfCoord(d, rho, b.r) == t
  {
    var nb := NeighborCoord(d, rho, ax, Step(side));
    var tuples := AtomTuples(d.gridSize, ax, Opposite(side));
    var boxes := Boxes(d.gridSize, tuples);
    var shift := SenderShift(d, rho, ax, side);
    var u := UnshiftAtom(b, shift);
    ProcessorNumNeighbors(d, rho, ax, Step(side));
    RankRoundTrip(d, nb);
    AtomBoxesInRange(d, ax, Opposite(side));
    LoadMember(st[RankOf(d, nb)], boxes, shift, b);
    hide GlobalCell, AtomTuples, TupleOfCoord, Expected, RankOf, ProcCoord, NRanks, NTotalBoxes, GetBoxFromTuple,
         PbcShift;
    var k :| 0 <= k < |boxes| && u in st[RankOf(d, nb)][boxes[k]];
    assert u in CellAt(d, st, nb, tuples[k]);
    assert Expected(d, pop, ex, nb, tuples[k], u);
    ArrivesAt(d, pop, ex, rho, ax, side, tuples[k], u);
    ShiftUnshift(b, shift);
    t := ArrivalTuple(d, ax, side, tuples[k]);
    ArrivalSource(d, ax, side, tuples[k]);
    SourceArrival(d, ax, side, t);
  }

  lemma IncomingDeliverable(d: Domain, pop: Population, ex: Triple<bool>, st: State, rho: Triple<int>, ax: Axis,
                            side: Side)
    requires ValidDomain(d) && ValidState(d, st) && Placed(d, pop, ex, st) && ValidCoord(d, rho)
    ensures Deliverable(d, rho, st[RankCheck(d, st, rho)], Incoming(d, st, rho, ax, side))
  {
    hide GlobalCell, AtomTuples, TupleOfCoord, Expected, NTotalBoxes, GetBoxFromTuple, FromSide, Incoming, RankOf,
         Placed;
    var buf := Incoming(d, st, rho, ax, side);
    GridIsValid(d);
    forall i | 0 <= i < |buf|
      ensures Reachable(d, rho, buf[i]) && 0 <= BoxOf(d, rho, buf[i]) < NTotalBoxes(d.gridSize)
    {
      var t := IncomingOrigin(d, pop, ex, st, rho, ax, side, buf[i]);
      BoxOfInRange(d, rho, buf[i]);
    }
  }

  /** What a neighbour's message adds to a cell. */
  lemma IncomingArrivals(d: Domain, pop: Population, ex: Triple<bool>, st: State, rho: Triple<int>, ax: Axis,
                         side: Side, t: Triple<int>, b: Atom)
    requires ValidDomain(d) && ValidState(d, st) && Placed(d, pop, ex, st) && ValidCoord(d, rho)
    requires ValidTuple(d.gridSize, t)
    ensures b in Arrivals(d, rho, Incoming(d, st, rho, ax, side), GetBoxFromTuple(d.gridSize, t))
       <==> FromSide(d, pop, ex, rho, t, ax, side, b)
  {
    var g := d.gridSize;
    var buf := Incoming(d, st, rho, ax, side);
    GridIsValid(d);
    ArrivalsMember(d, rho, buf, GetBoxFromTuple(g, t), b);
    if b in Arrivals(d, rho, buf, GetBoxFromTuple(g, t)) {
      hide *;
      var u := IncomingOrigin(d, pop, ex, st, rho, ax, side, b);
      BoxIsTuple(d, rho, b);
      BoxTupleInjective(g, t, u);
    }
    if FromSide(d, pop, ex, rho, t, ax, side, b) {
      FromSideArrives(d, pop, ex, st, rho, ax, side, t, b);
    }
  }

  lemma BoxIsTuple(d: Domain, rho: Triple<int>, b: Atom)
    requires ValidDomain(d)
    ensures BoxOf(d, rho, b) == GetBoxFromTuple(d.gridSize, TupleOfCoord(d, rho, b.r))
  {
    hide GetBoxFromTuple, TupleOfCoord;
  }

  lemma FromSideArrives(d: Domain, pop: Population, ex: Triple<bool>, st: State, rho: Triple<int>, ax: Axis,
                        side: Side, t: Triple<int>, b: Atom)
    requires ValidDomain(d) && ValidState(d, st) && Placed(d, pop, ex, st) && ValidCoord(d, rho)
    requires ValidTuple(d.gridSize, t)
    requires FromSide(d, pop, ex, rho, t, ax, side, b)
    ensures b in Incoming(d, st, rho, ax, side)
    ensures BoxOf(d, rho, b) == GetBoxFromTuple(d.gridSize, t)
  {
    var nb := NeighborCoord(d, rho, ax, Step(side));
    var tuples := AtomTuples(d.gridSize, ax, Opposite(side));
    var boxes := Boxes(d.gridSize, tuples);
    var shift := SenderShift(d, rho, ax, side);
    var u := UnshiftAtom(b, shift);
    var src := SourceTuple(d, ax, side, t);
    ProcessorNumNeighbors(d, rho, ax, Step(side));
    RankRoundTrip(d, nb);
    AtomBoxesInRange(d, ax, Opposite(side));
    SourceArrival(d, ax, side, t);
    ShiftUnshift(b, shift);
    LoadMember(st[RankOf(d, nb)], boxes, shift, b);
    hide GlobalCell, AtomTuples, TupleOfCoord, Expected, RankOf, ProcCoord, NRanks, NTotalBoxes, GetBoxFromTuple,
         PbcShift;
    var k :| 0 <= k < |tuples| && tuples[k] == src;
    assert u in CellAt(d, st, nb, src);
    assert u in st[RankOf(d, nb)][boxes[k]];
    ArrivesAt(d, pop, ex, rho, ax, side, src, u);
    BoxIsTuple(d, rho, b);
  }

  /** The cells the tuples of a message are delivered to. */
  function Destinations(d: Domain, ax: Axis, side: Side): (dest: seq<Triple<int>>)
    ensures |dest| == |AtomTuples(d.gridSize, ax, Opposite(side))|
    ensures forall k :: 0 <= k < |dest| ==>
              dest[k] == ArrivalTuple(d, ax, side, AtomTuples(d.gridSize, ax, Opposite(side))[k])
  {
    var tuples := AtomTuples(d.gridSize, ax, Opposite(side));
    seq(|tuples|, k requires 0 <= k < |tuples| => ArrivalTuple(d, ax, side, tuples[k]))
  }

  lemma DestinationsDistinct(d: Domain, ax: Axis, side: Side)
    requires ValidDomain(d)
    ensures forall k :: 0 <= k < |Destinations(d, ax, side)| ==> ValidTuple(d.gridSize, Destinations(d, ax, side)[k])
    ensures forall k, m :: 0 <= k < m < |Destinations(d, ax, side)| ==>
              Boxes(d.gridSize, Destinations(d, ax, side))[k] != Boxes(d.gridSize, Destinations(d, ax, side))[m]
  {
    var g := d.gridSize;
    var tuples := AtomTuples(g, ax, Opposite(side));
    var dest := Destinations(d, ax, side);
    AtomTuplesFacts(g, ax, Opposite(side));
    GridIsValid(d);
    hide GetBoxFromTuple, AtomTuples, ArrivalTuple, Destinations;
    forall k | 0 <= k < |dest|
      ensures ValidTuple(g, dest[k])
    {
      assert tuples[k] in tuples;
      ArrivalValid(d, ax, side, tuples[k]);
    }
    forall k, m | 0 <= k < m < |dest|
      ensures Boxes(g, dest)[k] != Boxes(g, dest)[m]
    {
      BoxTupleInjective(g, dest[k], dest[m]);
      ArrivalSource(d, ax, side, tuples[k]);
      ArrivalSource(d, ax, side, tuples[m]);
    }
  }

  lemma SenderCells(d: Domain, st: State, nb: Triple<int>, ax: Axis, side: Side, k: nat)
    requires ValidDomain(d) && ValidState(d, st) && ValidCoord(d, nb) && k < |AtomTuples(d.gridSize, ax, side)|
    ensures var t := AtomTuples(d.gridSize, ax, side)[k];
            && ValidTuple(d.gridSize, t) && 0 <= RankOf(d, nb) < |st|
            && 0 <= Boxes(d.gridSize, AtomTuples(d.gridSize, ax, side))[k] < |st[RankOf(d, nb)]|
            && st[RankOf(d, nb)][Boxes(d.gridSize, AtomTuples(d.gridSize, ax, side))[k]] == CellAt(d, st, nb, t)
  {
    RankRoundTrip(d, nb);
    AtomBoxesInRange(d, ax, side);
  }

  lemma SentAtomArrives(d: Domain, pop: Population, ex: Triple<bool>, st: State, rho: Triple<int>, ax: Axis,
                        side: Side, k: nat, a: Atom)
    requires ValidDomain(d) && ValidState(d, st) && Placed(d, pop, ex, st) && ValidCoord(d, rho)
    requires k < |AtomTuples(d.gridSize, ax, Opposite(side))|
    requires ValidCoord(d, NeighborCoord(d, rho, ax, Step(side)))
    requires ValidTuple(d.gridSize, AtomTuples(d.gridSize, ax, Opposite(side))[k])
    requires a in CellAt(d, st, NeighborCoord(d, rho, ax, Step(side)), AtomTuples(d.gridSize, ax, Opposite(side))[k])
    ensures BoxOf(d, rho, ShiftAtom(a, SenderShift(d, rho, ax, side))) ==
              Boxes(d.gridSize, Destinations(d, ax, side))[k]
  {
    hide AtomTuples, TupleOfCoord, Expected, RankOf, GetBoxFromTuple, PbcShift, BoxOf, CellAt, Destinations;
    var t := AtomTuples(d.gridSize, ax, Opposite(side))[k];
    var nb := NeighborCoord(d, rho, ax, Step(side));
    assert HoldsExactly(d, pop, ex, nb, t, CellAt(d, st, nb, t));
    assert t in AtomTuples(d.gridSize, ax, Opposite(side));
    ArrivesAt(d, pop, ex, rho, ax, side, t, a);
    BoxIsTuple(d, rho, ShiftAtom(a, SenderShift(d, rho, ax, side)));
  }

  /** No message brings two atoms of the same id to one cell. */
  lemma IncomingSpreadOut(d: Domain, pop: Population, ex: Triple<bool>, st: State, rho: Triple<int>, ax: Axis,
                          side: Side)
    requires ValidDomain(d) && ValidState(d, st) && Placed(d, pop, ex, st) && ValidCoord(d, rho)
    ensures SpreadOut(d, rho, Incoming(d, st, rho, ax, side))
  {
    var g := d.gridSize;
    var nb := NeighborCoord(d, rho, ax, Step(side));
    var tuples := AtomTuples(g, ax, Opposite(side));
    var boxes := Boxes(g, tuples);
    var shift := SenderShift(d, rho, ax, side);
    ProcessorNumNeighbors(d, rho, ax, Step(side));
    RankRoundTrip(d, nb);
    AtomBoxesInRange(d, ax, Opposite(side));
    DestinationsDistinct(d, ax, side);
    var cells := st[RankOf(d, nb)];
    var dest := Boxes(g, Destinations(d, ax, side));
    hide AtomTuples, TupleOfCoord, Expected, RankOf, ProcCoord, NRanks, NTotalBoxes, GetBoxFromTuple, PbcShift, BoxOf,
         CellAt, Destinations,
         ShiftAtom, ArrivalTuple;
    forall k, i | 0 <= k < |boxes| && 0 <= i < |cells[boxes[k]]|
      ensures BoxOf(d, rho, ShiftAtom(cells[boxes[k]][i], shift)) == dest[k]
    {
      SenderCells(d, st, nb, ax, Opposite(side), k);
      SentAtomArrives(d, pop, ex, st, rho, ax, side, k, cells[boxes[k]][i]);
    }
    forall k | 0 <= k < |boxes|
      ensures DistinctGids(cells[boxes[k]])
    {
      SenderCells(d, st, nb, ax, Opposite(side), k);
      assert HoldsExactly(d, pop, ex, nb, tuples[k], CellAt(d, st, nb, tuples[k]));
    }
    LoadSpreadOut(d, rho, cells, boxes, shift, dest);
  }

  lemma AllDeliverable(d: Domain, pop: Population, ex: Triple<bool>, st: State, ax: Axis)
    requires ValidDomain(d) && ValidState(d, st) && Placed(d, pop, ex, st)
    ensures CanDeliver(d, st, ax)
  {
    hide Incoming, Placed, Deliverable, RankOf;
    forall rho: Triple<int>, side: Side | ValidCoord(d, rho)
      ensures Deliverable(d, rho, st[RankCheck(d, st, rho)], Incoming(d, st, rho, ax, side))
    {
      IncomingDeliverable(d, pop, ex, st, rho, ax, side);
    }
  }

  lemma ExchangeKeepsShape(d: Domain, st: State, ax: Axis)
    requires ValidDomain(d) && ValidState(d, st) && CanDeliver(d, st, ax)
    ensures ValidState(d, ExchangeAxis(d, st, ax))
  {
    hide Incoming, Deliverable, RankOf, ProcCoord, NRanks, NTotalBoxes, CanDeliver;
    var after := ExchangeAxis(d, st, ax);
    forall k | 0 <= k < |after|
      ensures |after[k]| == NTotalBoxes(d.gridSize)
    {
      CoordRoundTrip(d, k);
      assert after[k] == RankAfter(d, st, ProcCoord(d, k), ax);
    }
  }

  /** A cell after the exchange: its old contents, then what came from the minus
      side, then what came from the plus side. */
  lemma CellAfter(d: Domain, st: State, ax: Axis, rho: Triple<int>, t: Triple<int>)
    requires ValidDomain(d) && ValidState(d, st) && CanDeliver(d, st, ax)
    requires ValidCoord(d, rho) && ValidTuple(d.gridSize, t) && ValidState(d, ExchangeAxis(d, st, ax))
    ensures CellAt(d, ExchangeAxis(d, st, ax), rho, t) ==
              CellAt(d, st, rho, t)
              + Arrivals(d, rho, Incoming(d, st, rho, ax, MinusSide), GetBoxFromTuple(d.gridSize, t))
              + Arrivals(d, rho, Incoming(d, st, rho, ax, PlusSide), GetBoxFromTuple(d.gridSize, t))
  {
    RankRoundTrip(d, rho);
    CellInRange(d, st, rho, t);
    var box := GetBoxFromTuple(d.gridSize, t);
    var cells := st[RankCheck(d, st, rho)];
    var inM, inP := Incoming(d, st, rho, ax, MinusSide), Incoming(d, st, rho, ax, PlusSide);
    hide Incoming, RankOf, ProcCoord, NRanks, NTotalBoxes, GetBoxFromTuple, BoxOf, Reachable;
    assert Deliverable(d, rho, cells, inM) && Deliverable(d, rho, cells, inP);
    PutAllCells(d, rho, cells, inM, box);
    PutAllCells(d, rho, PutAll(d, rho, cells, inM), inP, box);
  }

  lemma DistinctThree(a: seq<Atom>, b: seq<Atom>, c: seq<Atom>)
    requires DistinctGids(a) && DistinctGids(b) && DistinctGids(c)
    requires forall x, y :: x in a && y in b ==> x.gid != y.gid
    requires forall x, y :: x in a && y in c ==> x.gid != y.gid
    requires forall x, y :: x in b && y in c ==> x.gid != y.gid
    ensures DistinctGids(a + b + c)
  {
    var s := a + b + c;
    forall i, j | 0 <= i < j < |s|
      ensures s[i].gid != s[j].gid
    {
      assert if i < |a| then s[i] in a else if i < |a| + |b| then s[i] in b else s[i] in c;
      assert if j < |a| then s[j] in a else if j < |a| + |b| then s[j] in b else s[j] in c;
    }
  }

  lemma CellExchanged(d: Domain, pop: Population, ex: Triple<bool>, st: State, ax: Axis, rho: Triple<int>,
                      t: Triple<int>)
    requires ValidDomain(d) && ValidPopulation(d, pop) && ValidState(d, st) && Placed(d, pop, ex, st) && !ex.At(ax)
    requires ValidCoord(d, rho) && ValidTuple(d.gridSize, t)
    requires CanDeliver(d, st, ax) && ValidState(d, ExchangeAxis(d, st, ax))
    ensures HoldsExactly(d, pop, ex.With(ax, true), rho, t, CellAt(d, ExchangeAxis(d, st, ax), rho, t))
  {
    var box := GetBoxFromTuple(d.gridSize, t);
    var inM, inP := Incoming(d, st, rho, ax, MinusSide), Incoming(d, st, rho, ax, PlusSide);
    var own, fromM, fromP := CellAt(d, st, rho, t), Arrivals(d, rho, inM, box), Arrivals(d, rho, inP, box);
    var cell := CellAt(d, ExchangeAxis(d, st, ax), rho, t);
    CellAfter(d, st, ax, rho, t);
    IncomingSpreadOut(d, pop, ex, st, rho, ax, MinusSide);
    IncomingSpreadOut(d, pop, ex, st, rho, ax, PlusSide);
    ArrivalsDistinct(d, rho, inM, box);
    ArrivalsDistinct(d, rho, inP, box);
    assert HoldsExactly(d, pop, ex, rho, t, own);
    hide Incoming, Expected, FromSide, Arrivals, CanDeliver, ExchangeAxis, CellAt, ValidPopulation, GetBoxFromTuple,
         SpreadOut, Placed, ValidState;
    forall b: Atom
      ensures b in fromM <==> FromSide(d, pop, ex, rho, t, ax, MinusSide, b)
      ensures b in fromP <==> FromSide(d, pop, ex, rho, t, ax, PlusSide, b)
      ensures b in cell <==> Expected(d, pop, ex.With(ax, true), rho, t, b)
    {
      IncomingArrivals(d, pop, ex, st, rho, ax, MinusSide, t, b);
      IncomingArrivals(d, pop, ex, st, rho, ax, PlusSide, t, b);
      ExpectedSplits(d, pop, ex, ax, rho, t, b);
    }
    forall a: Atom, b: Atom | a.gid == b.gid
      ensures !(a in own && b in fromM) && !(a in own && b in fromP) && !(a in fromM && b in fromP)
    {
      SourcesDisjoint(d, pop, ex, ax, rho, t, a, b);
    }
    DistinctThree(own, fromM, fromP);
  }

  /** One axis of the exchange: wherever atoms were placed by ownership along the
      axis, they are afterwards placed by periodic image, each exactly once. */
  lemma AxisExchanged(d: Domain, pop: Population, ex: Triple<bool>, st: State, ax: Axis)
    requires ValidDomain(d) && ValidPopulation(d, pop) && ValidState(d, st) && Placed(d, pop, ex, st) && !ex.At(ax)
    ensures CanDeliver(d, st, ax) && ValidState(d, ExchangeAxis(d, st, ax))
    ensures Placed(d, pop, ex.With(ax, true), ExchangeAxis(d, st, ax))
  {
    AllDeliverable(d, pop, ex, st, ax);
    ExchangeKeepsShape(d, st, ax);
    var after := ExchangeAxis(d, st, ax);
    hide CanDeliver, ExchangeAxis, CellAt, ValidPopulation, HoldsExactly, ValidState;
    forall rho: Triple<int>, t: Triple<int> | ValidCoord(d, rho) && ValidTuple(d.gridSize, t)
      ensures HoldsExactly(d, pop, ex.With(ax, true), rho, t, CellAt(d, after, rho, t))
    {
      CellExchanged(d, pop, ex, st, ax, rho, t);
    }
  }

  const NONE := Triple(false, false, false)
  const ALL := Triple(true, true, true)

  /** haloExchange: three axes, two messages each way per axis. */
  ghost predicate HaloExchanged(d: Domain, st: State, after: State)
    requires ValidDomain(d) && ValidState(d, st)
  {
    && CanDeliver(d, st, X) && ValidState(d, ExchangeAxis(d, st, X))
    && var onX := ExchangeAxis(d, st, X);
    && CanDeliver(d, onX, Y) && ValidState(d, ExchangeAxis(d, onX, Y))
    && var onY := ExchangeAxis(d, onX, Y);
    && CanDeliver(d, onY, Z)
    && after == ExchangeAxis(d, onY, Z)
  }

  /** From atoms held by their owners, in local or halo cells, the six messages of
      each rank produce every image of every atom, in all 26 directions, once. */
  lemma HaloExchangeComplete(d: Domain, pop: Population, st: State) returns (after: State)
    requires ValidDomain(d) && ValidPopulation(d, pop) && ValidState(d, st) && Placed(d, pop, NONE, st)
    ensures HaloExchanged(d, st, after) && ValidState(d, after) && Placed(d, pop, ALL, after)
  {
    AxisExchanged(d, pop, NONE, st, X);
    var onX := ExchangeAxis(d, st, X);
    var exX := NONE.With(X, true);
    AxisExchanged(d, pop, exX, onX, Y);
    var onY := ExchangeAxis(d, onX, Y);
    AxisExchanged(d, pop, exX.With(Y, true), onY, Z);
    after := ExchangeAxis(d, onY, Z);
  }
}
