/** The exchange of per-atom force data.  Messages carry bare numbers: a value is
    matched to its atom only by the order of the cells in the lists and of the
    atoms in the cells. */
module ForceExchange {
  import opened Triples
  import opened LinkCellIndex
  import opened Decomposition
  import opened Atoms
  import opened Periodic
  import opened CellLists
  import opened Placement
  import opened AtomExchange
  import opened AtomProtocol
  import opened HaloBuffers
  import opened Redistribute

  /** One number per atom slot in use, cell by cell. */
  type Slots = seq<seq<real>>

  // ----- the lists

  /** The range of a coordinate in the lists for axis ax: axes already exchanged
      include their halo planes, later ones do not. */
  function Before(bx: Axis, ax: Axis): bool {
    match ax
    case X => false
    case Y => bx == X
    case Z => bx == X || bx == Y
  }

  function FullLo(ax: Axis): Triple<int> {
    Triple(if Before(X, ax) then -1 else 0, if Before(Y, ax) then -1 else 0, 0)
  }

  function FullHi(g: Triple<int>, ax: Axis): Triple<int> {
    Triple(if Before(X, ax) then g.x + 1 else g.x, if Before(Y, ax) then g.y + 1 else g.y, g.z)
  }

  function SendTuples(g: Triple<int>, ax: Axis, side: Side): seq<Triple<int>> {
    var plane := if side.MinusSide? then 0 else g.At(ax) - 1;
    Block(FullLo(ax).With(ax, plane), FullHi(g, ax).With(ax, plane + 1))
  }

  function RecvTuples(g: Triple<int>, ax: Axis, side: Side): seq<Triple<int>> {
    var plane := if side.MinusSide? then -1 else g.At(ax);
    Block(FullLo(ax).With(ax, plane), FullHi(g, ax).With(ax, plane + 1))
  }

  method MkForceSendCellList(g: Triple<int>, ax: Axis, side: Side) returns (list: seq<int>)
    requires ValidGrid(g)
    ensures list == Boxes(g, SendTuples(g, ax, side))
  {
    var plane := if side.MinusSide? then 0 else g.At(ax) - 1;
    list := MakeCellList(g, FullLo(ax).With(ax, plane), FullHi(g, ax).With(ax, plane + 1));
  }

  method MkForceRecvCellList(g: Triple<int>, ax: Axis, side: Side) returns (list: seq<int>)
    requires ValidGrid(g)
    ensures list == Boxes(g, RecvTuples(g, ax, side))
  {
    var plane := if side.MinusSide? then -1 else g.At(ax);
    list := MakeCellList(g, FullLo(ax).With(ax, plane), FullHi(g, ax).With(ax, plane + 1));
  }

  /** The k-th receive cell of a face is the image of the k-th send cell of the
      opposite face of the neighbour there. */
  lemma ListsAlign(g: Triple<int>, ax: Axis, side: Side)
    requires ValidGrid(g)
    ensures var send, recv := SendTuples(g, ax, Opposite(side)), RecvTuples(g, ax, side);
            |recv| == |send| && forall k :: 0 <= k < |send| ==>
              recv[k] == send[k].With(ax, send[k].At(ax) + Step(side) * g.At(ax))
  {
    var plane := if side.MinusSide? then g.At(ax) - 1 else 0;
    var v := Along(ax, Step(side) * g.At(ax));
    BlockShift(FullLo(ax).With(ax, plane), FullHi(g, ax).With(ax, plane + 1), v);
  }

  // ----- load and unload

  predicate InSlots(slots: Slots, boxes: seq<int>) {
    forall k :: 0 <= k < |boxes| ==> 0 <= boxes[k] < |slots|
  }

  function LoadForce(slots: Slots, boxes: seq<int>): seq<real>
    requires InSlots(slots, boxes)
  {
    if boxes == [] then [] else slots[boxes[0]] + LoadForce(slots, boxes[1..])
  }

  /** Each listed cell takes as many numbers as it has atoms. */
  function UnloadForce(slots: Slots, boxes: seq<int>, buf: seq<real>): (after: Slots)
    requires InSlots(slots, boxes) && |buf| == |LoadForce(slots, boxes)|
    ensures |after| == |slots| && forall j :: 0 <= j < |slots| ==> |after[j]| == |slots[j]|
    decreases |boxes|
  {
    if boxes == [] then slots
    else
      var n := |slots[boxes[0]]|;
      var next := slots[boxes[0] := buf[..n]];
      LoadSameShape(slots, next, boxes[1..]);
      UnloadForce(next, boxes[1..], buf[n..])
  }

  lemma LoadSameShape(a: Slots, b: Slots, boxes: seq<int>)
    requires |a| == |b| && forall k :: 0 <= k < |a| ==> |a[k]| == |b[k]|
    requires InSlots(a, boxes)
    ensures InSlots(b, boxes) && |LoadForce(a, boxes)| == |LoadForce(b, boxes)|
  {
  }

  /** Unloading what was loaded copies cell to cell, in list order. */
  lemma {:induction false} UnloadOfLoad(slots: Slots, recv: seq<int>, src: Slots, send: seq<int>)
    requires |recv| == |send| && InSlots(slots, recv) && InSlots(src, send) && Distinct(recv)
    requires forall k :: 0 <= k < |send| ==> |slots[recv[k]]| == |src[send[k]]|
    ensures |LoadForce(slots, recv)| == |LoadForce(src, send)|
    ensures var after := UnloadForce(slots, recv, LoadForce(src, send));
            && (forall k :: 0 <= k < |recv| ==> after[recv[k]] == src[send[k]])
            && (forall j :: 0 <= j < |slots| && j !in recv ==> after[j] == slots[j])
    decreases |recv|
  {
    if recv != [] {
      var next := slots[recv[0] := src[send[0]]];
      forall k | 0 <= k < |send[1..]|
        ensures |next[recv[1..][k]]| == |src[send[1..][k]]|
      {
        assert recv[1..][k] == recv[k + 1] && send[1..][k] == send[k + 1];
      }
      UnloadOfLoad(next, recv[1..], src, send[1..]);
      LoadSameShape(slots, next, recv[1..]);
      var buf := LoadForce(src, send);
      assert buf == src[send[0]] + LoadForce(src, send[1..]);
      var after := UnloadForce(slots, recv, buf);
      assert buf[..|slots[recv[0]]|] == src[send[0]] && buf[|slots[recv[0]]|..] == LoadForce(src, send[1..]);
      assert after == UnloadForce(next, recv[1..], LoadForce(src, send[1..]));
      forall k | 0 <= k < |recv|
        ensures after[recv[k]] == src[send[k]]
      {
        if k == 0 {
          assert recv[0] !in recv[1..];
        } else {
          assert recv[1..][k - 1] == recv[k] && send[1..][k - 1] == send[k];
        }
      }
    }
  }

  // ----- corresponding cells hold the same atoms in the same order

  function Ids(s: seq<Atom>): (ids: seq<int>)
    ensures |ids| == |s| && forall i :: 0 <= i < |s| ==> ids[i] == s[i].gid
  {
    seq(|s|, i requires 0 <= i < |s| => s[i].gid)
  }

  predicate AscendingIds(s: seq<int>) {
    forall i, j :: 0 <= i < j < |s| ==> s[i] < s[j]
  }

  /** An ascending list is determined by its members. */
  lemma {:induction false} AscendingUnique(s: seq<int>, u: seq<int>)
    requires AscendingIds(s) && AscendingIds(u)
    requires forall x :: x in s <==> x in u
    ensures s == u
  {
    assert |u| > 0 ==> u[0] in u;
    if s != [] {
      assert s[0] in s;
      assert s[0] in u;
      assert u[0] in s;
      assert s[0] == u[0];
      forall x
        ensures x in s[1..] <==> x in u[1..]
      {
        if x in s[1..] {
          var i :| 0 <= i < |s[1..]| && s[1..][i] == x;
          assert s[i + 1] == x && x in u && x != u[0];
        }
        if x in u[1..] {
          var i :| 0 <= i < |u[1..]| && u[1..][i] == x;
          assert u[i + 1] == x && x in s && x != s[0];
        }
      }
      AscendingUnique(s[1..], u[1..]);
    }
  }

  /** The atom has an image in cell t of brick rho. */
  predicate HasImage(d: Domain, r: Triple<real>, rho: Triple<int>, t: Triple<int>)
    requires ValidDomain(d)
  {
    && ImageCell(GlobalCell(d, X, r.x), rho.x, t.x, d.procGrid.x, d.gridSize.x)
    && ImageCell(GlobalCell(d, Y, r.y), rho.y, t.y, d.procGrid.y, d.gridSize.y)
    && ImageCell(GlobalCell(d, Z, r.z), rho.z, t.z, d.procGrid.z, d.gridSize.z)
  }

  lemma IdsOfCell(d: Domain, pop: Population, st: State, rho: Triple<int>, t: Triple<int>, gid: int)
    requires ValidDomain(d) && ValidPopulation(d, pop) && PlacedInOrder(d, pop, st)
    requires ValidCoord(d, rho) && ValidTuple(d.gridSize, t)
    ensures gid in Ids(CellAt(d, st, rho, t)) <==> gid in pop && HasImage(d, pop[gid].atom.r, rho, t)
  {
    hide GlobalCell, ImageCell, Periods, GetBoxFromTuple, RankOf, NRanks, NTotalBoxes, CellAt, Near;
    var cell := CellAt(d, st, rho, t);
    assert HoldsExactly(d, pop, ALL, rho, t, cell);
    if gid in Ids(cell) {
      var i :| 0 <= i < |cell| && cell[i].gid == gid;
      assert cell[i] in cell;
    }
    if gid in pop && HasImage(d, pop[gid].atom.r, rho, t) {
      var a := pop[gid].atom;
      var b := a.(r := Triple(ImageCoord(d, true, X, a.r.x, rho.x, t.x),
                              ImageCoord(d, true, Y, a.r.y, rho.y, t.y),
                              ImageCoord(d, true, Z, a.r.z, rho.z, t.z)));
      assert Expected(d, pop, ALL, rho, t, b);
      assert b in cell;
      var i :| 0 <= i < |cell| && cell[i] == b;
      assert Ids(cell)[i] == gid;
    }
  }

  lemma ModPlusMultiple(x: int, f: int, m: int)
    requires m >= 1
    ensures (x + f * m) % m == x % m
  {
    assert x == x / m * m + x % m;
    assert (x / m + f) * m == x / m * m + f * m;
    DivModUnique(x / m + f, x % m, m);
  }

  lemma SameImage(cell: int, rho: int, t: int, nb: int, u: int, f: int, p: int, g: int)
    requires p >= 1 && g >= 1 && rho * g + t == nb * g + u + f * (p * g)
    ensures ImageCell(cell, rho, t, p, g) == ImageCell(cell, nb, u, p, g)
  {
    MulPositive(p, g);
    ModPlusMultiple(nb * g + u - cell, f, p * g);
  }

  /** Cell t of a rank and the cell a whole brick away on its neighbour. */
  lemma NeighborHasImage(d: Domain, r: Triple<real>, rho: Triple<int>, ax: Axis, side: Side, t: Triple<int>)
    requires ValidDomain(d) && ValidCoord(d, rho)
    ensures HasImage(d, r, rho, t) == HasImage(d, r, NeighborCoord(d, rho, ax, Step(side)), SourceTuple(d, ax, side, t))
  {
    hide GlobalCell, ImageCell, PbcFactor;
    var nb, u := NeighborCoord(d, rho, ax, Step(side)), SourceTuple(d, ax, side, t);
    SenderOffset(d, rho, ax, side);
    var f := PbcFactor(d, nb, ax, Opposite(side));
    var p, g := d.procGrid.At(ax), d.gridSize.At(ax);
    ArrivalCell(rho.At(ax), nb.At(ax), Step(side), f, p, g, u.At(ax));
    SameImage(GlobalCell(d, ax, r.At(ax)), rho.At(ax), t.At(ax), nb.At(ax), u.At(ax), f, p, g);
  }

  lemma SameIds(d: Domain, pop: Population, st: State, rho: Triple<int>, ax: Axis, side: Side, t: Triple<int>)
    requires ValidDomain(d) && ValidPopulation(d, pop) && PlacedInOrder(d, pop, st)
    requires ValidCoord(d, rho) && ValidTuple(d.gridSize, t) && ValidTuple(d.gridSize, SourceTuple(d, ax, side, t))
    ensures ValidCoord(d, NeighborCoord(d, rho, ax, Step(side)))
    ensures Ids(CellAt(d, st, rho, t)) ==
              Ids(CellAt(d, st, NeighborCoord(d, rho, ax, Step(side)), SourceTuple(d, ax, side, t)))
  {
    SenderOffset(d, rho, ax, side);
    hide HasImage, CellAt, ValidPopulation, Placed, NeighborCoord, SourceTuple, PbcFactor;
    var nb, u := NeighborCoord(d, rho, ax, Step(side)), SourceTuple(d, ax, side, t);
    var a, b := CellAt(d, st, rho, t), CellAt(d, st, nb, u);
    assert Ascending(a) && Ascending(b);
    forall gid
      ensures gid in Ids(a) <==> gid in Ids(b)
    {
      IdsOfCell(d, pop, st, rho, t, gid);
      IdsOfCell(d, pop, st, nb, u, gid);
      if gid in pop {
        NeighborHasImage(d, pop[gid].atom.r, rho, ax, side, t);
      }
    }
    AscendingUnique(Ids(a), Ids(b));
  }

  // ----- the exchange on all ranks

  type ForceState = seq<Slots>

  predicate ValidForce(d: Domain, st: State, df: ForceState)
    requires ValidDomain(d)
  {
    && ValidState(d, st) && |df| == |st|
    && forall k :: 0 <= k < |st| ==> SlotsMatch(st[k], df[k])
  }

  predicate SlotsMatch(cells: Cells, slots: Slots) {
    |slots| == |cells| && forall j :: 0 <= j < |cells| ==> |slots[j]| == |cells[j]|
  }

  function ForceAt(d: Domain, st: State, df: ForceState, rho: Triple<int>, t: Triple<int>): seq<real>
    requires ValidDomain(d) && ValidForce(d, st, df) && ValidCoord(d, rho) && ValidTuple(d.gridSize, t)
  {
    CellInRange(d, st, rho, t);
    df[RankOf(d, rho)][GetBoxFromTuple(d.gridSize, t)]
  }

  predicate Listed(g: Triple<int>, tuples: seq<Triple<int>>) {
    forall k :: 0 <= k < |tuples| ==> ValidTuple(g, tuples[k])
  }

  lemma ListsValid(d: Domain, ax: Axis, side: Side)
    requires ValidDomain(d)
    ensures Listed(d.gridSize, SendTuples(d.gridSize, ax, side))
    ensures Listed(d.gridSize, RecvTuples(d.gridSize, ax, side))
  {
    var g := d.gridSize;
    var sendPlane := if side.MinusSide? then 0 else g.At(ax) - 1;
    var recvPlane := if side.MinusSide? then -1 else g.At(ax);
    BlockFacts(FullLo(ax).With(ax, sendPlane), FullHi(g, ax).With(ax, sendPlane + 1));
    BlockFacts(FullLo(ax).With(ax, recvPlane), FullHi(g, ax).With(ax, recvPlane + 1));
    hide Block;
    forall k | 0 <= k < |SendTuples(g, ax, side)|
      ensures ValidTuple(g, SendTuples(g, ax, side)[k])
    {
      assert SendTuples(g, ax, side)[k] in SendTuples(g, ax, side);
    }
    forall k | 0 <= k < |RecvTuples(g, ax, side)|
      ensures ValidTuple(g, RecvTuples(g, ax, side)[k])
    {
      assert RecvTuples(g, ax, side)[k] in RecvTuples(g, ax, side);
    }
  }

  lemma ListedInSlots(d: Domain, st: State, df: ForceState, rho: Triple<int>, tuples: seq<Triple<int>>)
    requires ValidDomain(d) && ValidForce(d, st, df) && ValidCoord(d, rho) && Listed(d.gridSize, tuples)
    ensures 0 <= RankOf(d, rho) < |df|
    ensures InSlots(df[RankOf(d, rho)], Boxes(d.gridSize, tuples))
  {
    RankRoundTrip(d, rho);
    hide RankOf, GetBoxFromTuple, NTotalBoxes, NRanks, ProcCoord;
    forall k | 0 <= k < |tuples|
      ensures 0 <= Boxes(d.gridSize, tuples)[k] < |df[RankOf(d, rho)]|
    {
      CellInRange(d, st, rho, tuples[k]);
    }
  }

  function SendBoxes(d: Domain, ax: Axis, side: Side): seq<int> {
    Boxes(d.gridSize, SendTuples(d.gridSize, ax, side))
  }

  function RecvBoxes(d: Domain, ax: Axis, side: Side): seq<int> {
    Boxes(d.gridSize, RecvTuples(d.gridSize, ax, side))
  }

  /** loadForceBuffer of the neighbour whose message arrives on the given side. */
  function IncomingForce(d: Domain, st: State, df: ForceState, rho: Triple<int>, ax: Axis, side: Side): seq<real>
    requires ValidDomain(d) && ValidForce(d, st, df) && ValidCoord(d, rho)
  {
    ProcessorNumNeighbors(d, rho, ax, Step(side));
    var nb := NeighborCoord(d, rho, ax, Step(side));
    ListsValid(d, ax, Opposite(side));
    ListedInSlots(d, st, df, nb, SendTuples(d.gridSize, ax, Opposite(side)));
    LoadForce(df[RankOf(d, nb)], SendBoxes(d, ax, Opposite(side)))
  }

  /** unloadForceBuffer asserts that the message has one number per receiving slot. */
  ghost predicate MessagesFit(d: Domain, st: State, df: ForceState, ax: Axis)
    requires ValidDomain(d) && ValidForce(d, st, df)
  {
    forall rho: Triple<int>, side: Side {:trigger IncomingForce(d, st, df, rho, ax, side)} :: ValidCoord(d, rho) ==>
      MessageFits(d, st, df, rho, ax, side)
  }

  predicate MessageFits(d: Domain, st: State, df: ForceState, rho: Triple<int>, ax: Axis, side: Side)
    requires ValidDomain(d) && ValidForce(d, st, df) && ValidCoord(d, rho)
  {
    ListsValid(d, ax, side);
    ListedInSlots(d, st, df, rho, RecvTuples(d.gridSize, ax, side));
    |IncomingForce(d, st, df, rho, ax, side)| == |LoadForce(df[RankOf(d, rho)], RecvBoxes(d, ax, side))|
  }

  /** One rank's part of the exchange along an axis. */
  function ForceRankAfter(d: Domain, st: State, df: ForceState, rho: Triple<int>, ax: Axis): Slots
    requires ValidDomain(d) && ValidForce(d, st, df) && ValidCoord(d, rho) && MessagesFit(d, st, df, ax)
  {
    var inM, inP := IncomingForce(d, st, df, rho, ax, MinusSide), IncomingForce(d, st, df, rho, ax, PlusSide);
    assert MessageFits(d, st, df, rho, ax, MinusSide) && MessageFits(d, st, df, rho, ax, PlusSide);
    ListsValid(d, ax, MinusSide);
    ListsValid(d, ax, PlusSide);
    ListedInSlots(d, st, df, rho, RecvTuples(d.gridSize, ax, MinusSide));
    ListedInSlots(d, st, df, rho, RecvTuples(d.gridSize, ax, PlusSide));
    var slots := df[RankOf(d, rho)];
    var mid := UnloadForce(slots, RecvBoxes(d, ax, MinusSide), inM);
    LoadSameShape(slots, mid, RecvBoxes(d, ax, PlusSide));
    UnloadForce(mid, RecvBoxes(d, ax, PlusSide), inP)
  }

  function ForceAxis(d: Domain, st: State, df: ForceState, ax: Axis): ForceState
    requires ValidDomain(d) && ValidForce(d, st, df) && MessagesFit(d, st, df, ax)
  {
    seq(NRanks(d), k requires 0 <= k < NRanks(d) =>
      CoordRoundTrip(d, k);
      ForceRankAfter(d, st, df, ProcCoord(d, k), ax))
  }

  /** Cells whose values are in place once the given axes are exchanged. */
  predicate InRegion(g: Triple<int>, ex: Triple<bool>, t: Triple<int>) {
    && ValidTuple(g, t)
    && (ex.x || 0 <= t.x < g.x) && (ex.y || 0 <= t.y < g.y) && (ex.z || 0 <= t.z < g.z)
  }

  function Values(val: int -> real, s: seq<Atom>): (v: seq<real>)
    ensures |v| == |s| && forall i :: 0 <= i < |s| ==> v[i] == val(s[i].gid)
  {
    seq(|s|, i requires 0 <= i < |s| => val(s[i].gid))
  }

  /** Every slot of the region holds the value that belongs to its atom's id. */
  ghost predicate Carries(d: Domain, st: State, df: ForceState, val: int -> real, ex: Triple<bool>)
    requires ValidDomain(d) && ValidForce(d, st, df)
  {
    forall rho: Triple<int>, t: Triple<int> :: ValidCoord(d, rho) && InRegion(d.gridSize, ex, t) ==>
      ForceAt(d, st, df, rho, t) == Values(val, CellAt(d, st, rho, t))
  }

  lemma ValuesByIds(val: int -> real, s: seq<Atom>, u: seq<Atom>)
    requires Ids(s) == Ids(u)
    ensures Values(val, s) == Values(val, u)
  {
    assert |s| == |u|;
    forall i | 0 <= i < |s|
      ensures s[i].gid == u[i].gid
    {
      assert Ids(s)[i] == Ids(u)[i];
    }
  }

  /** The axes exchanged before axis ax. */
  function Done(ax: Axis): Triple<bool> {
    Triple(Before(X, ax), Before(Y, ax), false)
  }

  lemma SendRegion(d: Domain, ax: Axis, side: Side, t: Triple<int>)
    requires ValidDomain(d)
    ensures t in SendTuples(d.gridSize, ax, side) ==> InRegion(d.gridSize, Done(ax), t)
    ensures t in RecvTuples(d.gridSize, ax, side) <==>
              InRegion(d.gridSize, Done(ax).With(ax, true), t) &&
              t.At(ax) == if side.MinusSide? then -1 else d.gridSize.At(ax)
  {
    var g := d.gridSize;
    var sendPlane := if side.MinusSide? then 0 else g.At(ax) - 1;
    var recvPlane := if side.MinusSide? then -1 else g.At(ax);
    BlockFacts(FullLo(ax).With(ax, sendPlane), FullHi(g, ax).With(ax, sendPlane + 1));
    BlockFacts(FullLo(ax).With(ax, recvPlane), FullHi(g, ax).With(ax, recvPlane + 1));
    hide Block;
  }

  lemma RecvBoxesDistinct(d: Domain, ax: Axis, side: Side)
    requires ValidDomain(d)
    ensures Distinct(RecvBoxes(d, ax, side))
  {
    var g := d.gridSize;
    var recvPlane := if side.MinusSide? then -1 else g.At(ax);
    BlockFacts(FullLo(ax).With(ax, recvPlane), FullHi(g, ax).With(ax, recvPlane + 1));
    ListsValid(d, ax, side);
    GridIsValid(d);
    hide Block, GetBoxFromTuple;
    var recv := RecvTuples(g, ax, side);
    assert Distinct(recv);
    forall i, j | 0 <= i < j < |recv|
      ensures Boxes(g, recv)[i] != Boxes(g, recv)[j]
    {
      BoxTupleInjective(g, recv[i], recv[j]);
    }
  }

  /** The atoms of a receive cell and of the send cell it is paired with. */
  lemma PairedCells(d: Domain, pop: Population, st: State, rho: Triple<int>, ax: Axis, side: Side, k: nat)
    requires ValidDomain(d) && ValidPopulation(d, pop) && PlacedInOrder(d, pop, st) && ValidCoord(d, rho)
    requires k < |RecvTuples(d.gridSize, ax, side)|
    ensures var nb := NeighborCoord(d, rho, ax, Step(side));
            var recv, send := RecvTuples(d.gridSize, ax, side), SendTuples(d.gridSize, ax, Opposite(side));
            && |recv| == |send| && ValidCoord(d, nb)
            && ValidTuple(d.gridSize, recv[k]) && ValidTuple(d.gridSize, send[k])
            && send[k] == SourceTuple(d, ax, side, recv[k])
            && Ids(CellAt(d, st, rho, recv[k])) == Ids(CellAt(d, st, nb, send[k]))
  {
    GridIsValid(d);
    ListsAlign(d.gridSize, ax, side);
    ListsValid(d, ax, side);
    ListsValid(d, ax, Opposite(side));
    hide SendTuples, RecvTuples, CellAt, Placed, ValidPopulation, PlacedInOrder;
    var recv, send := RecvTuples(d.gridSize, ax, side), SendTuples(d.gridSize, ax, Opposite(side));
    assert send[k] == SourceTuple(d, ax, side, recv[k]);
    SameIds(d, pop, st, rho, ax, side, recv[k]);
  }

  /** One message: it fits, and unloading it copies each sent cell to its image. */
  lemma OneUnload(d: Domain, pop: Population, st: State, df: ForceState, rho: Triple<int>, ax: Axis, side: Side,
                  slots: Slots)
    requires ValidDomain(d) && ValidPopulation(d, pop) && PlacedInOrder(d, pop, st) && ValidForce(d, st, df)
    requires ValidCoord(d, rho) && SlotsMatch(st[RankCheck(d, st, rho)], slots)
    ensures InSlots(slots, RecvBoxes(d, ax, side))
    ensures |IncomingForce(d, st, df, rho, ax, side)| == |LoadForce(slots, RecvBoxes(d, ax, side))|
    ensures ValidCoord(d, NeighborCoord(d, rho, ax, Step(side)))
    ensures var after := UnloadForce(slots, RecvBoxes(d, ax, side), IncomingForce(d, st, df, rho, ax, side));
            var recv, send := RecvTuples(d.gridSize, ax, side), SendTuples(d.gridSize, ax, Opposite(side));
            && |recv| == |send|
            && (forall k :: 0 <= k < |recv| ==>
                  && ValidTuple(d.gridSize, send[k])
                  && after[RecvBoxes(d, ax, side)[k]] ==
                       ForceAt(d, st, df, NeighborCoord(d, rho, ax, Step(side)), send[k]))
            && (forall j :: 0 <= j < |slots| && j !in RecvBoxes(d, ax, side) ==> after[j] == slots[j])
  {
    var g := d.gridSize;
    var nb := NeighborCoord(d, rho, ax, Step(side));
    var recv, send := RecvTuples(g, ax, side), SendTuples(g, ax, Opposite(side));
    ProcessorNumNeighbors(d, rho, ax, Step(side));
    RankRoundTrip(d, nb);
    ListsValid(d, ax, side);
    ListsValid(d, ax, Opposite(side));
    ListedInSlots(d, st, df, nb, send);
    ListedInSlots(d, st, df, rho, recv);
    RecvBoxesDistinct(d, ax, side);
    GridIsValid(d);
    ListsAlign(g, ax, side);
    var src := df[RankOf(d, nb)];
    hide SendTuples, RecvTuples, CellAt, Placed, ValidPopulation, PlacedInOrder, RankOf, GetBoxFromTuple,
         NeighborCoord, NRanks, NTotalBoxes, LoadForce;
    forall k | 0 <= k < |recv|
      ensures |slots[RecvBoxes(d, ax, side)[k]]| == |src[SendBoxes(d, ax, Opposite(side))[k]]|
      ensures ForceAt(d, st, df, nb, send[k]) == src[SendBoxes(d, ax, Opposite(side))[k]]
    {
      PairedCells(d, pop, st, rho, ax, side, k);
      CellLength(d, st, df, nb, send[k]);
      CellInRange(d, st, rho, recv[k]);
      SlotLength(d, st, slots, rho, recv[k]);
    }
    UnloadOfLoad(slots, RecvBoxes(d, ax, side), src, SendBoxes(d, ax, Opposite(side)));
  }

  lemma CellLength(d: Domain, st: State, df: ForceState, rho: Triple<int>, t: Triple<int>)
    requires ValidDomain(d) && ValidForce(d, st, df) && ValidCoord(d, rho) && ValidTuple(d.gridSize, t)
    ensures |ForceAt(d, st, df, rho, t)| == |Ids(CellAt(d, st, rho, t))|
  {
    hide RankOf, GetBoxFromTuple, NRanks, NTotalBoxes;
    CellInRange(d, st, rho, t);
  }

  lemma SlotLength(d: Domain, st: State, slots: Slots, rho: Triple<int>, t: Triple<int>)
    requires ValidDomain(d) && ValidState(d, st) && ValidCoord(d, rho) && ValidTuple(d.gridSize, t)
    requires SlotsMatch(st[RankCheck(d, st, rho)], slots)
    ensures 0 <= GetBoxFromTuple(d.gridSize, t) < |slots|
    ensures |slots[GetBoxFromTuple(d.gridSize, t)]| == |Ids(CellAt(d, st, rho, t))|
  {
    hide RankOf, GetBoxFromTuple, NRanks, NTotalBoxes;
    CellInRange(d, st, rho, t);
  }

  lemma AllMessagesFit(d: Domain, pop: Population, st: State, df: ForceState, ax: Axis)
    requires ValidDomain(d) && ValidPopulation(d, pop) && PlacedInOrder(d, pop, st) && ValidForce(d, st, df)
    ensures MessagesFit(d, st, df, ax)
  {
    hide IncomingForce, ValidPopulation, PlacedInOrder, RecvBoxes, LoadForce, RankOf, NRanks;
    forall rho: Triple<int>, side: Side | ValidCoord(d, rho)
      ensures MessageFits(d, st, df, rho, ax, side)
    {
      OneUnload(d, pop, st, df, rho, ax, side, df[RankCheck(d, st, rho)]);
    }
  }

  lemma ForceAxisShape(d: Domain, st: State, df: ForceState, ax: Axis)
    requires ValidDomain(d) && ValidForce(d, st, df) && MessagesFit(d, st, df, ax)
    ensures ValidForce(d, st, ForceAxis(d, st, df, ax))
  {
    hide IncomingForce, RecvBoxes, LoadForce, RankOf, NRanks, MessagesFit, ProcCoord, MessageFits;
    var after := ForceAxis(d, st, df, ax);
    forall k | 0 <= k < |st|
      ensures SlotsMatch(st[k], after[k])
    {
      CoordRoundTrip(d, k);
      assert after[k] == ForceRankAfter(d, st, df, ProcCoord(d, k), ax);
    }
  }

  /** One message, seen from one receiving cell. */
  lemma UnloadedCell(d: Domain, pop: Population, st: State, df: ForceState, rho: Triple<int>, ax: Axis, side: Side,
                     slots: Slots, t: Triple<int>)
    requires ValidDomain(d) && ValidPopulation(d, pop) && PlacedInOrder(d, pop, st) && ValidForce(d, st, df)
    requires ValidCoord(d, rho) && ValidTuple(d.gridSize, t) && SlotsMatch(st[RankCheck(d, st, rho)], slots)
    requires 0 <= GetBoxFromTuple(d.gridSize, t) < |slots|
    requires InSlots(slots, RecvBoxes(d, ax, side))
    requires |IncomingForce(d, st, df, rho, ax, side)| == |LoadForce(slots, RecvBoxes(d, ax, side))|
    ensures ValidCoord(d, NeighborCoord(d, rho, ax, Step(side)))
    ensures t in RecvTuples(d.gridSize, ax, side) ==> ValidTuple(d.gridSize, SourceTuple(d, ax, side, t))
    ensures UnloadForce(slots, RecvBoxes(d, ax, side),
                        IncomingForce(d, st, df, rho, ax, side))[GetBoxFromTuple(d.gridSize, t)]
         == if t in RecvTuples(d.gridSize, ax, side)
            then ForceAt(d, st, df, NeighborCoord(d, rho, ax, Step(side)), SourceTuple(d, ax, side, t))
            else slots[GetBoxFromTuple(d.gridSize, t)]
  {
    var g := d.gridSize;
    var box := GetBoxFromTuple(g, t);
    GridIsValid(d);
    ListsValid(d, ax, side);
    InBoxes(g, RecvTuples(g, ax, side), t);
    OneUnload(d, pop, st, df, rho, ax, side, slots);
    hide SendTuples, RecvTuples, CellAt, Placed, ValidPopulation, PlacedInOrder, RankOf, GetBoxFromTuple, NeighborCoord,
         NRanks, NTotalBoxes, LoadForce, UnloadForce, IncomingForce, ForceAt, ValidForce;
    if t in RecvTuples(g, ax, side) {
      var k :| 0 <= k < |RecvTuples(g, ax, side)| && RecvTuples(g, ax, side)[k] == t;
      PairedCells(d, pop, st, rho, ax, side, k);
      assert RecvBoxes(d, ax, side)[k] == box;
    }
  }

  /** If cell t receives from the given side, it now holds its source's values. */
  predicate CopiedFrom(d: Domain, st: State, df: ForceState, after: ForceState, rho: Triple<int>, ax: Axis,
                       side: Side, t: Triple<int>)
    requires ValidDomain(d) && ValidForce(d, st, df) && ValidForce(d, st, after) && ValidCoord(d, rho)
    requires ValidTuple(d.gridSize, t)
  {
    var nb, u := NeighborCoord(d, rho, ax, Step(side)), SourceTuple(d, ax, side, t);
    t in RecvTuples(d.gridSize, ax, side) ==>
      ValidCoord(d, nb) && ValidTuple(d.gridSize, u) && ForceAt(d, st, after, rho, t) == ForceAt(d, st, df, nb, u)
  }

  /** The values of one cell after both messages of an axis. */
  lemma ForceCellAfter(d: Domain, pop: Population, st: State, df: ForceState, ax: Axis, rho: Triple<int>,
                       t: Triple<int>)
    requires ValidDomain(d) && ValidPopulation(d, pop) && PlacedInOrder(d, pop, st) && ValidForce(d, st, df)
    requires MessagesFit(d, st, df, ax) && ValidForce(d, st, ForceAxis(d, st, df, ax))
    requires ValidCoord(d, rho) && ValidTuple(d.gridSize, t)
    ensures CopiedFrom(d, st, df, ForceAxis(d, st, df, ax), rho, ax, MinusSide, t)
    ensures CopiedFrom(d, st, df, ForceAxis(d, st, df, ax), rho, ax, PlusSide, t)
    ensures t !in RecvTuples(d.gridSize, ax, MinusSide) && t !in RecvTuples(d.gridSize, ax, PlusSide) ==>
              ForceAt(d, st, ForceAxis(d, st, df, ax), rho, t) == ForceAt(d, st, df, rho, t)
  {
    var box := GetBoxFromTuple(d.gridSize, t);
    RankRoundTrip(d, rho);
    CellInRange(d, st, rho, t);
    var slots := df[RankOf(d, rho)];
    SendRegion(d, ax, MinusSide, t);
    SendRegion(d, ax, PlusSide, t);
    OneUnload(d, pop, st, df, rho, ax, MinusSide, slots);
    var mid := UnloadForce(slots, RecvBoxes(d, ax, MinusSide), IncomingForce(d, st, df, rho, ax, MinusSide));
    assert SlotsMatch(st[RankCheck(d, st, rho)], mid);
    OneUnload(d, pop, st, df, rho, ax, PlusSide, mid);
    assert ForceAt(d, st, ForceAxis(d, st, df, ax), rho, t)
        == UnloadForce(mid, RecvBoxes(d, ax, PlusSide), IncomingForce(d, st, df, rho, ax, PlusSide))[box];
    hide SendTuples, RecvTuples, CellAt, Placed, ValidPopulation, PlacedInOrder, RankOf, GetBoxFromTuple, NeighborCoord,
         NRanks, NTotalBoxes, LoadForce, UnloadForce, IncomingForce, ForceAxis, MessagesFit;
    UnloadedCell(d, pop, st, df, rho, ax, MinusSide, slots, t);
    UnloadedCell(d, pop, st, df, rho, ax, PlusSide, mid, t);
  }

  lemma InBoxes(g: Triple<int>, tuples: seq<Triple<int>>, t: Triple<int>)
    requires ValidGrid(g) && Listed(g, tuples) && ValidTuple(g, t)
    ensures t in tuples <==> GetBoxFromTuple(g, t) in Boxes(g, tuples)
  {
    hide GetBoxFromTuple;
    if t in tuples {
      var k :| 0 <= k < |tuples| && tuples[k] == t;
      assert Boxes(g, tuples)[k] == GetBoxFromTuple(g, t);
    }
    if GetBoxFromTuple(g, t) in Boxes(g, tuples) {
      var k :| 0 <= k < |tuples| && Boxes(g, tuples)[k] == GetBoxFromTuple(g, t);
      BoxTupleInjective(g, tuples[k], t);
    }
  }

  /** One axis: values reach the halo planes of the axis, edges included. */
  lemma ForceAxisCarries(d: Domain, pop: Population, st: State, df: ForceState, val: int -> real, ax: Axis)
    requires ValidDomain(d) && ValidPopulation(d, pop) && PlacedInOrder(d, pop, st) && ValidForce(d, st, df)
    requires Carries(d, st, df, val, Done(ax))
    ensures MessagesFit(d, st, df, ax) && ValidForce(d, st, ForceAxis(d, st, df, ax))
    ensures Carries(d, st, ForceAxis(d, st, df, ax), val, Done(ax).With(ax, true))
  {
    AllMessagesFit(d, pop, st, df, ax);
    ForceAxisShape(d, st, df, ax);
    var after := ForceAxis(d, st, df, ax);
    hide SendTuples, RecvTuples, CellAt, Placed, ValidPopulation, PlacedInOrder, NeighborCoord,
         ForceAxis, ForceAt, MessagesFit, ValidForce;
    forall rho: Triple<int>, t: Triple<int> | ValidCoord(d, rho) && InRegion(d.gridSize, Done(ax).With(ax, true), t)
      ensures ForceAt(d, st, after, rho, t) == Values(val, CellAt(d, st, rho, t))
    {
      ForceCellAfter(d, pop, st, df, ax, rho, t);
      SendRegion(d, ax, MinusSide, t);
      SendRegion(d, ax, PlusSide, t);
      if 0 <= t.At(ax) < d.gridSize.At(ax) {
        assert InRegion(d.gridSize, Done(ax), t);
      } else {
        var side := if t.At(ax) == -1 then MinusSide else PlusSide;
        assert t in RecvTuples(d.gridSize, ax, side);
        var nb, u := NeighborCoord(d, rho, ax, Step(side)), SourceTuple(d, ax, side, t);
        SameIds(d, pop, st, rho, ax, side, t);
        ValuesByIds(val, CellAt(d, st, rho, t), CellAt(d, st, nb, u));
        assert InRegion(d.gridSize, Done(ax), u);
        assert ForceAt(d, st, df, nb, u) == Values(val, CellAt(d, st, nb, u));
      }
    }
  }

  /** The force exchange: if every local slot holds the value of its atom, then
      after three axes every slot of every cell, halo cells in all 26 directions
      included, holds the value that the owner of the atom computed. */
  lemma ForceExchangeComplete(d: Domain, pop: Population, st: State, df: ForceState,
                              val: int -> real) returns (after: ForceState)
    requires ValidDomain(d) && ValidPopulation(d, pop) && PlacedInOrder(d, pop, st) && ValidForce(d, st, df)
    requires Carries(d, st, df, val, NONE)
    ensures && MessagesFit(d, st, df, X) && ValidForce(d, st, ForceAxis(d, st, df, X))
            && var onX := ForceAxis(d, st, df, X);
            && MessagesFit(d, st, onX, Y) && ValidForce(d, st, ForceAxis(d, st, onX, Y))
            && var onY := ForceAxis(d, st, onX, Y);
            && MessagesFit(d, st, onY, Z) && after == ForceAxis(d, st, onY, Z)
    ensures ValidForce(d, st, after) && Carries(d, st, after, val, ALL)
  {
    assert Done(X) == NONE && Done(Y) == NONE.With(X, true) && Done(Z) == Done(Y).With(Y, true) &&
           ALL == Done(Z).With(Z, true);
    hide Carries, ForceAxis, MessagesFit, PlacedInOrder, ValidPopulation, ValidForce, Done;
    ForceAxisCarries(d, pop, st, df, val, X);
    var onX := ForceAxis(d, st, df, X);
    ForceAxisCarries(d, pop, st, onX, val, Y);
    var onY := ForceAxis(d, st, onX, Y);
    ForceAxisCarries(d, pop, st, onY, val, Z);
    after := ForceAxis(d, st, onY, Z);
  }
}
