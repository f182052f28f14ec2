/** redistributeAtoms on the link-cell stores of all ranks: every rank re-bins its
    atoms in place, the six messages are loaded, delivered and unloaded axis by
    axis, and every cell is sorted. */
module AllRanks {
  import opened Triples
  import opened LinkCellIndex
  import opened Decomposition
  import opened Atoms
  import opened LinkCells
  import opened Placement
  import opened AtomExchange
  import opened AtomProtocol
  import opened HaloBuffers
  import opened Redistribute

  // ----- the stores of all ranks

  ghost function Memory(stores: seq<LinkCellStore>): set<object> {
    (set k | 0 <= k < |stores| :: stores[k] as object)
    + (set k | 0 <= k < |stores| :: stores[k].nAtoms as object)
    + (set k | 0 <= k < |stores| :: stores[k].atoms as object)
  }

  /** No rank sees the memory of another. */
  ghost predicate Apart(stores: seq<LinkCellStore>) {
    forall i, k :: 0 <= i < k < |stores| ==>
      stores[i] != stores[k] && stores[i].nAtoms != stores[k].nAtoms && stores[i].atoms != stores[k].atoms
  }

  ghost predicate IsRank(d: Domain, s: LinkCellStore, k: int, cells: Cells)
    reads s, s.nAtoms, s.atoms
    requires ValidDomain(d)
  {
    s.Valid() && s.d == d && s.c == ProcCoord(d, k) && s.contents == cells
  }

  /** The stores hold the global state st, rank by rank. */
  ghost predicate Hold(d: Domain, stores: seq<LinkCellStore>, st: State)
    reads Memory(stores)
    requires ValidDomain(d)
  {
    && |stores| == |st| == NRanks(d)
    && Apart(stores)
    && forall k :: 0 <= k < |stores| ==> IsRank(d, stores[k], k, st[k])
  }

  /** The global state that the stores hold. */
  ghost function Contents(stores: seq<LinkCellStore>): State
    reads Memory(stores)
  {
    seq(|stores|, k requires 0 <= k < |stores| reads Memory(stores) => stores[k].contents)
  }

  /** One store for every rank, in rank order. */
  ghost predicate OnePerRank(d: Domain, stores: seq<LinkCellStore>)
    reads Memory(stores)
    requires ValidDomain(d)
    ensures OnePerRank(d, stores) ==> ValidState(d, Contents(stores))
  {
    assert Hold(d, stores, Contents(stores)) ==> ValidState(d, Contents(stores)) by {
      if Hold(d, stores, Contents(stores)) {
        HeldState(d, stores, Contents(stores));
      }
    }
    Hold(d, stores, Contents(stores))
  }

  lemma HeldContents(d: Domain, stores: seq<LinkCellStore>, st: State)
    requires ValidDomain(d) && Hold(d, stores, st)
    ensures OnePerRank(d, stores) && Contents(stores) == st
  {
    forall k | 0 <= k < |st|
      ensures stores[k].contents == st[k]
    {
      assert IsRank(d, stores[k], k, st[k]);
    }
    assert Contents(stores) == st;
  }

  lemma HoldSize(d: Domain, stores: seq<LinkCellStore>, st: State)
    requires ValidDomain(d) && Hold(d, stores, st)
    ensures |stores| == |st|
  {
  }

  lemma HeldState(d: Domain, stores: seq<LinkCellStore>, st: State)
    requires ValidDomain(d) && Hold(d, stores, st)
    ensures ValidState(d, st)
  {
    forall k | 0 <= k < |st|
      ensures |st[k]| == NTotalBoxes(d.gridSize)
    {
      assert IsRank(d, stores[k], k, st[k]);
    }
  }

  // ----- room in the cells

  /** No cell is over its capacity. */
  ghost predicate Fits(st: State) {
    forall k, j :: 0 <= k < |st| && 0 <= j < |st[k]| ==> |st[k][j]| <= MAXATOMS
  }

  /** What rank k has after unloading the first of the two messages of an axis. */
  ghost function Halfway(d: Domain, st: State, rho: Triple<int>, ax: Axis): Cells
    requires ValidDomain(d) && ValidState(d, st) && ValidCoord(d, rho) && CanDeliver(d, st, ax)
  {
    PutAll(d, rho, st[RankCheck(d, st, rho)], Incoming(d, st, rho, ax, MinusSide))
  }

  /** Cells only grow, so room for the outcome is room for both messages. */
  lemma RoomForBoth(d: Domain, st: State, rho: Triple<int>, ax: Axis)
    requires ValidDomain(d) && ValidState(d, st) && ValidCoord(d, rho) && CanDeliver(d, st, ax)
    requires Fits([RankAfter(d, st, rho, ax)])
    ensures var cells := st[RankCheck(d, st, rho)];
            var inM, inP := Incoming(d, st, rho, ax, MinusSide), Incoming(d, st, rho, ax, PlusSide);
            && Deliverable(d, rho, cells, inM) && RoomFor(d, rho, cells, inM)
            && Deliverable(d, rho, Halfway(d, st, rho, ax), inP) && RoomFor(d, rho, Halfway(d, st, rho, ax), inP)
            && PutAll(d, rho, Halfway(d, st, rho, ax), inP) == RankAfter(d, st, rho, ax)
  {
    var cells := st[RankCheck(d, st, rho)];
    var inM, inP := Incoming(d, st, rho, ax, MinusSide), Incoming(d, st, rho, ax, PlusSide);
    assert Deliverable(d, rho, cells, inM) && Deliverable(d, rho, cells, inP);
    hide BoxOf, Reachable, PutAll, Arrivals, Incoming, RankCheck, CanDeliver;
    var half := Halfway(d, st, rho, ax);
    var full := RankAfter(d, st, rho, ax);
    assert [full][0] == full;
    forall j | 0 <= j < |cells|
      ensures |cells[j]| + |Arrivals(d, rho, inM, j)| <= MAXATOMS
      ensures |half[j]| + |Arrivals(d, rho, inP, j)| <= MAXATOMS
    {
      PutAllCells(d, rho, cells, inM, j);
      PutAllCells(d, rho, half, inP, j);
      assert |[full][0][j]| <= MAXATOMS;
    }
  }

  // ----- exchangeData

  /** An exchange along the axis leads from st to after, and after fits the cells. */
  ghost predicate Exchanging(d: Domain, st: State, ax: Axis, after: State) {
    && ValidDomain(d) && ValidState(d, st) && CanDeliver(d, st, ax)
    && after == ExchangeAxis(d, st, ax) && Fits(after)
    && |st| == |after| == NRanks(d)
  }

  /** What rank k sends across a face. */
  ghost predicate Sent(d: Domain, st: State, ax: Axis, side: Side, k: int, msg: seq<Atom>) {
    && ValidDomain(d) && ValidState(d, st) && 0 <= k < |st|
    && ValidCoord(d, ProcCoord(d, k))
    && msg == Outgoing(d, st, ProcCoord(d, k), ax, side)
  }

  /** What rank k receives through a face. */
  ghost predicate Received(d: Domain, st: State, ax: Axis, side: Side, k: int, msg: seq<Atom>) {
    && ValidDomain(d) && ValidState(d, st) && 0 <= k < |st|
    && ValidCoord(d, ProcCoord(d, k))
    && msg == Incoming(d, st, ProcCoord(d, k), ax, side)
  }

  ghost predicate AllSent(d: Domain, st: State, ax: Axis, side: Side, n: nat, msgs: seq<seq<Atom>>) {
    |msgs| == n && forall k :: 0 <= k < n ==> Sent(d, st, ax, side, k, msgs[k])
  }

  ghost predicate Unloadable(s: LinkCellStore, buf: seq<Atom>)
    reads s, s.nAtoms, s.atoms
  {
    s.Valid() && Deliverable(s.d, s.c, s.contents, buf) && RoomFor(s.d, s.c, s.contents, buf)
  }

  lemma RankOfResult(d: Domain, st: State, ax: Axis, after: State, k: nat)
    requires Exchanging(d, st, ax, after) && k < |st|
    ensures ValidCoord(d, ProcCoord(d, k)) && RankCheck(d, st, ProcCoord(d, k)) == k
    ensures after[k] == RankAfter(d, st, ProcCoord(d, k), ax)
    ensures Fits([RankAfter(d, st, ProcCoord(d, k), ax)])
  {
    CoordRoundTrip(d, k);
    assert forall j :: 0 <= j < |after[k]| ==> |after[k][j]| <= MAXATOMS;
  }

  /** Both messages find room, and unloading them in turn gives the outcome. */
  lemma Unloading(d: Domain, s: LinkCellStore, k: nat, ax: Axis, st: State, after: State, recvM: seq<Atom>,
                  recvP: seq<Atom>)
    requires Exchanging(d, st, ax, after) && k < |st| && IsRank(d, s, k, st[k])
    requires Received(d, st, ax, MinusSide, k, recvM) && Received(d, st, ax, PlusSide, k, recvP)
    ensures Unloadable(s, recvM)
    ensures var half := PutAll(s.d, s.c, s.contents, recvM);
            && Deliverable(s.d, s.c, half, recvP) && RoomFor(s.d, s.c, half, recvP)
            && after[k] == PutAll(s.d, s.c, half, recvP)
  {
    hide Fits, CanDeliver, ExchangeAxis, RankAfter, RankCheck, Incoming, ProcCoord, Deliverable, RoomFor;
    RankOfResult(d, st, ax, after, k);
    RoomForBoth(d, st, ProcCoord(d, k), ax);
  }

  /** One rank's receives: the message from the minus side is unloaded first. */
  method Receive(s: LinkCellStore, ghost d: Domain, ghost k: nat, ghost ax: Axis, ghost st: State, ghost after: State,
                 recvM: seq<Atom>, recvP: seq<Atom>)
    requires Exchanging(d, st, ax, after) && k < |st| && IsRank(d, s, k, st[k])
    requires Received(d, st, ax, MinusSide, k, recvM) && Received(d, st, ax, PlusSide, k, recvP)
    modifies s, s.nAtoms, s.atoms
    ensures IsRank(d, s, k, after[k])
  {
    Unloading(d, s, k, ax, st, after, recvM, recvP);
    hide Fits, CanDeliver, ExchangeAxis, Received, Deliverable, RoomFor, PutAll, ProcCoord, ValidState;
    UnloadAtomsBuffer(s, recvM);
    UnloadAtomsBuffer(s, recvP);
  }

  /** loadBuffer for one face of one rank. */
  method SendTo(s: LinkCellStore, k: nat, d: Domain, ax: Axis, side: Side, ghost st: State) returns (msg: seq<Atom>)
    requires ValidDomain(d) && ValidState(d, st) && k < |st| && IsRank(d, s, k, st[k])
    ensures Sent(d, st, ax, side, k, msg)
  {
    CoordRoundTrip(d, k);
    AtomBoxesInRange(d, ax, side);
    GridIsValid(d);
    hide NTotalBoxes, NLocalBoxes, NRanks, RankOf, AtomTuples, Load, GetBoxFromTuple;
    var cellList := MkAtomCellList(d.gridSize, ax, side);
    msg := LoadAtomsBuffer(s, cellList, PbcShift(d, s.c, ax, side));
  }

  /** The messages of all ranks across one kind of face. */
  method SendAll(d: Domain, stores: seq<LinkCellStore>, ax: Axis, side: Side, ghost st: State)
    returns (msgs: seq<seq<Atom>>)
    requires ValidDomain(d) && Hold(d, stores, st) && ValidState(d, st)
    ensures AllSent(d, st, ax, side, |stores|, msgs)
  {
    hide NTotalBoxes, NLocalBoxes, NRanks, RankOf, ProcCoord, IsRank, Sent, ValidDomain;
    msgs := [];
    var k := 0;
    while k < |stores|
      invariant 0 <= k <= |stores| && AllSent(d, st, ax, side, k, msgs)
    {
      assert IsRank(d, stores[k], k, st[k]);
      var m := SendTo(stores[k], k, d, ax, side, st);
      msgs := msgs + [m];
      k := k + 1;
    }
  }

  /** The rank across a face: it exists, and what it sent across its opposite face
      is what arrives here. */
  lemma SenderIsNeighbor(d: Domain, s: LinkCellStore, k: nat, ax: Axis, side: Side, st: State, msgs: seq<seq<Atom>>)
    requires ValidDomain(d) && ValidState(d, st) && k < |st| && IsRank(d, s, k, st[k])
    requires AllSent(d, st, ax, Opposite(side), |st|, msgs)
    ensures 0 <= ProcessorNum(d, s.c, Along(ax, Step(side))) < |msgs|
    ensures Received(d, st, ax, side, k, msgs[ProcessorNum(d, s.c, Along(ax, Step(side)))])
  {
    CoordRoundTrip(d, k);
    ProcessorNumNeighbors(d, s.c, ax, Step(side));
    var from := ProcessorNum(d, s.c, Along(ax, Step(side)));
    hide ProcessorNum, NRanks, RankOf, ProcCoord, NeighborCoord, Outgoing;
    assert Sent(d, st, ax, Opposite(side), from, msgs[from]);
  }

  /** One rank looks up its neighbours and unloads what they sent it. */
  method ReceiveFrom(d: Domain, s: LinkCellStore, k: nat, ax: Axis, ghost st: State, ghost after: State,
                     sendM: seq<seq<Atom>>, sendP: seq<seq<Atom>>)
    requires Exchanging(d, st, ax, after) && k < |st| && IsRank(d, s, k, st[k])
    requires AllSent(d, st, ax, MinusSide, |st|, sendM) && AllSent(d, st, ax, PlusSide, |st|, sendP)
    modifies s, s.nAtoms, s.atoms
    ensures IsRank(d, s, k, after[k])
  {
    hide Fits, CanDeliver, ExchangeAxis, ProcCoord, IsRank, ProcessorNum, Received, ValidState, AllSent, NRanks;
    SenderIsNeighbor(d, s, k, ax, MinusSide, st, sendP);
    SenderIsNeighbor(d, s, k, ax, PlusSide, st, sendM);
    var nbrM := ProcessorNum(d, s.c, Along(ax, Step(MinusSide)));
    var nbrP := ProcessorNum(d, s.c, Along(ax, Step(PlusSide)));
    Receive(s, d, k, ax, st, after, sendP[nbrM], sendM[nbrP]);
  }

  /** The first n ranks have got as far as after. */
  ghost predicate Underway(d: Domain, stores: seq<LinkCellStore>, st: State, after: State, n: nat)
    reads Memory(stores)
  {
    && ValidDomain(d)
    && n <= |stores| == |st| == |after| == NRanks(d)
    && Apart(stores)
    && forall k :: 0 <= k < |stores| ==> IsRank(d, stores[k], k, if k < n then after[k] else st[k])
  }

  method RankTurn(d: Domain, stores: seq<LinkCellStore>, k: nat, ax: Axis, ghost st: State, ghost after: State,
                  sendM: seq<seq<Atom>>, sendP: seq<seq<Atom>>)
    requires Exchanging(d, st, ax, after) && k < |stores| && Underway(d, stores, st, after, k)
    requires AllSent(d, st, ax, MinusSide, |st|, sendM) && AllSent(d, st, ax, PlusSide, |st|, sendP)
    modifies stores[k], stores[k].nAtoms, stores[k].atoms
    ensures Underway(d, stores, st, after, k + 1)
  {
    hide Exchanging, ValidDomain, IsRank, AllSent, NRanks;
    assert IsRank(d, stores[k], k, st[k]);
    ReceiveFrom(d, stores[k], k, ax, st, after, sendM, sendP);
    forall i | 0 <= i < |stores|
      ensures IsRank(d, stores[i], i, if i < k + 1 then after[i] else st[i])
    {
      if i != k {
        assert old(IsRank(d, stores[i], i, if i < k then after[i] else st[i]));
      }
    }
  }

  /** exchangeData on all ranks: every rank loads its two messages for the axis,
      the messages change hands, and every rank unloads the two it receives. */
  method ExchangeData(d: Domain, stores: seq<LinkCellStore>, ax: Axis, ghost st: State, ghost after: State)
    requires ValidDomain(d) && Hold(d, stores, st) && Exchanging(d, st, ax, after)
    modifies Memory(stores)
    ensures Hold(d, stores, after)
  {
    hide Fits, CanDeliver, ExchangeAxis, ProcCoord, IsRank, ValidState, ValidDomain, AllSent, NRanks;
    var sendM := SendAll(d, stores, ax, MinusSide, st);
    var sendP := SendAll(d, stores, ax, PlusSide, st);
    var k := 0;
    while k < |stores|
      invariant Underway(d, stores, st, after, k)
    {
      RankTurn(d, stores, k, ax, st, after, sendM, sendP);
      k := k + 1;
    }
  }

  // ----- re-binning on every rank

  /** The local atoms of one rank can all be re-binned. */
  ghost predicate CanRebin(d: Domain, c: Triple<int>, cells: Cells) {
    && ValidDomain(d)
    && 0 <= NLocalBoxes(d.gridSize) <= |cells|
    && forall j, i :: 0 <= j < NLocalBoxes(d.gridSize) && 0 <= i < |cells[j]| ==> Reachable(d, c, cells[j][i])
  }

  ghost predicate CanRebinAt(d: Domain, st: State, k: int) {
    ValidDomain(d) && 0 <= k < |st| && CanRebin(d, ProcCoord(d, k), st[k])
  }

  ghost predicate RebinnedAt(d: Domain, st: State, mid: State, k: int) {
    ValidDomain(d) && 0 <= k < |st| == |mid| && RebinnedRank(d, ProcCoord(d, k), st[k], mid[k])
  }

  /** The first n ranks are re-binned, the others as before. */
  ghost predicate RebinnedTo(d: Domain, st: State, mid: State, n: nat) {
    && n <= |st| == |mid|
    && (forall i :: 0 <= i < n ==> RebinnedAt(d, st, mid, i))
    && forall i :: n <= i < |st| ==> mid[i] == st[i]
  }

  lemma RebinOne(d: Domain, st: State, mid: State, k: nat, cells: Cells, next: State)
    requires ValidDomain(d) && k < |st| == |mid| && next == mid[k := cells]
    requires RebinnedRank(d, ProcCoord(d, k), st[k], cells) && RebinnedTo(d, st, mid, k)
    ensures RebinnedTo(d, st, next, k + 1)
  {
    hide RebinnedRank, ProcCoord, ValidDomain;
    forall i | 0 <= i < k + 1
      ensures RebinnedAt(d, st, next, i)
    {
      assert i < k ==> RebinnedAt(d, st, mid, i);
    }
  }

  /** Re-binning cannot fill a cell of rank k. */
  ghost predicate RoomAt(d: Domain, st: State, k: int) {
    && ValidDomain(d) && 0 <= k < |st| && 0 <= NLocalBoxes(d.gridSize) <= |st[k]|
    && RoomToRebin(d, ProcCoord(d, k), st[k], NLocalBoxes(d.gridSize))
  }

  method UpdateRank(s: LinkCellStore, ghost d: Domain, ghost k: nat, ghost cells: Cells)
    returns (ok: bool, ghost after: Cells)
    requires ValidDomain(d) && IsRank(d, s, k, cells) && CanRebin(d, ProcCoord(d, k), cells)
    modifies s, s.nAtoms, s.atoms
    ensures IsRank(d, s, k, after)
    ensures ok ==> RebinnedRank(d, ProcCoord(d, k), cells, after)
    ensures RoomToRebin(d, ProcCoord(d, k), cells, NLocalBoxes(d.gridSize)) ==> ok
  {
    hide NTotalBoxes, NLocalBoxes, RoomToRebin, Reachable, ProcCoord, InPlace, Total, CountAll, Occupied;
    ok := s.UpdateLinkCells();
    after := s.contents;
  }

  lemma AllRebinned(d: Domain, st: State, mid: State)
    requires ValidDomain(d) && ValidState(d, st) && ValidState(d, mid) && RebinnedTo(d, st, mid, |st|)
    ensures Rebinned(d, st, mid)
  {
    hide RebinnedRank, ProcCoord, ValidState;
    forall k | 0 <= k < |st|
      ensures RebinnedRank(d, ProcCoord(d, k), st[k], mid[k])
    {
      assert RebinnedAt(d, st, mid, k);
    }
  }

  method UpdateTurn(d: Domain, stores: seq<LinkCellStore>, k: nat, ghost st: State, ghost mid: State)
    returns (ok: bool, ghost next: State)
    requires ValidDomain(d) && Hold(d, stores, mid) && k < |stores| && RebinnedTo(d, st, mid, k) && CanRebinAt(d, st, k)
    modifies stores[k], stores[k].nAtoms, stores[k].atoms
    ensures Hold(d, stores, next)
    ensures ok ==> RebinnedTo(d, st, next, k + 1)
    ensures RoomAt(d, st, k) ==> ok
  {
    hide NRanks, NLocalBoxes, NTotalBoxes, ProcCoord, IsRank, ValidDomain, CanRebin, RoomToRebin, RebinnedRank,
         RebinnedAt;
    assert IsRank(d, stores[k], k, mid[k]);
    ghost var cells;
    ok, cells := UpdateRank(stores[k], d, k, st[k]);
    next := mid[k := cells];
    if ok {
      RebinOne(d, st, mid, k, cells, next);
    }
    forall i | 0 <= i < |stores|
      ensures IsRank(d, stores[i], i, next[i])
    {
      if i != k {
        assert old(IsRank(d, stores[i], i, mid[i]));
      }
    }
  }

  lemma StoreInMemory(d: Domain, stores: seq<LinkCellStore>, st: State, k: nat)
    requires ValidDomain(d) && Hold(d, stores, st) && k < |stores|
    ensures stores[k] in Memory(stores) && stores[k].nAtoms in Memory(stores) && stores[k].atoms in Memory(stores)
  {
  }

  /** updateLinkCells on every rank, until an assertion fails on one. */
  method UpdateAll(d: Domain, stores: seq<LinkCellStore>, ghost st: State) returns (ok: bool, ghost mid: State)
    requires ValidDomain(d) && Hold(d, stores, st) && |stores| == |st|
    requires forall k :: 0 <= k < |st| ==> CanRebinAt(d, st, k)
    modifies Memory(stores)
    ensures Hold(d, stores, mid) && (ok ==> Rebinned(d, st, mid))
    ensures (forall k :: 0 <= k < |st| ==> RoomAt(d, st, k)) ==> ok
  {
    hide *;
    NoneRebinned(d, st);
    HeldState(d, stores, st);
    ok, mid := true, st;
    var k := 0;
    while k < |stores|
      invariant ok && 0 <= k <= |stores| && Hold(d, stores, mid) && RebinnedTo(d, st, mid, k)
    {
      StoreInMemory(d, stores, mid, k);
      ok, mid := UpdateTurn(d, stores, k, st, mid);
      if !ok {
        return;
      }
      k := k + 1;
    }
    HeldState(d, stores, mid);
    AllRebinned(d, st, mid);
  }

  lemma NoneRebinned(d: Domain, st: State)
    ensures RebinnedTo(d, st, st, 0)
  {
  }

  // ----- sorting on every rank

  ghost predicate Sorted(cells: Cells, now: Cells) {
    |now| == |cells| && forall j :: 0 <= j < |cells| ==> now[j] == SortById(cells[j])
  }

  method SortRank(s: LinkCellStore, ghost d: Domain, ghost k: nat, ghost cells: Cells) returns (ghost after: Cells)
    requires ValidDomain(d) && IsRank(d, s, k, cells)
    requires forall j :: 0 <= j < |cells| ==> DistinctGids(cells[j])
    modifies s`contents, s.atoms
    ensures IsRank(d, s, k, after) && Sorted(cells, after)
  {
    hide NTotalBoxes, NLocalBoxes, ProcCoord, SortById, DistinctGids;
    var ii := 0;
    while ii < s.nTotalBoxes
      invariant 0 <= ii <= s.nTotalBoxes && s.Valid() && |s.contents| == |cells|
      invariant forall j :: 0 <= j < |cells| ==> s.contents[j] == if j < ii then SortById(cells[j]) else cells[j]
    {
      SortAtomsInCell(s, ii);
      ii := ii + 1;
    }
    after := s.contents;
  }

  ghost predicate CanSort(st: State) {
    forall k, j :: 0 <= k < |st| && 0 <= j < |st[k]| ==> DistinctGids(st[k][j])
  }

  /** sortAtomsInCell for every cell of every rank. */
  method SortAll(d: Domain, stores: seq<LinkCellStore>, ghost st: State) returns (ghost after: State)
    requires ValidDomain(d) && Hold(d, stores, st) && CanSort(st)
    modifies Memory(stores)
    ensures Hold(d, stores, after) && SortedFrom(d, st, after)
  {
    HeldState(d, stores, st);
    hide NRanks, ProcCoord, IsRank, ValidDomain, DistinctGids, Sorted, ValidState, SortedFrom, SortById;
    after := st;
    var k := 0;
    while k < |stores|
      invariant 0 <= k <= |stores| && |after| == |st|
      invariant Hold(d, stores, after)
      invariant forall i :: 0 <= i < k ==> Sorted(st[i], after[i])
      invariant forall i :: k <= i < |st| ==> after[i] == st[i]
    {
      assert IsRank(d, stores[k], k, st[k]);
      ghost var cells := SortRank(stores[k], d, k, st[k]);
      after := after[k := cells];
      k := k + 1;
    }
    HeldState(d, stores, after);
    AllSorted(d, st, after);
  }

  lemma AllSorted(d: Domain, st: State, after: State)
    requires ValidDomain(d) && ValidState(d, st) && ValidState(d, after)
    requires forall k :: 0 <= k < |st| ==> Sorted(st[k], after[k])
    ensures SortedFrom(d, st, after)
  {
    hide SortById, ValidDomain;
  }

  // ----- what the population guarantees

  /** No cell has more images than slots. */
  ghost predicate RoomForImages(d: Domain, pop: Population)
    requires ValidDomain(d)
  {
    forall rho: Triple<int>, t: Triple<int>, s: seq<Atom> ::
      ValidCoord(d, rho) && ValidTuple(d.gridSize, t) && HoldsExactly(d, pop, ALL, rho, t, s) ==> |s| <= MAXATOMS
  }

  /** Every cell of every rank is the cell of some tuple. */
  lemma CellOfBox(d: Domain, st: State, k: nat, j: nat)
    requires ValidDomain(d) && ValidState(d, st) && k < |st| && j < |st[k]|
    ensures ValidGrid(d.gridSize)
    ensures ValidCoord(d, ProcCoord(d, k)) && ValidTuple(d.gridSize, GetTuple(d.gridSize, j))
    ensures CellAt(d, st, ProcCoord(d, k), GetTuple(d.gridSize, j)) == st[k][j]
  {
    GridIsValid(d);
    CoordRoundTrip(d, k);
    BoxRoundTrip(d.gridSize, j);
  }

  lemma ImagesFit(d: Domain, pop: Population, st: State)
    requires ValidDomain(d) && ValidState(d, st) && Placed(d, pop, ALL, st) && RoomForImages(d, pop)
    ensures Fits(st) && CanSort(st)
  {
    hide Expected, GetTuple, GetBoxFromTuple, ProcCoord, CellAt, NRanks, NTotalBoxes, ValidCoord, ValidTuple;
    forall k, j | 0 <= k < |st| && 0 <= j < |st[k]|
      ensures |st[k][j]| <= MAXATOMS && DistinctGids(st[k][j])
    {
      CellOfBox(d, st, k, j);
      assert HoldsExactly(d, pop, ALL, ProcCoord(d, k), GetTuple(d.gridSize, j), st[k][j]);
    }
  }

  /** Cells only grow during an exchange. */
  lemma ExchangeGrows(d: Domain, st: State, ax: Axis)
    requires ValidDomain(d) && ValidState(d, st) && CanDeliver(d, st, ax) && Fits(ExchangeAxis(d, st, ax))
    ensures Fits(st)
  {
    var after := ExchangeAxis(d, st, ax);
    forall k, j | 0 <= k < |st| && 0 <= j < |st[k]|
      ensures |st[k][j]| <= MAXATOMS
    {
      CellGrows(d, st, ax, k, j);
      assert |after[k][j]| <= MAXATOMS;
    }
  }

  lemma CellGrows(d: Domain, st: State, ax: Axis, k: nat, j: nat)
    requires ValidDomain(d) && ValidState(d, st) && CanDeliver(d, st, ax) && k < |st| && j < |st[k]|
    ensures k < |ExchangeAxis(d, st, ax)| && j < |ExchangeAxis(d, st, ax)[k]|
    ensures |st[k][j]| <= |ExchangeAxis(d, st, ax)[k][j]|
  {
    CoordRoundTrip(d, k);
    var rho := ProcCoord(d, k);
    var inM, inP := Incoming(d, st, rho, ax, MinusSide), Incoming(d, st, rho, ax, PlusSide);
    assert Deliverable(d, rho, st[RankCheck(d, st, rho)], inM) && Deliverable(d, rho, st[RankCheck(d, st, rho)], inP);
    assert ExchangeAxis(d, st, ax)[k] == RankAfter(d, st, rho, ax);
    hide ExchangeAxis, BoxOf, Reachable, PutAll, Arrivals, Incoming, CanDeliver;
    PutAllCells(d, rho, st[k], inM, j);
    PutAllCells(d, rho, Halfway(d, st, rho, ax), inP, j);
  }

  /** Local atoms within a cell of their owner's brick can be re-binned. */
  lemma OwnedCanRebin(d: Domain, pop: Population, st: State, k: nat)
    requires ValidDomain(d) && ValidPopulation(d, pop) && ValidState(d, st) && OwnedBy(d, pop, st) && k < |st|
    ensures CanRebinAt(d, st, k)
  {
    GridIsValid(d);
    CoordRoundTrip(d, k);
    var rho := ProcCoord(d, k);
    hide NLocalBoxes, RoomToRebin, Reachable, ProcCoord, NRanks, NTotalBoxes, Near;
    forall j, i | 0 <= j < NLocalBoxes(d.gridSize) && 0 <= i < |st[k][j]|
      ensures Reachable(d, rho, st[k][j][i])
    {
      var a := st[k][j][i];
      InTotal(st[k], NLocalBoxes(d.gridSize), a);
      assert OwnsOnce(d, pop, st, rho, a);
      NearIsReachable(d, rho, a);
    }
  }

  // ----- redistributeAtoms

  /** What the three axes lead to, and that every stage fits the cells. */
  lemma HaloStages(d: Domain, pop: Population, mid: State) returns (onX: State, onY: State, halo: State)
    requires ValidDomain(d) && ValidPopulation(d, pop) && ValidState(d, mid) && Placed(d, pop, NONE, mid)
    requires RoomForImages(d, pop)
    ensures Exchanging(d, mid, X, onX) && Exchanging(d, onX, Y, onY) && Exchanging(d, onY, Z, halo)
    ensures HaloExchanged(d, mid, halo) && CanSort(halo)
  {
    halo := HaloExchangeComplete(d, pop, mid);
    onX := ExchangeAxis(d, mid, X);
    onY := ExchangeAxis(d, onX, Y);
    ImagesFit(d, pop, halo);
    assert ValidState(d, onX) && ValidState(d, onY) && ValidState(d, halo);
    assert CanDeliver(d, onX, Y) && CanDeliver(d, onY, Z);
    hide CanDeliver, ExchangeAxis, Fits, Placed, RoomForImages, ValidPopulation, HaloExchanged;
    ExchangeGrows(d, onY, Z);
    ExchangeGrows(d, onX, Y);
  }

  /** haloExchange on all ranks. */
  method HaloExchange(d: Domain, stores: seq<LinkCellStore>, ghost pop: Population, ghost mid: State)
    returns (ghost halo: State)
    requires ValidDomain(d) && Hold(d, stores, mid) && ValidState(d, mid)
    requires ValidPopulation(d, pop) && Placed(d, pop, NONE, mid) && RoomForImages(d, pop)
    modifies Memory(stores)
    ensures Hold(d, stores, halo) && HaloExchanged(d, mid, halo) && CanSort(halo)
  {
    ghost var onX, onY, onZ := HaloStages(d, pop, mid);
    hide *;
    ExchangeData(d, stores, X, mid, onX);
    ExchangeData(d, stores, Y, onX, onY);
    ExchangeData(d, stores, Z, onY, onZ);
    halo := onZ;
  }

  /** Every cell of every rank has room to re-bin its rank's atoms. */
  ghost predicate RoomToRebinAll(d: Domain, st: State) {
    forall k :: 0 <= k < |st| ==> RoomAt(d, st, k)
  }

  lemma AllCanRebin(d: Domain, pop: Population, st: State)
    requires ValidDomain(d) && ValidPopulation(d, pop) && ValidState(d, st) && OwnedBy(d, pop, st)
    ensures forall k :: 0 <= k < |st| ==> CanRebinAt(d, st, k)
  {
    GridIsValid(d);
    hide OwnedBy, ValidPopulation, CanRebinAt, RoomToRebin, NLocalBoxes, NTotalBoxes, ProcCoord;
    forall k | 0 <= k < |st|
      ensures CanRebinAt(d, st, k)
    {
      OwnedCanRebin(d, pop, st, k);
    }
  }

  lemma Chained(d: Domain, pop: Population, st: State, mid: State, halo: State, after: State)
    requires ValidDomain(d) && ValidPopulation(d, pop) && ValidState(d, st) && OwnedBy(d, pop, st)
    requires Rebinned(d, st, mid) && HaloExchanged(d, mid, halo) && SortedFrom(d, halo, after)
    ensures Redistributed(d, st, after) && PlacedInOrder(d, pop, after)
  {
    hide OwnedBy, ValidPopulation, Rebinned, HaloExchanged, SortedFrom, PlacedInOrder, ValidState;
    assert Redistributed(d, st, after);
    RedistributeCorrect(d, pop, st, after);
  }

  /** redistributeAtoms on all ranks.  From stores whose local cells hold the atoms
      their ranks own, none further than one cell outside its owner's brick, the
      loops and messages, unless an assertion on a full cell ends the program, end with
      every local and halo cell of every rank holding exactly the periodic images that
      lie in it, once each and sorted by id. */
  method RedistributeAtoms(d: Domain, stores: seq<LinkCellStore>, ghost pop: Population) returns (ok: bool)
    requires ValidDomain(d) && OnePerRank(d, stores)
    requires ValidPopulation(d, pop) && OwnedBy(d, pop, Contents(stores)) && RoomForImages(d, pop)
    modifies Memory(stores)
    ensures OnePerRank(d, stores)
    ensures RoomToRebinAll(d, old(Contents(stores))) ==> ok
    ensures ok ==> Redistributed(d, old(Contents(stores)), Contents(stores))
    ensures ok ==> PlacedInOrder(d, pop, Contents(stores))
  {
    hide OwnedBy, ValidPopulation, RoomForImages, Rebinned, HaloExchanged, SortedFrom, PlacedInOrder, CanRebinAt,
         CanSort, ValidState, Hold, Placed, RoomAt, ValidDomain, Contents, Redistributed;
    ghost var st := Contents(stores);
    AllCanRebin(d, pop, st);
    HoldSize(d, stores, st);
    ghost var mid;
    ok, mid := UpdateAll(d, stores, st);
    HeldContents(d, stores, mid);
    if !ok {
      return;
    }
    RebinnedPlaced(d, pop, st, mid);
    HeldState(d, stores, mid);
    ghost var halo := HaloExchange(d, stores, pop, mid);
    ghost var after := SortAll(d, stores, halo);
    Chained(d, pop, st, mid, halo, after);
    HeldContents(d, stores, after);
  }
}
