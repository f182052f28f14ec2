/** The force halo exchange on the arrays of all ranks: six messages of bare
    numbers per rank, loaded, delivered and unloaded axis by axis. */
module AllForces {
  import opened Triples
  import opened LinkCellIndex
  import opened Decomposition
  import opened Atoms
  import opened CellLists
  import opened Placement
  import opened AtomExchange
  import opened AtomProtocol
  import opened Redistribute
  import opened ForceExchange
  import opened ForceBuffers

  /** What the message functions of a rank get: occupancies and values. */
  datatype ForceData = ForceData(nAtoms: array<nat>, dfEmbed: array<real>)

  ghost function Arrays(ranks: seq<ForceData>): set<object> {
    (set k | 0 <= k < |ranks| :: ranks[k].nAtoms as object) + (set k | 0 <= k < |ranks| :: ranks[k].dfEmbed as object)
  }

  ghost function ValueArrays(ranks: seq<ForceData>): set<array<real>> {
    set k | 0 <= k < |ranks| :: ranks[k].dfEmbed
  }

  /** No rank sees the values of another. */
  ghost predicate OwnArrays(ranks: seq<ForceData>) {
    forall i, k :: 0 <= i < k < |ranks| ==> ranks[i].dfEmbed != ranks[k].dfEmbed
  }

  ghost predicate ShowsRank(r: ForceData, slots: Slots)
    reads r.nAtoms, r.dfEmbed
  {
    Shows(r.nAtoms, r.dfEmbed, slots)
  }

  /** The arrays hold the values df, rank by rank. */
  ghost predicate HoldForces(d: Domain, ranks: seq<ForceData>, df: ForceState)
    reads Arrays(ranks)
  {
    && |ranks| == |df| == NRanks(d)
    && OwnArrays(ranks)
    && forall k :: 0 <= k < |ranks| ==> ShowsRank(ranks[k], df[k])
  }

  /** An exchange along the axis leads from df to after. */
  ghost predicate ForceAxisTo(d: Domain, st: State, df: ForceState, ax: Axis, after: ForceState) {
    && ValidDomain(d) && ValidForce(d, st, df) && MessagesFit(d, st, df, ax)
    && after == ForceAxis(d, st, df, ax)
    && |df| == |after| == NRanks(d)
  }

  /** What rank k sends across a face. */
  ghost predicate SentForce(d: Domain, df: ForceState, ax: Axis, side: Side, k: int, msg: seq<real>) {
    && 0 <= k < |df|
    && InSlots(df[k], SendBoxes(d, ax, side))
    && msg == LoadForce(df[k], SendBoxes(d, ax, side))
  }

  /** What rank k receives through a face. */
  ghost predicate ReceivedForce(d: Domain, st: State, df: ForceState, ax: Axis, side: Side, k: int, msg: seq<real>) {
    && ValidDomain(d) && ValidForce(d, st, df) && 0 <= k < |df|
    && ValidCoord(d, ProcCoord(d, k))
    && msg == IncomingForce(d, st, df, ProcCoord(d, k), ax, side)
  }

  ghost predicate AllSentForce(d: Domain, df: ForceState, ax: Axis, side: Side, n: nat, msgs: seq<seq<real>>) {
    |msgs| == n && forall k :: 0 <= k < n ==> SentForce(d, df, ax, side, k, msgs[k])
  }

  lemma SendInSlots(d: Domain, st: State, df: ForceState, ax: Axis, side: Side, k: nat)
    requires ValidDomain(d) && ValidForce(d, st, df) && k < |df|
    ensures ValidGrid(d.gridSize)
    ensures InSlots(df[k], SendBoxes(d, ax, side)) && InSlots(df[k], RecvBoxes(d, ax, side))
  {
    GridIsValid(d);
    CoordRoundTrip(d, k);
    ListsValid(d, ax, side);
    hide SendTuples, RecvTuples, RankOf, NRanks, NTotalBoxes, GetBoxFromTuple, ProcCoord;
    ListedInSlots(d, st, df, ProcCoord(d, k), SendTuples(d.gridSize, ax, side));
    ListedInSlots(d, st, df, ProcCoord(d, k), RecvTuples(d.gridSize, ax, side));
  }

  method SendForce(r: ForceData, sendCells: seq<int>, ghost d: Domain, ghost ax: Axis, ghost side: Side, ghost k: nat,
                   ghost st: State, ghost df: ForceState) returns (msg: seq<real>)
    requires ValidDomain(d) && ValidForce(d, st, df) && k < |df|
    requires ShowsRank(r, df[k]) && sendCells == SendBoxes(d, ax, side)
    ensures SentForce(d, df, ax, side, k, msg)
  {
    SendInSlots(d, st, df, ax, side, k);
    hide ValidDomain, ValidForce, Shows, InSlots, LoadForce, SendBoxes;
    msg := LoadForceBuffer(r.nAtoms, r.dfEmbed, sendCells, df[k]);
  }

  lemma SentOneMore(d: Domain, df: ForceState, ax: Axis, side: Side, k: nat, msgs: seq<seq<real>>, m: seq<real>)
    requires AllSentForce(d, df, ax, side, k, msgs) && SentForce(d, df, ax, side, k, m)
    ensures AllSentForce(d, df, ax, side, k + 1, msgs + [m])
  {
    hide SentForce;
  }

  lemma HeldSizes(d: Domain, ranks: seq<ForceData>, df: ForceState)
    requires ValidDomain(d) && HoldForces(d, ranks, df)
    ensures |ranks| == |df| && ValidGrid(d.gridSize)
    ensures forall k :: 0 <= k < |ranks| ==> ShowsRank(ranks[k], df[k])
  {
    GridIsValid(d);
  }

  /** loadForceBuffer on every rank, for one kind of face. */
  method SendAllForces(d: Domain, ranks: seq<ForceData>, ax: Axis, side: Side, ghost st: State, ghost df: ForceState)
    returns (msgs: seq<seq<real>>)
    requires ValidDomain(d) && HoldForces(d, ranks, df) && ValidForce(d, st, df)
    ensures AllSentForce(d, df, ax, side, |ranks|, msgs)
  {
    HeldSizes(d, ranks, df);
    assert AllSentForce(d, df, ax, side, 0, []);
    hide *;
    var sendCells := MkForceSendCellList(d.gridSize, ax, side);
    assert sendCells == SendBoxes(d, ax, side) by { SendBoxesAre(d, ax, side); }
    msgs := [];
    var k := 0;
    while k < |ranks|
      invariant 0 <= k <= |ranks| && AllSentForce(d, df, ax, side, k, msgs)
    {
      var m := SendForce(ranks[k], sendCells, d, ax, side, k, st, df);
      SentOneMore(d, df, ax, side, k, msgs, m);
      msgs := msgs + [m];
      k := k + 1;
    }
  }

  lemma SendBoxesAre(d: Domain, ax: Axis, side: Side)
    ensures SendBoxes(d, ax, side) == Boxes(d.gridSize, SendTuples(d.gridSize, ax, side))
  {
  }

  lemma SenderRank(d: Domain, st: State, k: nat, ax: Axis, side: Side)
    requires ValidDomain(d) && ValidState(d, st) && k < |st|
    ensures ValidCoord(d, ProcCoord(d, k))
    ensures 0 <= ProcessorNum(d, ProcCoord(d, k), Along(ax, Step(side))) < |st|
    ensures ProcessorNum(d, ProcCoord(d, k), Along(ax, Step(side)))
         == RankOf(d, NeighborCoord(d, ProcCoord(d, k), ax, Step(side)))
  {
    CoordRoundTrip(d, k);
    hide ProcCoord, NRanks, ProcessorNum, RankOf, NeighborCoord, Along;
    NeighborRank(d, ProcCoord(d, k), ax, Step(side));
  }

  lemma NeighborRank(d: Domain, rho: Triple<int>, ax: Axis, n: int)
    requires PositiveGrid(d) && ValidCoord(d, rho) && -1 <= n <= 1
    ensures 0 <= ProcessorNum(d, rho, Along(ax, n)) < NRanks(d)
    ensures ProcessorNum(d, rho, Along(ax, n)) == RankOf(d, NeighborCoord(d, rho, ax, n))
  {
    hide ProcCoord, NRanks, ProcessorNum, RankOf, NeighborCoord, Along;
    ProcessorNumNeighbors(d, rho, ax, n);
    ProcessorNumIsNeighbor(d, rho, ax, n);
  }

  /** The rank across a face sent what arrives here. */
  lemma ForceSender(d: Domain, st: State, df: ForceState, k: nat, ax: Axis, side: Side, msgs: seq<seq<real>>)
    requires ValidDomain(d) && ValidForce(d, st, df) && k < |df|
    requires AllSentForce(d, df, ax, Opposite(side), |df|, msgs)
    ensures 0 <= ProcessorNum(d, ProcCoord(d, k), Along(ax, Step(side))) < |msgs|
    ensures ReceivedForce(d, st, df, ax, side, k, msgs[ProcessorNum(d, ProcCoord(d, k), Along(ax, Step(side)))])
  {
    SenderRank(d, st, k, ax, side);
    hide ProcessorNum, NRanks, RankOf, ProcCoord, NeighborCoord, LoadForce, ValidState, ValidDomain, SendBoxes, InSlots,
         SlotsMatch, InRange;
    var from := ProcessorNum(d, ProcCoord(d, k), Along(ax, Step(side)));
    assert SentForce(d, df, ax, Opposite(side), from, msgs[from]);
  }

  /** Both messages fit their cells, and unloading them in turn gives the outcome. */
  lemma UnloadingForces(d: Domain, st: State, df: ForceState, k: nat, ax: Axis, after: ForceState, recvM: seq<real>,
                        recvP: seq<real>)
    requires ForceAxisTo(d, st, df, ax, after) && k < |df|
    requires ReceivedForce(d, st, df, ax, MinusSide, k, recvM) && ReceivedForce(d, st, df, ax, PlusSide, k, recvP)
    ensures InSlots(df[k], RecvBoxes(d, ax, MinusSide)) && |recvM| == |LoadForce(df[k], RecvBoxes(d, ax, MinusSide))|
    ensures var mid := UnloadForce(df[k], RecvBoxes(d, ax, MinusSide), recvM);
            && InSlots(mid, RecvBoxes(d, ax, PlusSide)) && |recvP| == |LoadForce(mid, RecvBoxes(d, ax, PlusSide))|
            && after[k] == UnloadForce(mid, RecvBoxes(d, ax, PlusSide), recvP)
  {
    CoordRoundTrip(d, k);
    var rho := ProcCoord(d, k);
    assert MessageFits(d, st, df, rho, ax, MinusSide) && MessageFits(d, st, df, rho, ax, PlusSide);
    SendInSlots(d, st, df, ax, MinusSide, k);
    SendInSlots(d, st, df, ax, PlusSide, k);
    assert after[k] == ForceRankAfter(d, st, df, rho, ax);
    hide SendBoxes, RecvBoxes, IncomingForce, ForceAxis, LoadForce, MessagesFit;
    var mid := UnloadForce(df[k], RecvBoxes(d, ax, MinusSide), recvM);
    LoadSameShape(df[k], mid, RecvBoxes(d, ax, PlusSide));
  }

  /** unloadForceBuffer on one rank, minus side first. */
  method ReceiveForces(d: Domain, r: ForceData, k: nat, ax: Axis, ghost st: State, ghost df: ForceState,
                       ghost after: ForceState, sendM: seq<seq<real>>, sendP: seq<seq<real>>)
    requires ForceAxisTo(d, st, df, ax, after) && k < |df| && ShowsRank(r, df[k])
    requires AllSentForce(d, df, ax, MinusSide, |df|, sendM) && AllSentForce(d, df, ax, PlusSide, |df|, sendP)
    modifies r.dfEmbed
    ensures ShowsRank(r, after[k])
  {
    GridIsValid(d);
    ForceSender(d, st, df, k, ax, MinusSide, sendP);
    ForceSender(d, st, df, k, ax, PlusSide, sendM);
    var nbrM := ProcessorNum(d, ProcCoord(d, k), Along(ax, Step(MinusSide)));
    var nbrP := ProcessorNum(d, ProcCoord(d, k), Along(ax, Step(PlusSide)));
    UnloadingForces(d, st, df, k, ax, after, sendP[nbrM], sendM[nbrP]);
    hide ForceAxisTo, AllSentForce, ReceivedForce, RecvTuples, LoadForce, UnloadForce, Shows, InSlots, ValidDomain,
         ProcCoord, ProcessorNum;
    var cellsM := MkForceRecvCellList(d.gridSize, ax, MinusSide);
    var cellsP := MkForceRecvCellList(d.gridSize, ax, PlusSide);
    UnloadForceBuffer(r.nAtoms, r.dfEmbed, cellsM, sendP[nbrM], df[k]);
    UnloadForceBuffer(r.nAtoms, r.dfEmbed, cellsP, sendM[nbrP], UnloadForce(df[k], cellsM, sendP[nbrM]));
  }

  /** The first n ranks have got as far as after. */
  ghost predicate ForcesUnderway(d: Domain, ranks: seq<ForceData>, df: ForceState, after: ForceState, n: nat)
    reads Arrays(ranks)
  {
    && n <= |ranks| == |df| == |after| == NRanks(d)
    && OwnArrays(ranks)
    && forall k :: 0 <= k < |ranks| ==> ShowsRank(ranks[k], if k < n then after[k] else df[k])
  }

  method ForceTurn(d: Domain, ranks: seq<ForceData>, k: nat, ax: Axis, ghost st: State, ghost df: ForceState,
                   ghost after: ForceState, sendM: seq<seq<real>>, sendP: seq<seq<real>>)
    requires ForceAxisTo(d, st, df, ax, after) && k < |ranks| && ForcesUnderway(d, ranks, df, after, k)
    requires AllSentForce(d, df, ax, MinusSide, |df|, sendM) && AllSentForce(d, df, ax, PlusSide, |df|, sendP)
    modifies ranks[k].dfEmbed
    ensures ForcesUnderway(d, ranks, df, after, k + 1)
  {
    hide ForceAxisTo, ShowsRank, AllSentForce, NRanks;
    assert ShowsRank(ranks[k], df[k]);
    ReceiveForces(d, ranks[k], k, ax, st, df, after, sendM, sendP);
    forall i | 0 <= i < |ranks|
      ensures ShowsRank(ranks[i], if i < k + 1 then after[i] else df[i])
    {
      if i != k {
        assert old(ShowsRank(ranks[i], if i < k then after[i] else df[i]));
      }
    }
  }

  /** exchangeData for force data on all ranks. */
  method ExchangeForceAxis(d: Domain, ranks: seq<ForceData>, ax: Axis, ghost st: State, ghost df: ForceState,
                           ghost after: ForceState)
    requires HoldForces(d, ranks, df) && ForceAxisTo(d, st, df, ax, after)
    modifies ValueArrays(ranks)
    ensures HoldForces(d, ranks, after)
  {
    hide ShowsRank, AllSentForce, NRanks, MessagesFit, ForceAxis, ValidForce, ValidDomain;
    var sendM := SendAllForces(d, ranks, ax, MinusSide, st, df);
    var sendP := SendAllForces(d, ranks, ax, PlusSide, st, df);
    var k := 0;
    while k < |ranks|
      invariant ForcesUnderway(d, ranks, df, after, k)
    {
      ForceTurn(d, ranks, k, ax, st, df, after, sendM, sendP);
      k := k + 1;
    }
  }

  lemma ForceStages(d: Domain, pop: Population, st: State, df: ForceState, val: int -> real)
    returns (onX: ForceState, onY: ForceState, after: ForceState)
    requires ValidDomain(d) && ValidPopulation(d, pop) && PlacedInOrder(d, pop, st) && ValidForce(d, st, df)
    requires Carries(d, st, df, val, NONE)
    ensures ForceAxisTo(d, st, df, X, onX) && ForceAxisTo(d, st, onX, Y, onY) && ForceAxisTo(d, st, onY, Z, after)
    ensures ValidForce(d, st, after) && Carries(d, st, after, val, ALL)
  {
    after := ForceExchangeComplete(d, pop, st, df, val);
    onX := ForceAxis(d, st, df, X);
    onY := ForceAxis(d, st, onX, Y);
    hide ForceAxis, Carries, MessagesFit, PlacedInOrder, ValidPopulation;
  }

  /** haloExchange of force data on all ranks.  Once the cells are redistributed
      and sorted, if every local slot holds the value of its atom then every slot
      of every halo cell ends up with the value that its atom's owner computed,
      though the messages name no atoms. */
  method ForceHaloExchange(d: Domain, ranks: seq<ForceData>, ghost pop: Population, ghost st: State,
                           ghost df: ForceState, ghost val: int -> real) returns (ghost after: ForceState)
    requires ValidDomain(d) && ValidPopulation(d, pop) && PlacedInOrder(d, pop, st) && ValidForce(d, st, df)
    requires HoldForces(d, ranks, df) && Carries(d, st, df, val, NONE)
    modifies ValueArrays(ranks)
    ensures HoldForces(d, ranks, after)
    ensures ValidForce(d, st, after) && Carries(d, st, after, val, ALL)
  {
    ghost var onX, onY, onZ := ForceStages(d, pop, st, df, val);
    hide ForceAxisTo, HoldForces, Carries, ValidForce, PlacedInOrder, ValidPopulation, ValidDomain;
    ExchangeForceAxis(d, ranks, X, st, df, onX);
    ExchangeForceAxis(d, ranks, Y, st, onX, onY);
    ExchangeForceAxis(d, ranks, Z, st, onY, onZ);
    after := onZ;
  }
}
