/** The exchange between the passes of the embedded atom kernels: derivatives that agree on
    the local atoms of every rank agree on all atoms afterwards. */
module EmbeddingExchange {
  import opened Triples
  import opened LinkCellIndex
  import opened Decomposition
  import opened Placement
  import opened AtomProtocol
  import opened Redistribute
  import opened ForceExchange
  import opened PairImages
  import PF = PairForces
  import FP = FullPairs
  import EmbeddedAtom
  import CutoffPairs

  /** The array of a rank holds, slot by slot, the derivatives of its cells. */
  ghost predicate HoldsForces(d: Domain, st: State, rho: Triple<int>, e: PF.Store, df: ForceState, dfEmbed: seq<real>)
    requires ValidDomain(d) && ValidForce(d, st, df)
  {
    && FromRank(d, st, rho, e) && |dfEmbed| == |e.r|
    && forall t: Triple<int> :: ValidTuple(d.gridSize, t) ==>
         SlotsHold(dfEmbed, GetBoxFromTuple(d.gridSize, t), ForceAt(d, st, df, rho, t))
  }

  ghost predicate SlotsHold(dfEmbed: seq<real>, b: int, vals: seq<real>) {
    forall k :: 0 <= k < |vals| ==> 0 <= PF.Slot(b, k) < |dfEmbed| && dfEmbed[PF.Slot(b, k)] == vals[k]
  }

  lemma ForceSize(d: Domain, st: State, df: ForceState, rho: Triple<int>, t: Triple<int>)
    requires ValidDomain(d) && ValidForce(d, st, df) && ValidCoord(d, rho) && ValidTuple(d.gridSize, t)
    ensures |ForceAt(d, st, df, rho, t)| == |CellAt(d, st, rho, t)|
  {
    CellInRange(d, st, rho, t);
    hide RankOf, GetBoxFromTuple;
    assert SlotsMatch(st[RankOf(d, rho)], df[RankOf(d, rho)]);
  }

  lemma SlotForce(d: Domain, st: State, rho: Triple<int>, e: PF.Store, df: ForceState, dfEmbed: seq<real>, b: int,
                  k: int)
    requires ValidDomain(d) && ValidForce(d, st, df) && HoldsForces(d, st, rho, e, df, dfEmbed) && PF.Holds(e, b, k)
    ensures ValidTuple(d.gridSize, GetTuple(e.g, b))
    ensures 0 <= k < |ForceAt(d, st, df, rho, GetTuple(e.g, b))| && 0 <= PF.Slot(b, k) < |dfEmbed|
    ensures dfEmbed[PF.Slot(b, k)] == ForceAt(d, st, df, rho, GetTuple(e.g, b))[k]
  {
    var t := SlotAtom(d, st, rho, e, b, k);
    hide ForceAt, CellAt, GetTuple, GetBoxFromTuple, PF.Slot;
    ForceSize(d, st, df, rho, t);
    assert SlotsHold(dfEmbed, GetBoxFromTuple(d.gridSize, t), ForceAt(d, st, df, rho, t));
  }

  /** The two states hold the same in all local cells. */
  ghost predicate SameLocally(d: Domain, st: State, one: ForceState, two: ForceState)
    requires ValidDomain(d) && ValidForce(d, st, one) && ValidForce(d, st, two)
  {
    forall rho: Triple<int>, t: Triple<int> :: ValidCoord(d, rho) && InRegion(d.gridSize, NONE, t) ==>
      ForceAt(d, st, one, rho, t) == ForceAt(d, st, two, rho, t)
  }

  /** Kernels that compute the same derivatives for local atoms send the same. */
  lemma DensitiesSendSame(d: Domain, st: State, rho: Triple<int>, e: PF.Store, tables: EmbeddedAtom.Tables,
                          cutoff: real,
                          one: ForceState, two: ForceState, load1: seq<FP.LoadSums.Load>, load2: seq<FP.LoadSums.Load>,
                          df1: seq<real>, df2: seq<real>, t: Triple<int>)
    requires ValidDomain(d) && ValidForce(d, st, one) && ValidForce(d, st, two) && ValidCoord(d, rho)
    requires HoldsForces(d, st, rho, e, one, df1) && HoldsForces(d, st, rho, e, two, df2)
    requires EmbeddedAtom.DensityDone(e, tables, cutoff, load1, df1)
    requires EmbeddedAtom.DensityDone(e, tables, cutoff, load2, df2)
    requires InRegion(d.gridSize, NONE, t)
    ensures ForceAt(d, st, one, rho, t) == ForceAt(d, st, two, rho, t)
  {
    ForceSize(d, st, one, rho, t);
    ForceSize(d, st, two, rho, t);
    var b := GetBoxFromTuple(d.gridSize, t);
    TupleRoundTrip(d.gridSize, t);
    hide ForceAt, CellAt, GetTuple, GetBoxFromTuple, PF.Slot, EmbeddedAtom.DensityDone, FP.LocalSlots, NLocalBoxes,
         NTotalBoxes, HoldsForces;
    LocalCell(d, st, rho, e, one, df1, t);
    forall k | 0 <= k < |ForceAt(d, st, one, rho, t)|
      ensures ForceAt(d, st, one, rho, t)[k] == ForceAt(d, st, two, rho, t)[k]
    {
      SlotForce(d, st, rho, e, one, df1, b, k);
      SlotForce(d, st, rho, e, two, df2, b, k);
      PF.SlotInside(e, b, k);
      SlotLocal(e, b, k);
      EmbeddedAtom.DensitiesAgree(e, tables, cutoff, load1, df1, load2, df2, PF.Slot(b, k));
    }
  }

  lemma LocalCell(d: Domain, st: State, rho: Triple<int>, e: PF.Store, df: ForceState, dfEmbed: seq<real>,
                  t: Triple<int>)
    requires ValidDomain(d) && ValidForce(d, st, df) && ValidCoord(d, rho) && HoldsForces(d, st, rho, e, df, dfEmbed)
    requires InRegion(d.gridSize, NONE, t)
    ensures var b := GetBoxFromTuple(d.gridSize, t);
            && e.g == d.gridSize && PF.ValidStore(e) && 0 <= b < NLocalBoxes(e.g)
            && forall k :: 0 <= k < |ForceAt(d, st, df, rho, t)| ==> PF.Holds(e, b, k)
  {
    ForceSize(d, st, df, rho, t);
    TupleRoundTrip(d.gridSize, t);
    hide ForceAt, CellAt, PF.Slot;
    assert SameCell(e, GetBoxFromTuple(e.g, t), CellAt(d, st, rho, t));
  }

  lemma SlotLocal(e: PF.Store, b: int, k: int)
    requires PF.ValidStore(e) && PF.Holds(e, b, k) && 0 <= b < NLocalBoxes(e.g)
    ensures 0 <= PF.Slot(b, k) < FP.LocalSlots(e) && PF.Slot(b, k) < |e.r| && FP.InUse(e, PF.Slot(b, k))
  {
    PF.SlotInside(e, b, k);
    hide NLocalBoxes;
  }

  /** The exchange turns agreement on local cells into agreement on all cells. */
  lemma ExchangeKeepsAgreement(d: Domain, pop: Population, st: State, one: ForceState, two: ForceState,
                               val: int -> real)
    returns (after1: ForceState, after2: ForceState)
    requires ValidDomain(d) && ValidPopulation(d, pop) && PlacedInOrder(d, pop, st)
    requires ValidForce(d, st, one) && ValidForce(d, st, two)
    requires Carries(d, st, one, val, NONE) && SameLocally(d, st, one, two)
    ensures ValidForce(d, st, after1) && ValidForce(d, st, after2)
    ensures Exchanged(d, st, one, after1) && Exchanged(d, st, two, after2)
    ensures forall rho: Triple<int>, t: Triple<int> :: ValidCoord(d, rho) && ValidTuple(d.gridSize, t) ==>
              ForceAt(d, st, after1, rho, t) == ForceAt(d, st, after2, rho, t)
  {
    assert Carries(d, st, two, val, NONE) by {
      hide ForceAt, CellAt, InRegion;
    }
    after1 := ForceExchangeComplete(d, pop, st, one, val);
    after2 := ForceExchangeComplete(d, pop, st, two, val);
    hide ForceAt, CellAt, ForceAxis, MessagesFit;
    forall rho: Triple<int>, t: Triple<int> | ValidCoord(d, rho) && ValidTuple(d.gridSize, t)
      ensures ForceAt(d, st, after1, rho, t) == ForceAt(d, st, after2, rho, t)
    {
      assert InRegion(d.gridSize, ALL, t);
    }
  }

  /** after is what the three axes of the exchange make of df. */
  ghost predicate Exchanged(d: Domain, st: State, df: ForceState, after: ForceState)
    requires ValidDomain(d) && ValidForce(d, st, df)
  {
    && MessagesFit(d, st, df, X) && ValidForce(d, st, ForceAxis(d, st, df, X))
    && var onX := ForceAxis(d, st, df, X);
    && MessagesFit(d, st, onX, Y) && ValidForce(d, st, ForceAxis(d, st, onX, Y))
    && var onY := ForceAxis(d, st, onX, Y);
    && MessagesFit(d, st, onY, Z) && after == ForceAxis(d, st, onY, Z)
  }

  /** Then the last passes of both kernels start from the same derivatives. */
  lemma ReceivedAgree(d: Domain, st: State, rho: Triple<int>, e: PF.Store, after1: ForceState, after2: ForceState,
                      df1: seq<real>, df2: seq<real>)
    requires ValidDomain(d) && ValidForce(d, st, after1) && ValidForce(d, st, after2)
    requires HoldsForces(d, st, rho, e, after1, df1) && HoldsForces(d, st, rho, e, after2, df2)
    requires forall s: Triple<int>, t: Triple<int> :: ValidCoord(d, s) && ValidTuple(d.gridSize, t) ==>
               ForceAt(d, st, after1, s, t) == ForceAt(d, st, after2, s, t)
    ensures CutoffPairs.SameDerivatives(e, df1, df2)
  {
    hide ForceAt, CellAt, PF.Slot, GetTuple, GetBoxFromTuple;
    forall x | 0 <= x < |df1| && FP.InUse(e, x)
      ensures df1[x] == df2[x]
    {
      var b, k :| PF.Holds(e, b, k) && x == PF.Slot(b, k);
      SlotForce(d, st, rho, e, after1, df1, b, k);
      SlotForce(d, st, rho, e, after2, df2, b, k);
    }
  }
}
