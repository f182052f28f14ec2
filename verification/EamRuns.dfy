/** The three passes of the embedded atom kernels run on all ranks, with the exchange of
    derivatives between the second and the third. */
module EamRuns {
  import opened Triples
  import opened LinkCellIndex
  import opened Decomposition
  import opened Atoms
  import opened Placement
  import opened Redistribute
  import opened Simulation
  import opened SetSums
  import opened ForceExchange
  import opened AllForces
  import opened ConsistentStores
  import opened EmbeddedAtom
  import opened WorldEmbedding
  import opened ImageSums
  import opened PairImages
  import AtomProtocol
  import AllRanks
  import ForceBuffers
  import LS = LoadSums
  import PF = PairForces
  import PL = PairLaws
  import FP = FullPairs
  import WF = WorldForces

  // ----- derivatives in slots, cell by cell

  function CellSlots(e: PF.Store, df: seq<real>, b: int): (s: seq<real>)
    requires 0 <= b < |e.nAtoms|
    ensures |s| == e.nAtoms[b]
  {
    seq(e.nAtoms[b], l requires 0 <= l < e.nAtoms[b] => if 0 <= PF.Slot(b, l) < |df| then df[PF.Slot(b, l)] else 0.0)
  }

  function SlotsOf(e: PF.Store, df: seq<real>): (s: Slots)
    ensures |s| == |e.nAtoms| && forall b :: 0 <= b < |s| ==> s[b] == CellSlots(e, df, b)
  {
    seq(|e.nAtoms|, b requires 0 <= b < |e.nAtoms| => CellSlots(e, df, b))
  }

  /** The cells of a rank have as many atoms as its store. */
  lemma StoreCells(d: Domain, st: State, e: PF.Store, k: nat, b: nat)
    requires ValidDomain(d) && ValidState(d, st) && k < |st| && FromRank(d, st, ProcCoord(d, k), e) && b < |st[k]|
    ensures b < |e.nAtoms| == |st[k]| && SameCell(e, b, st[k][b])
    ensures ValidTuple(d.gridSize, GetTuple(d.gridSize, b))
    ensures CellAt(d, st, ProcCoord(d, k), GetTuple(d.gridSize, b)) == st[k][b]
  {
    AllRanks.CellOfBox(d, st, k, b);
    BoxRoundTrip(d.gridSize, b);
    hide GetTuple, GetBoxFromTuple, ProcCoord, RankOf, NTotalBoxes, NLocalBoxes;
    var t := GetTuple(d.gridSize, b);
    assert SameCell(e, GetBoxFromTuple(d.gridSize, t), CellAt(d, st, ProcCoord(d, k), t));
  }

  lemma SlotsFit(d: Domain, st: State, e: PF.Store, df: seq<real>, k: nat)
    requires ValidDomain(d) && ValidState(d, st) && k < |st| && FromRank(d, st, ProcCoord(d, k), e)
    ensures SlotsMatch(st[k], SlotsOf(e, df))
  {
    hide GetTuple, GetBoxFromTuple, ProcCoord, NTotalBoxes, NLocalBoxes, SameSlot;
    assert |SlotsOf(e, df)| == |st[k]|;
    forall b: nat | b < |st[k]|
      ensures |SlotsOf(e, df)[b]| == |st[k][b]|
    {
      StoreCells(d, st, e, k, b);
    }
  }

  /** What every rank sends. */
  ghost predicate SlotsAre(es: seq<PF.Store>, dfs: seq<seq<real>>, df: ForceState) {
    |es| == |dfs| == |df| && forall k :: 0 <= k < |es| ==> df[k] == SlotsOf(es[k], dfs[k])
  }

  lemma SlotsValid(d: Domain, atoms: AtomSet, st: State, es: seq<PF.Store>, dfs: seq<seq<real>>, df: ForceState)
    requires World(d, atoms, st, es) && SlotsAre(es, dfs, df)
    ensures ValidDomain(d) && ValidForce(d, st, df)
  {
    WorldSize(d, atoms, st, es);
    hide ValidDomain, ValidState, Consistent, SlotsMatch, FromRank, ProcCoord, NRanks;
    forall k: nat | k < |st|
      ensures SlotsMatch(st[k], df[k])
    {
      assert WorldAt(d, st, es[k], k);
      SlotsFit(d, st, es[k], dfs[k], k);
    }
  }

  /** Local slots have the values that belong to their atoms' ids. */
  ghost predicate LocalTagged(e: PF.Store, df: seq<real>, val: int -> real) {
    && |df| == |e.r| == |e.gid|
    && forall x :: 0 <= x < FP.LocalSlots(e) && x < |df| && FP.InUse(e, x) ==> TaggedAt(e, df, val, x)
  }

  lemma LocalCellCarries(e: PF.Store, df: seq<real>, val: int -> real, b: int, cell: seq<Atom>)
    requires PF.ValidStore(e) && LocalTagged(e, df, val) && 0 <= b < NLocalBoxes(e.g) && SameCell(e, b, cell)
    ensures CellSlots(e, df, b) == ForceExchange.Values(val, cell)
  {
    hide NLocalBoxes, NTotalBoxes, PF.Slot;
    forall l | 0 <= l < |cell|
      ensures CellSlots(e, df, b)[l] == val(cell[l].gid)
    {
      var x := PF.Slot(b, l);
      PF.SlotInside(e, b, l);
      assert SameSlot(e, x, cell[l]);
      LocalSlotTagged(e, df, val, b, l);
    }
  }

  lemma LocalSlotTagged(e: PF.Store, df: seq<real>, val: int -> real, b: int, l: int)
    requires PF.ValidStore(e) && LocalTagged(e, df, val) && 0 <= b < NLocalBoxes(e.g) && PF.Holds(e, b, l)
    ensures TaggedAt(e, df, val, PF.Slot(b, l))
  {
    PF.SlotInside(e, b, l);
    hide NLocalBoxes, NTotalBoxes, TaggedAt;
    assert FP.InUse(e, PF.Slot(b, l));
  }

  /** What the ranks send is what the owners computed. */
  lemma CarriesBefore(d: Domain, atoms: AtomSet, st: State, es: seq<PF.Store>, dfs: seq<seq<real>>, df: ForceState,
                      val: int -> real)
    requires World(d, atoms, st, es) && SlotsAre(es, dfs, df) && ValidDomain(d) && ValidForce(d, st, df)
    requires forall k :: 0 <= k < |es| ==> LocalTagged(es[k], dfs[k], val)
    ensures Carries(d, st, df, val, AtomProtocol.NONE)
  {
    hide World, SlotsAre, ForceAt, CellAt, LocalTagged;
    forall rho: Triple<int>, t: Triple<int> | ValidCoord(d, rho) && InRegion(d.gridSize, AtomProtocol.NONE, t)
      ensures ForceAt(d, st, df, rho, t) == ForceExchange.Values(val, CellAt(d, st, rho, t))
    {
      CarriesAt(d, atoms, st, es, dfs, df, val, rho, t);
    }
  }

  lemma CarriesAt(d: Domain, atoms: AtomSet, st: State, es: seq<PF.Store>, dfs: seq<seq<real>>, df: ForceState,
                  val: int -> real, rho: Triple<int>, t: Triple<int>)
    requires World(d, atoms, st, es) && SlotsAre(es, dfs, df) && ValidDomain(d) && ValidForce(d, st, df)
    requires forall k :: 0 <= k < |es| ==> LocalTagged(es[k], dfs[k], val)
    requires ValidCoord(d, rho) && InRegion(d.gridSize, AtomProtocol.NONE, t)
    ensures ForceAt(d, st, df, rho, t) == ForceExchange.Values(val, CellAt(d, st, rho, t))
  {
    RankRoundTrip(d, rho);
    var k, b := RankOf(d, rho), GetBoxFromTuple(d.gridSize, t);
    GridIsValid(d);
    TupleRoundTrip(d.gridSize, t);
    CellInRange(d, st, rho, t);
    assert WorldAt(d, st, es[k], k);
    assert SameCell(es[k], b, CellAt(d, st, rho, t));
    assert ForceAt(d, st, df, rho, t) == CellSlots(es[k], dfs[k], b);
    hide *;
    WorldStore(d, st, es[k], k);
    LocalCellCarries(es[k], dfs[k], val, b, CellAt(d, st, rho, t));
  }

  lemma WorldStore(d: Domain, st: State, e: PF.Store, k: int)
    requires WorldAt(d, st, e, k)
    ensures ValidDomain(d) && ValidState(d, st) && 0 <= k < |st|
    ensures PF.ValidStore(e) && e.g == d.gridSize && FromRank(d, st, ProcCoord(d, k), e)
  {
  }

  /** An array shows the values of a rank's cells. */
  ghost predicate ShowsSlots(e: PF.Store, df: seq<real>, slots: Slots) {
    && |df| == |e.r| && |slots| == |e.nAtoms|
    && forall b, l :: PF.Holds(e, b, l) ==> ShowsSlot(df, slots, b, l)
  }

  ghost predicate ShowsSlot(df: seq<real>, slots: Slots, b: int, l: int) {
    0 <= b < |slots| && 0 <= l < |slots[b]| && 0 <= PF.Slot(b, l) < |df| && df[PF.Slot(b, l)] == slots[b][l]
  }

  /** After the exchange every slot has its atom's value. */
  lemma TaggedAfter(d: Domain, atoms: AtomSet, st: State, es: seq<PF.Store>, k: nat, df: seq<real>, after: ForceState,
                    val: int -> real, p: PL.Potential)
    requires World(d, atoms, st, es) && k < |es| && ValidDomain(d) && ValidForce(d, st, after)
    requires Carries(d, st, after, val, AtomProtocol.ALL) && k < |after| && ShowsSlots(es[k], df, after[k])
    requires p.law.Embedding? && p.law.dfEmbed == df
    ensures Tagged(es[k], p, val)
  {
    var e := es[k];
    assert WorldAt(d, st, e, k);
    hide World, ValidForce, ForceAt, CellAt, ShowsSlots, ProcCoord, FromRank, PF.Slot, Carries, TaggedAt;
    forall b, l | PF.Holds(e, b, l)
      ensures TaggedAt(e, df, val, PF.Slot(b, l))
    {
      TaggedAfterAt(d, st, e, k, df, after, val, b, l);
    }
    SlotsShown(e, df, after[k]);
  }

  lemma SlotsShown(e: PF.Store, df: seq<real>, slots: Slots)
    requires ShowsSlots(e, df, slots)
    ensures |df| == |e.r|
  {
  }

  lemma TaggedAfterAt(d: Domain, st: State, e: PF.Store, k: nat, df: seq<real>, after: ForceState, val: int -> real,
                      b: int, l: int)
    requires ValidDomain(d) && ValidState(d, st) && k < |st| && FromRank(d, st, ProcCoord(d, k), e)
    requires ValidForce(d, st, after) && Carries(d, st, after, val, AtomProtocol.ALL)
    requires k < |after| && ShowsSlots(e, df, after[k]) && PF.Holds(e, b, l)
    ensures TaggedAt(e, df, val, PF.Slot(b, l))
  {
    CoordRoundTrip(d, k);
    var rho := ProcCoord(d, k);
    var t := SlotAtom(d, st, rho, e, b, l);
    CellInRange(d, st, rho, t);
    assert ForceAt(d, st, after, rho, t) == after[k][b];
    assert InRegion(d.gridSize, AtomProtocol.ALL, t);
    assert ShowsSlot(df, after[k], b, l);
    hide ForceAt, CellAt, ProcCoord, FromRank, PF.Slot, ValidForce, GetTuple, GetBoxFromTuple, RankOf;
    assert after[k][b] == ForceExchange.Values(val, CellAt(d, st, rho, t));
  }

  // ----- the arrays of all ranks

  /** Every rank has arrays of its own, and the occupancies of its store. */
  ghost predicate EamArrays(es: seq<PF.Store>, loads: seq<array<LS.Load>>, ranks: seq<ForceData>)
    reads Arrays(ranks)
  {
    && WF.OwnArrays(es, loads) && AllForces.OwnArrays(ranks) && |ranks| == |es|
    && forall k :: 0 <= k < |es| ==> RankArrays(es[k], ranks[k])
  }

  ghost predicate RankArrays(e: PF.Store, r: ForceData)
    reads r.nAtoms
  {
    r.nAtoms[..] == e.nAtoms && r.dfEmbed.Length == |e.r|
  }

  ghost predicate DensityRank(e: PF.Store, t: Tables, cutoff: real, load: array<LS.Load>, r: ForceData)
    reads load, r.dfEmbed
  {
    DensityDone(e, t, cutoff, load[..], r.dfEmbed[..])
  }

  ghost predicate EnergyRank(e: PF.Store, load: array<LS.Load>, part: real)
    reads load
  {
    part == OwnEnergy(e, load[..])
  }

  /** The first n ranks have done the first two steps. */
  ghost predicate DensitiesSoFar(es: seq<PF.Store>, t: Tables, cutoff: real, loads: seq<array<LS.Load>>,
                                 ranks: seq<ForceData>, parts: seq<real>, n: nat)
    reads WF.Arrays(loads), Arrays(ranks)
  {
    && n <= |es| == |loads| == |ranks| && |parts| == n
    && forall k :: 0 <= k < n ==>
         DensityRank(es[k], t, cutoff, loads[k], ranks[k]) && EnergyRank(es[k], loads[k], parts[k])
  }

  lemma OwnEnergyIs(e: PF.Store, loads: seq<LS.Load>)
    requires 0 <= FP.LocalSlots(e) <= |loads|
    ensures OwnEnergy(e, loads) == LS.Energy(loads, FP.LocalSlots(e))
  {
  }

  lemma RankDone(e: PF.Store, t: Tables, cutoff: real, load: array<LS.Load>, r: ForceData, part: real)
    requires DensityDone(e, t, cutoff, load[..], r.dfEmbed[..]) && part == OwnEnergy(e, load[..])
    ensures DensityRank(e, t, cutoff, load, r) && EnergyRank(e, load, part)
  {
    hide DensityDone, OwnEnergy;
  }

  /** The first two steps on one rank, by the kernel over half pairs or over full pairs. */
  method RankDensity(half: bool, ghost d: Domain, ghost atoms: AtomSet, ghost st: State, es: seq<PF.Store>, t: Tables,
                     cutoff: real, k: nat, nbrBoxes: seq<seq<int>>, load: array<LS.Load>, r: ForceData)
    returns (part: real)
    requires half ==> Separate(atoms)
    requires EamWorld(d, atoms, st, es, t, cutoff) && k < |es| && WF.Cached(es[k], nbrBoxes)
    requires load.Length == |es[k].r| && r.dfEmbed.Length == |es[k].r|
    modifies load, r.dfEmbed
    ensures DensityRank(es[k], t, cutoff, load, r) && EnergyRank(es[k], load, part)
  {
    EamReady(d, atoms, st, es, t, cutoff, k);
    WF.CachedMeans(es[k], nbrBoxes);
    hide *;
    if half {
      part := HalfDensity(d, ProcCoord(d, k), es[k], t, cutoff, load, r.dfEmbed);
    } else {
      part := FullDensity(d, ProcCoord(d, k), es[k], t, cutoff, nbrBoxes, load, r.dfEmbed);
    }
    OwnEnergyIs(es[k], load[..]);
    RankDone(es[k], t, cutoff, load, r, part);
  }

  method DensityTurn(half: bool, ghost d: Domain, ghost atoms: AtomSet, ghost st: State, es: seq<PF.Store>, t: Tables,
                     cutoff: real, k: nat, nbrBoxes: seq<seq<int>>, loads: seq<array<LS.Load>>, ranks: seq<ForceData>,
                     parts: seq<real>)
    returns (now: seq<real>)
    requires half ==> Separate(atoms)
    requires EamWorld(d, atoms, st, es, t, cutoff) && k < |es| && WF.Cached(es[k], nbrBoxes)
    requires EamArrays(es, loads, ranks) && DensitiesSoFar(es, t, cutoff, loads, ranks, parts, k)
    modifies loads[k], ranks[k].dfEmbed
    ensures EamArrays(es, loads, ranks) && DensitiesSoFar(es, t, cutoff, loads, ranks, now, k + 1)
  {
    hide EamWorld, WF.Cached, DensityRank, EnergyRank;
    assert RankArrays(es[k], ranks[k]);
    var part := RankDensity(half, d, atoms, st, es, t, cutoff, k, nbrBoxes, loads[k], ranks[k]);
    now := parts + [part];
    forall i | 0 <= i < k + 1
      ensures DensityRank(es[i], t, cutoff, loads[i], ranks[i]) && EnergyRank(es[i], loads[i], now[i])
    {
      if i != k {
        assert old(DensityRank(es[i], t, cutoff, loads[i], ranks[i]));
        assert old(EnergyRank(es[i], loads[i], parts[i]));
      }
    }
    forall i | 0 <= i < |es|
      ensures RankArrays(es[i], ranks[i])
    {
      assert old(RankArrays(es[i], ranks[i]));
    }
  }

  lemma ArraysOf(es: seq<PF.Store>, loads: seq<array<LS.Load>>, ranks: seq<ForceData>, k: nat)
    requires EamArrays(es, loads, ranks) && k < |es|
    ensures k < |loads| && k < |ranks| && loads[k] in WF.Arrays(loads) && ranks[k].dfEmbed in ValueArrays(ranks)
  {
  }

  lemma DensitiesStart(es: seq<PF.Store>, t: Tables, cutoff: real, loads: seq<array<LS.Load>>, ranks: seq<ForceData>)
    requires EamArrays(es, loads, ranks)
    ensures DensitiesSoFar(es, t, cutoff, loads, ranks, [], 0)
  {
  }

  /** The first two steps on all ranks. */
  method AllDensities(half: bool, d: Domain, ghost atoms: AtomSet, ghost st: State, es: seq<PF.Store>, t: Tables,
                      cutoff: real, nbrBoxes: seq<seq<int>>, loads: seq<array<LS.Load>>, ranks: seq<ForceData>)
    returns (parts: seq<real>)
    requires half ==> Separate(atoms)
    requires EamWorld(d, atoms, st, es, t, cutoff) && EamArrays(es, loads, ranks)
    requires forall k :: 0 <= k < |es| ==> WF.Cached(es[k], nbrBoxes)
    modifies WF.Arrays(loads), ValueArrays(ranks)
    ensures EamArrays(es, loads, ranks) && DensitiesSoFar(es, t, cutoff, loads, ranks, parts, |es|)
  {
    hide *;
    DensitiesStart(es, t, cutoff, loads, ranks);
    parts := [];
    var k := 0;
    while k < |es|
      invariant 0 <= k <= |es| && EamArrays(es, loads, ranks)
      invariant DensitiesSoFar(es, t, cutoff, loads, ranks, parts, k)
    {
      ArraysOf(es, loads, ranks, k);
      parts := DensityTurn(half, d, atoms, st, es, t, cutoff, k, nbrBoxes, loads, ranks, parts);
      k := k + 1;
    }
  }

  // ----- the exchange between the steps

  ghost function Fields(ranks: seq<ForceData>): (dfs: seq<seq<real>>)
    reads Arrays(ranks)
    ensures |dfs| == |ranks| && forall k :: 0 <= k < |ranks| ==> dfs[k] == ranks[k].dfEmbed[..]
  {
    seq(|ranks|, k requires 0 <= k < |ranks| reads Arrays(ranks) => ranks[k].dfEmbed[..])
  }

  ghost function Sending(es: seq<PF.Store>, dfs: seq<seq<real>>): (df: ForceState)
    requires |es| == |dfs|
    ensures SlotsAre(es, dfs, df)
  {
    seq(|es|, k requires 0 <= k < |es| => SlotsOf(es[k], dfs[k]))
  }

  lemma RankShows(e: PF.Store, r: ForceData)
    requires PF.ValidStore(e) && RankArrays(e, r)
    ensures ShowsRank(r, SlotsOf(e, r.dfEmbed[..]))
  {
    hide NLocalBoxes, NTotalBoxes;
    var slots := SlotsOf(e, r.dfEmbed[..]);
    assert forall b :: 0 <= b < |e.nAtoms| ==> r.nAtoms[..][b] == r.nAtoms[b];
    forall b | 0 <= b < |slots|
      ensures ForceBuffers.ShowsCell(r.nAtoms, r.dfEmbed, b, slots[b])
    {
      assert r.nAtoms[b] == |slots[b]|;
      forall l | 0 <= l < |slots[b]|
        ensures r.dfEmbed[b * MAXATOMS + l] == slots[b][l]
      {
        assert PF.Slot(b, l) == b * MAXATOMS + l;
      }
    }
  }

  lemma ShownSlots(e: PF.Store, r: ForceData, slots: Slots)
    requires PF.ValidStore(e) && RankArrays(e, r) && ShowsRank(r, slots)
    ensures ShowsSlots(e, r.dfEmbed[..], slots)
  {
    hide NLocalBoxes, NTotalBoxes;
    assert forall b :: 0 <= b < |e.nAtoms| ==> r.nAtoms[..][b] == r.nAtoms[b];
    forall b, l | PF.Holds(e, b, l)
      ensures ShowsSlot(r.dfEmbed[..], slots, b, l)
    {
      assert ForceBuffers.ShowsCell(r.nAtoms, r.dfEmbed, b, slots[b]);
      assert PF.Slot(b, l) == b * MAXATOMS + l;
    }
  }

  lemma OwnersValid(d: Domain, atoms: AtomSet)
    requires ValidDomain(d) && ValidAtoms(d, atoms)
    ensures ValidPopulation(d, WithOwners(d, atoms))
  {
    hide GlobalCell;
    forall gid | gid in atoms
      ensures ValidCoord(d, OwnerCoord(d, atoms[gid].r)) && Near(d, OwnerCoord(d, atoms[gid].r), atoms[gid].r)
    {
      HomeInRange(d, atoms[gid].r);
      var r := atoms[gid].r;
      NearOwner(GlobalCell(d, X, r.x), d.gridSize.x);
      NearOwner(GlobalCell(d, Y, r.y), d.gridSize.y);
      NearOwner(GlobalCell(d, Z, r.z), d.gridSize.z);
    }
  }

  lemma NearOwner(cell: int, g: int)
    requires g >= 1
    ensures -1 <= cell - cell / g * g <= g
  {
    assert cell == cell / g * g + cell % g;
  }

  /** Before the exchange: the arrays hold what the owners computed. */
  lemma ReadyToSend(d: Domain, atoms: AtomSet, st: State, es: seq<PF.Store>, t: Tables, cutoff: real,
                    loads: seq<array<LS.Load>>, ranks: seq<ForceData>, parts: seq<real>, df: ForceState)
    requires EamWorld(d, atoms, st, es, t, cutoff) && EamArrays(es, loads, ranks) && |ranks| == |es|
    requires DensitiesSoFar(es, t, cutoff, loads, ranks, parts, |es|)
    requires df == Sending(es, Fields(ranks))
    ensures ValidDomain(d) && ValidForce(d, st, df) && HoldForces(d, ranks, df) && GoodTables(t, cutoff)
    ensures Carries(d, st, df, Derivatives(d, atoms, t, cutoff), AtomProtocol.NONE)
  {
    var dfs := Fields(ranks);
    assert World(d, atoms, st, es) && GoodTables(t, cutoff);
    assert forall k :: 0 <= k < |es| ==>
             RankArrays(es[k], ranks[k]) && DensityRank(es[k], t, cutoff, loads[k], ranks[k]);
    assert AllForces.OwnArrays(ranks);
    assert SlotsAre(es, dfs, df);
    hide *;
    SlotsValid(d, atoms, st, es, dfs, df);
    WorldSize(d, atoms, st, es);
    var val := Derivatives(d, atoms, t, cutoff);
    forall k | 0 <= k < |es|
      ensures LocalTagged(es[k], dfs[k], val) && ShowsRank(ranks[k], df[k])
    {
      RankReady(d, atoms, st, es, t, cutoff, k, loads[k], ranks[k]);
      SlotsAreAt(es, dfs, df, k);
    }
    CarriesBefore(d, atoms, st, es, dfs, df, val);
    HoldBy(d, ranks, df);
  }

  lemma SlotsAreAt(es: seq<PF.Store>, dfs: seq<seq<real>>, df: ForceState, k: nat)
    requires SlotsAre(es, dfs, df) && k < |es|
    ensures |es| == |dfs| == |df| && df[k] == SlotsOf(es[k], dfs[k])
  {
  }

  lemma HoldBy(d: Domain, ranks: seq<ForceData>, df: ForceState)
    requires |ranks| == |df| == NRanks(d) && AllForces.OwnArrays(ranks)
    requires forall k :: 0 <= k < |ranks| ==> ShowsRank(ranks[k], df[k])
    ensures HoldForces(d, ranks, df)
  {
    hide ShowsRank, NRanks;
  }

  lemma RankReady(d: Domain, atoms: AtomSet, st: State, es: seq<PF.Store>, t: Tables, cutoff: real, k: nat,
                  load: array<LS.Load>, r: ForceData)
    requires EamWorld(d, atoms, st, es, t, cutoff) && k < |es| && ValidDomain(d) && GoodTables(t, cutoff)
    requires RankArrays(es[k], r) && DensityRank(es[k], t, cutoff, load, r)
    ensures LocalTagged(es[k], r.dfEmbed[..], Derivatives(d, atoms, t, cutoff))
    ensures ShowsRank(r, SlotsOf(es[k], r.dfEmbed[..]))
    ensures LoadsOf(es[k], load[..], EmbeddedLoads(d, atoms, t, cutoff))
  {
    DensityRankIs(es[k], t, cutoff, load, r);
    hide *;
    var e, df := es[k], r.dfEmbed[..];
    EamReady(d, atoms, st, es, t, cutoff, k);
    DoneSizes(e, t, cutoff, load[..], df);
    RankShows(e, r);
    DensityLoads(d, atoms, st, ProcCoord(d, k), e, t, cutoff, load[..], df);
    forall x | 0 <= x < FP.LocalSlots(e) && x < |df| && FP.InUse(e, x)
      ensures TaggedAt(e, df, Derivatives(d, atoms, t, cutoff), x)
    {
      DensitySlot(d, atoms, st, ProcCoord(d, k), e, t, cutoff, load[..], df, x);
      TaggedBy(e, df, Derivatives(d, atoms, t, cutoff), x);
    }
    LocalTaggedBy(e, df, Derivatives(d, atoms, t, cutoff));
  }

  lemma DensityRankIs(e: PF.Store, t: Tables, cutoff: real, load: array<LS.Load>, r: ForceData)
    requires DensityRank(e, t, cutoff, load, r)
    ensures DensityDone(e, t, cutoff, load[..], r.dfEmbed[..])
  {
    hide DensityDone;
  }

  lemma TaggedBy(e: PF.Store, df: seq<real>, val: int -> real, x: int)
    requires 0 <= x < |e.gid| && x < |df| && df[x] == val(e.gid[x])
    ensures TaggedAt(e, df, val, x)
  {
  }

  lemma LocalTaggedBy(e: PF.Store, df: seq<real>, val: int -> real)
    requires |df| == |e.r| == |e.gid|
    requires forall x :: 0 <= x < FP.LocalSlots(e) && x < |df| && FP.InUse(e, x) ==> TaggedAt(e, df, val, x)
    ensures LocalTagged(e, df, val)
  {
    hide FP.LocalSlots, FP.InUse, TaggedAt;
  }

  /** One rank is ready for the last step. */
  ghost predicate ReadyRank(e: PF.Store, load: array<LS.Load>, r: ForceData, f: int -> LS.Load, val: int -> real)
    reads load, r.dfEmbed
  {
    LoadsOf(e, load[..], f) && r.dfEmbed.Length == |e.r| && AllTagged(e, r.dfEmbed[..], val)
  }

  /** Every slot in use has the value that belongs to its atom's id. */
  ghost predicate AllTagged(e: PF.Store, df: seq<real>, val: int -> real) {
    |df| == |e.r| && forall b, l :: PF.Holds(e, b, l) ==> TaggedAt(e, df, val, PF.Slot(b, l))
  }

  ghost predicate ReadyAll(d: Domain, atoms: AtomSet, es: seq<PF.Store>, t: Tables, cutoff: real,
                           loads: seq<array<LS.Load>>, ranks: seq<ForceData>, parts: seq<real>)
    reads WF.Arrays(loads), Arrays(ranks)
  {
    && ValidDomain(d) && GoodTables(t, cutoff)
    && |es| == |loads| == |ranks| == |parts|
    && forall k :: 0 <= k < |es| ==>
         && ReadyRank(es[k], loads[k], ranks[k], EmbeddedLoads(d, atoms, t, cutoff), Derivatives(d, atoms, t, cutoff))
         && EnergyRank(es[k], loads[k], parts[k])
  }

  lemma AfterExchange(d: Domain, atoms: AtomSet, st: State, es: seq<PF.Store>, t: Tables, cutoff: real, k: nat,
                      load: array<LS.Load>, r: ForceData, after: ForceState)
    requires EamWorld(d, atoms, st, es, t, cutoff) && k < |es| && ValidDomain(d) && GoodTables(t, cutoff)
    requires ValidForce(d, st, after) && Carries(d, st, after, Derivatives(d, atoms, t, cutoff), AtomProtocol.ALL)
    requires k < |after| && RankArrays(es[k], r) && ShowsRank(r, after[k])
    requires LoadsOf(es[k], load[..], EmbeddedLoads(d, atoms, t, cutoff))
    ensures ReadyRank(es[k], load, r, EmbeddedLoads(d, atoms, t, cutoff), Derivatives(d, atoms, t, cutoff))
  {
    assert World(d, atoms, st, es);
    assert PF.ValidStore(es[k]);
    assert r.dfEmbed.Length == |es[k].r|;
    var val, df := Derivatives(d, atoms, t, cutoff), r.dfEmbed[..];
    var p := ForcePass(t, cutoff, df, true);
    assert p.law.Embedding? && p.law.dfEmbed == df;
    hide *;
    ShownSlots(es[k], r, after[k]);
    TaggedAfter(d, atoms, st, es, k, df, after, val, p);
    TaggedIs(es[k], p, val, df);
    ReadyBy(es[k], load, r, EmbeddedLoads(d, atoms, t, cutoff), val);
  }

  lemma TaggedIs(e: PF.Store, p: PL.Potential, val: int -> real, df: seq<real>)
    requires p.law.Embedding? && p.law.dfEmbed == df
    ensures Tagged(e, p, val) <==> AllTagged(e, df, val)
  {
    hide TaggedAt;
  }

  lemma ReadyBy(e: PF.Store, load: array<LS.Load>, r: ForceData, f: int -> LS.Load, val: int -> real)
    requires LoadsOf(e, load[..], f) && r.dfEmbed.Length == |e.r| && AllTagged(e, r.dfEmbed[..], val)
    ensures ReadyRank(e, load, r, f, val)
  {
    hide LoadsOf, AllTagged;
  }

  /** The exchange in the middle: every rank gets the derivatives of all atoms it holds. */
  method ExchangeDerivatives(d: Domain, ghost atoms: AtomSet, ghost st: State, es: seq<PF.Store>, t: Tables,
                             cutoff: real, loads: seq<array<LS.Load>>, ranks: seq<ForceData>, parts: seq<real>)
    requires EamWorld(d, atoms, st, es, t, cutoff) && EamArrays(es, loads, ranks)
    requires DensitiesSoFar(es, t, cutoff, loads, ranks, parts, |es|)
    modifies ValueArrays(ranks)
    ensures EamArrays(es, loads, ranks)
    ensures ReadyAll(d, atoms, es, t, cutoff, loads, ranks, parts)
  {
    ghost var df := Sending(es, Fields(ranks));
    ReadyToSend(d, atoms, st, es, t, cutoff, loads, ranks, parts, df);
    WorldOwners(d, atoms, st, es, t, cutoff);
    hide LoadsOf, OwnEnergy, EamWorld, ValidForce, ValidState, Carries, Derivatives, EmbeddedLoads, PlacedInOrder,
         ValidPopulation, WithOwners, GoodTables, ValidDomain, DensityDone, ForceBuffers.Shows, Sending, Fields, NRanks,
         AllTagged;
    forall k | 0 <= k < |es|
      ensures LoadsOf(es[k], loads[k][..], EmbeddedLoads(d, atoms, t, cutoff))
    {
      assert RankArrays(es[k], ranks[k]) && DensityRank(es[k], t, cutoff, loads[k], ranks[k]);
      RankReady(d, atoms, st, es, t, cutoff, k, loads[k], ranks[k]);
    }
    ghost var after := ForceHaloExchange(d, ranks, WithOwners(d, atoms), st, df, Derivatives(d, atoms, t, cutoff));
    forall k | 0 <= k < |es|
      ensures RankArrays(es[k], ranks[k])
      ensures ReadyRank(es[k], loads[k], ranks[k], EmbeddedLoads(d, atoms, t, cutoff), Derivatives(d, atoms, t, cutoff))
      ensures EnergyRank(es[k], loads[k], parts[k])
    {
      assert old(RankArrays(es[k], ranks[k])) && old(EnergyRank(es[k], loads[k], parts[k]));
      AfterExchange(d, atoms, st, es, t, cutoff, k, loads[k], ranks[k], after);
    }
  }

  lemma WorldOwners(d: Domain, atoms: AtomSet, st: State, es: seq<PF.Store>, t: Tables, cutoff: real)
    requires EamWorld(d, atoms, st, es, t, cutoff)
    ensures ValidDomain(d) && ValidPopulation(d, WithOwners(d, atoms)) && PlacedInOrder(d, WithOwners(d, atoms), st)
  {
    hide PlacedInOrder, ValidAtoms, WithOwners;
    OwnersValid(d, atoms);
  }

  // ----- the last step

  lemma LastReady(d: Domain, atoms: AtomSet, st: State, es: seq<PF.Store>, t: Tables, cutoff: real, k: nat,
                  df: seq<real>, strict: bool)
    requires EamWorld(d, atoms, st, es, t, cutoff) && k < |es| && ValidDomain(d) && GoodTables(t, cutoff)
    requires AllTagged(es[k], df, Derivatives(d, atoms, t, cutoff))
    ensures Imaged(d, WithOwners(d, atoms), st, ProcCoord(d, k), es[k], ForcePass(t, cutoff, df, strict),
                   Derivatives(d, atoms, t, cutoff))
  {
    PassesGood(t, cutoff, df, strict);
    var p := ForcePass(t, cutoff, df, strict);
    assert World(d, atoms, st, es) && WideCells(d, p) && p.law.Embedding? && p.law.dfEmbed == df;
    hide *;
    TaggedIs(es[k], p, Derivatives(d, atoms, t, cutoff), df);
    WorldImaged(d, atoms, st, es, k, p, Derivatives(d, atoms, t, cutoff));
  }

  lemma ReadyMeans(e: PF.Store, load: array<LS.Load>, r: ForceData, f: int -> LS.Load, val: int -> real, part: real)
    requires ReadyRank(e, load, r, f, val) && EnergyRank(e, load, part)
    ensures LoadsOf(e, load[..], f) && r.dfEmbed.Length == |e.r| == load.Length && AllTagged(e, r.dfEmbed[..], val)
    ensures PF.ValidStore(e) && 0 <= FP.LocalSlots(e) <= |e.r| && part == LS.Energy(load[..], FP.LocalSlots(e))
  {
    FP.LocalSlotsInside(e);
    hide PF.ValidStore, AllTagged, FP.LocalSlots, LS.Energy;
  }

  /** The last step on one rank. */
  method RankForces(half: bool, ghost d: Domain, ghost atoms: AtomSet, ghost st: State, es: seq<PF.Store>, t: Tables,
                    cutoff: real, k: nat, nbrBoxes: seq<seq<int>>, load: array<LS.Load>, r: ForceData, part: real)
    returns (etot: real)
    requires half ==> Separate(atoms)
    requires EamWorld(d, atoms, st, es, t, cutoff) && k < |es| && WF.Cached(es[k], nbrBoxes)
    requires ValidDomain(d) && GoodTables(t, cutoff) && EnergyRank(es[k], load, part)
    requires ReadyRank(es[k], load, r, EmbeddedLoads(d, atoms, t, cutoff), Derivatives(d, atoms, t, cutoff))
    modifies load
    ensures WF.RankLoads(es[k], load, EamLoads(d, atoms, t, cutoff, half)) && etot == OwnEnergy(es[k], load[..])
  {
    EamReady(d, atoms, st, es, t, cutoff, k);
    WF.CachedMeans(es[k], nbrBoxes);
    hide *;
    ReadyMeans(es[k], load, r, EmbeddedLoads(d, atoms, t, cutoff), Derivatives(d, atoms, t, cutoff), part);
    ghost var rho, start := ProcCoord(d, k), load[..];
    LastReady(d, atoms, st, es, t, cutoff, k, r.dfEmbed[..], half);
    if half {
      etot := HalfForces(d, rho, es[k], t, cutoff, r.dfEmbed[..], load, part);
    } else {
      etot := FullForces(d, rho, es[k], t, cutoff, nbrBoxes, r.dfEmbed[..], load, part);
    }
    ForceLoads(d, atoms, st, rho, es[k], t, cutoff, r.dfEmbed[..], half, start, load[..]);
    OwnEnergyIs(es[k], load[..]);
    WF.RankLoadsBy(es[k], load, EamLoads(d, atoms, t, cutoff, half));
  }

  /** The first n ranks have all steps behind them, the others the last one to come. */
  ghost predicate ForcesSoFar(half: bool, d: Domain, atoms: AtomSet, es: seq<PF.Store>, t: Tables, cutoff: real,
                              loads: seq<array<LS.Load>>, ranks: seq<ForceData>, parts: seq<real>, n: nat)
    reads WF.Arrays(loads), Arrays(ranks)
  {
    && ValidDomain(d) && GoodTables(t, cutoff)
    && n <= |es| == |loads| == |ranks| == |parts|
    && forall k :: 0 <= k < |es| ==>
         if k < n then WF.RankLoads(es[k], loads[k], EamLoads(d, atoms, t, cutoff, half))
         else
           && ReadyRank(es[k], loads[k], ranks[k], EmbeddedLoads(d, atoms, t, cutoff), Derivatives(d, atoms, t, cutoff))
           && EnergyRank(es[k], loads[k], parts[k])
  }

  method ForceTurn(half: bool, ghost d: Domain, ghost atoms: AtomSet, ghost st: State, es: seq<PF.Store>, t: Tables,
                   cutoff: real, k: nat, nbrBoxes: seq<seq<int>>, loads: seq<array<LS.Load>>, ranks: seq<ForceData>,
                   parts: seq<real>, sofar: real)
    returns (etot: real)
    requires half ==> Separate(atoms)
    requires EamWorld(d, atoms, st, es, t, cutoff) && k < |es| && WF.Cached(es[k], nbrBoxes)
    requires EamArrays(es, loads, ranks) && ForcesSoFar(half, d, atoms, es, t, cutoff, loads, ranks, parts, k)
    requires ValidDomain(d) && GoodTables(t, cutoff)
    requires sofar == EnergySoFar(es, EamLoads(d, atoms, t, cutoff, half), k)
    modifies loads[k]
    ensures EamArrays(es, loads, ranks) && ForcesSoFar(half, d, atoms, es, t, cutoff, loads, ranks, parts, k + 1)
    ensures etot == EnergySoFar(es, EamLoads(d, atoms, t, cutoff, half), k + 1)
  {
    ghost var done, before, val :=
      EamLoads(d, atoms, t, cutoff, half), EmbeddedLoads(d, atoms, t, cutoff), Derivatives(d, atoms, t, cutoff);
    hide EamWorld, WF.Cached, WF.RankLoads, ReadyRank, EnergyRank, EamLoads, EmbeddedLoads, Derivatives, ValidDomain,
         GoodTables, OwnEnergy, EnergySoFar;
    var part := RankForces(half, d, atoms, st, es, t, cutoff, k, nbrBoxes, loads[k], ranks[k], parts[k]);
    EnergyGoesOn(d, atoms, st, es, t, cutoff, loads[k], done, k);
    etot := sofar + part;
    forall i | 0 <= i < |es|
      ensures if i < k + 1 then WF.RankLoads(es[i], loads[i], done)
              else ReadyRank(es[i], loads[i], ranks[i], before, val) && EnergyRank(es[i], loads[i], parts[i])
    {
      if i < k {
        assert old(WF.RankLoads(es[i], loads[i], done));
      } else if i > k {
        assert old(ReadyRank(es[i], loads[i], ranks[i], before, val)) && old(EnergyRank(es[i], loads[i], parts[i]));
      }
    }
    forall i | 0 <= i < |es|
      ensures RankArrays(es[i], ranks[i])
    {
      assert old(RankArrays(es[i], ranks[i]));
    }
  }

  /** The energy of the atoms of the first n ranks. */
  ghost function EnergySoFar(es: seq<PF.Store>, f: int -> LS.Load, n: nat): real
    requires n <= |es|
  {
    SetSum(RankIds(es, n), f).u
  }

  lemma EnergyGoesOn(d: Domain, atoms: AtomSet, st: State, es: seq<PF.Store>, t: Tables, cutoff: real,
                     load: array<LS.Load>, f: int -> LS.Load, n: nat)
    requires EamWorld(d, atoms, st, es, t, cutoff) && n < |es| && WF.RankLoads(es[n], load, f)
    ensures EnergySoFar(es, f, n + 1) == EnergySoFar(es, f, n) + OwnEnergy(es[n], load[..])
  {
    hide World, SetSum, RankIds, OwnEnergy, LoadsOf;
    NextRankEnergy(d, atoms, st, es, load[..], f, n);
  }

  lemma EnergyStarts(es: seq<PF.Store>, f: int -> LS.Load)
    ensures EnergySoFar(es, f, 0) == 0.0
  {
    NoRankEnergy(es, f);
    hide SetSum, RankIds;
  }

  lemma EnergyEnds(d: Domain, atoms: AtomSet, st: State, es: seq<PF.Store>, t: Tables, cutoff: real, half: bool)
    requires EamWorld(d, atoms, st, es, t, cutoff) && ValidDomain(d) && GoodTables(t, cutoff)
    ensures EnergySoFar(es, EamLoads(d, atoms, t, cutoff, half), |es|) == EamEnergy(d, atoms, t, cutoff, half)
  {
    AllIds(d, atoms, st, es);
    hide World, SetSum, RankIds, EamLoads;
  }

  /** eamForce on all ranks, and the reduction of the energy: with either kernel every
      atom gets the loads that its periodic images within the cutoff give it, and the
      energy is that of all atoms. */
  method EamForceAll(half: bool, d: Domain, ghost atoms: AtomSet, ghost st: State, es: seq<PF.Store>, t: Tables,
                     cutoff: real, nbrBoxes: seq<seq<int>>, loads: seq<array<LS.Load>>, ranks: seq<ForceData>)
    returns (etot: real)
    requires half ==> Separate(atoms)
    requires EamWorld(d, atoms, st, es, t, cutoff) && EamArrays(es, loads, ranks)
    requires forall k :: 0 <= k < |es| ==> WF.Cached(es[k], nbrBoxes)
    modifies WF.Arrays(loads), ValueArrays(ranks)
    ensures ValidDomain(d) && GoodTables(t, cutoff)
    ensures WF.LoadsSoFar(es, loads, EamLoads(d, atoms, t, cutoff, half), |es|)
    ensures etot == EamEnergy(d, atoms, t, cutoff, half)
  {
    hide *;
    EamWorldMeans(d, atoms, st, es, t, cutoff);
    var parts := AllDensities(half, d, atoms, st, es, t, cutoff, nbrBoxes, loads, ranks);
    ExchangeDerivatives(d, atoms, st, es, t, cutoff, loads, ranks, parts);
    ForcesStart(half, d, atoms, es, t, cutoff, loads, ranks, parts);
    EnergyStarts(es, EamLoads(d, atoms, t, cutoff, half));
    etot := 0.0;
    var k := 0;
    while k < |es|
      invariant 0 <= k <= |es| && EamArrays(es, loads, ranks)
      invariant ForcesSoFar(half, d, atoms, es, t, cutoff, loads, ranks, parts, k)
      invariant etot == EnergySoFar(es, EamLoads(d, atoms, t, cutoff, half), k)
    {
      ArraysOf(es, loads, ranks, k);
      etot := ForceTurn(half, d, atoms, st, es, t, cutoff, k, nbrBoxes, loads, ranks, parts, etot);
      k := k + 1;
    }
    EnergyEnds(d, atoms, st, es, t, cutoff, half);
    ForcesEnd(half, d, atoms, es, t, cutoff, loads, ranks, parts);
  }

  lemma EamWorldMeans(d: Domain, atoms: AtomSet, st: State, es: seq<PF.Store>, t: Tables, cutoff: real)
    requires EamWorld(d, atoms, st, es, t, cutoff)
    ensures ValidDomain(d) && GoodTables(t, cutoff) && World(d, atoms, st, es)
  {
  }

  lemma ForcesStart(half: bool, d: Domain, atoms: AtomSet, es: seq<PF.Store>, t: Tables, cutoff: real,
                    loads: seq<array<LS.Load>>, ranks: seq<ForceData>, parts: seq<real>)
    requires ReadyAll(d, atoms, es, t, cutoff, loads, ranks, parts)
    ensures ForcesSoFar(half, d, atoms, es, t, cutoff, loads, ranks, parts, 0)
  {
    hide ReadyRank, EnergyRank, WF.RankLoads, ValidDomain, GoodTables;
  }

  lemma ForcesEnd(half: bool, d: Domain, atoms: AtomSet, es: seq<PF.Store>, t: Tables, cutoff: real,
                  loads: seq<array<LS.Load>>, ranks: seq<ForceData>, parts: seq<real>)
    requires ForcesSoFar(half, d, atoms, es, t, cutoff, loads, ranks, parts, |es|)
    ensures ValidDomain(d) && GoodTables(t, cutoff)
    ensures WF.LoadsSoFar(es, loads, EamLoads(d, atoms, t, cutoff, half), |es|)
  {
    hide ReadyRank, EnergyRank, WF.RankLoads, ValidDomain, GoodTables;
  }
}
