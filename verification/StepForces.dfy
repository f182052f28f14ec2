/** A time step's redistribution followed by the force computation, on the stores of all
    ranks. */
module StepForces {
  import opened Triples
  import opened LinkCellIndex
  import opened Decomposition
  import opened Atoms
  import opened LinkCells
  import opened Placement
  import opened Redistribute
  import opened Simulation
  import opened AllRanks
  import opened PairImages
  import opened ConsistentStores
  import opened WorldForces
  import PF = PairForces
  import PL = PairLaws
  import LoadSums
  import LennardJones

  /** What the force kernels read of a rank's link cells. */
  function StoreOf(s: LinkCellStore): PF.Store
    reads s, s.nAtoms, s.atoms
  {
    PF.Store(s.d.gridSize, s.nAtoms[..],
             seq(s.atoms.Length, i requires 0 <= i < s.atoms.Length reads s.atoms => s.atoms[i].r),
             seq(s.atoms.Length, i requires 0 <= i < s.atoms.Length reads s.atoms => s.atoms[i].gid))
  }

  lemma StoreIsValid(s: LinkCellStore)
    requires s.Valid()
    ensures PF.ValidStore(StoreOf(s))
    ensures |StoreOf(s).nAtoms| == |s.contents| == s.nTotalBoxes && |StoreOf(s).r| == s.atoms.Length
  {
    hide NLocalBoxes, NTotalBoxes;
    GridIsValid(s.d);
    forall b | 0 <= b < s.nTotalBoxes
      ensures s.nAtoms[b] <= PF.SLOTS
    {
      assert s.Stores(b, s.contents[b]);
    }
  }

  lemma StoreCell(s: LinkCellStore, b: nat)
    requires s.Valid() && b < s.nTotalBoxes
    ensures b < |s.contents| && SameCell(StoreOf(s), b, s.contents[b])
  {
    hide NLocalBoxes, NTotalBoxes, ValidDomain;
    assert s.Stores(b, s.contents[b]);
    var e, cell := StoreOf(s), s.contents[b];
    forall k | 0 <= k < |cell|
      ensures SameSlot(e, PF.Slot(b, k), cell[k])
    {
      assert s.atoms[b * MAXATOMS + k] == cell[k];
    }
  }

  /** The store of a rank holds the rank's cells. */
  lemma StoreFromRank(d: Domain, st: State, s: LinkCellStore, k: nat)
    requires ValidDomain(d) && ValidState(d, st) && k < |st| && IsRank(d, s, k, st[k])
    ensures FromRank(d, st, ProcCoord(d, k), StoreOf(s))
  {
    var e, rho := StoreOf(s), ProcCoord(d, k);
    StoreIsValid(s);
    CoordRoundTrip(d, k);
    hide NLocalBoxes, NTotalBoxes, GetBoxFromTuple, GetTuple, ProcCoord, RankOf, StoreOf, PF.ValidStore, SameCell;
    assert e.g == d.gridSize by { StoreGrid(s); }
    forall t: Triple<int> | ValidTuple(e.g, t)
      ensures SameCell(e, GetBoxFromTuple(e.g, t), CellAt(d, st, rho, t))
    {
      CellInRange(d, st, rho, t);
      StoreCell(s, GetBoxFromTuple(e.g, t));
    }
  }

  lemma StoreGrid(s: LinkCellStore)
    ensures StoreOf(s).g == s.d.gridSize
  {
  }

  /** The stores read off all ranks. */
  ghost predicate ReadOff(stores: seq<LinkCellStore>, es: seq<PF.Store>, n: nat)
    reads Memory(stores)
  {
    n <= |es| && n <= |stores| && forall k :: 0 <= k < n ==> ReadOffAt(stores[k], es[k])
  }

  ghost predicate ReadOffAt(s: LinkCellStore, e: PF.Store)
    reads s, s.nAtoms, s.atoms
  {
    e == StoreOf(s)
  }

  /** Ranks in a consistent state are a world for the kernels. */
  lemma RanksAreWorld(d: Domain, atoms: AtomSet, st: State, stores: seq<LinkCellStore>, es: seq<PF.Store>)
    requires ValidDomain(d) && Hold(d, stores, st) && ReadOff(stores, es, |stores|) && |es| == |stores|
    requires ValidState(d, st) && Consistent(d, atoms, st)
    ensures World(d, atoms, st, es)
  {
    hide ValidDomain, Consistent, IsRank, StoreOf, FromRank, NRanks, ProcCoord, ValidState;
    forall k | 0 <= k < |es|
      ensures WorldAt(d, st, es[k], k)
    {
      assert IsRank(d, stores[k], k, st[k]) && ReadOffAt(stores[k], es[k]);
      StoreFromRank(d, st, stores[k], k);
      WorldAtBy(d, st, es[k], k);
    }
  }

  lemma WorldAtBy(d: Domain, st: State, e: PF.Store, k: nat)
    requires ValidDomain(d) && ValidState(d, st) && k < |st| && FromRank(d, st, ProcCoord(d, k), e)
    ensures WorldAt(d, st, e, k)
  {
    hide FromRank;
  }

  method ReadStores(stores: seq<LinkCellStore>) returns (es: seq<PF.Store>)
    ensures |es| == |stores| && ReadOff(stores, es, |stores|)
  {
    hide StoreOf;
    es := [];
    for k := 0 to |stores|
      invariant |es| == k && ReadOff(stores, es, k)
    {
      es := es + [StoreOf(stores[k])];
    }
  }

  /** The atoms after a step: each moved, and wrapped into the box. */
  ghost function AtomsAfter(d: Domain, atoms: AtomSet, st: State, moved: State): AtomSet
    requires ValidDomain(d) && Consistent(d, atoms, st) && Advanced(d, st, moved)
  {
    WrapAll(d, MovedPopulation(d, atoms, st, moved))
  }

  /** The cells have room for the step's atoms, and no two of them are at the same place. */
  ghost predicate RoomForStep(d: Domain, atoms: AtomSet, st: State, moved: State)
    requires ValidDomain(d) && Consistent(d, atoms, st) && Advanced(d, st, moved)
  {
    && ValidState(d, moved)
    && RoomForImages(d, MovedPopulation(d, atoms, st, moved))
    && Separate(AtomsAfter(d, atoms, st, moved))
  }

  lemma StepParts(d: Domain, atoms: AtomSet, st: State, moved: State)
    requires ValidDomain(d) && Consistent(d, atoms, st) && Advanced(d, st, moved) && RoomForStep(d, atoms, st, moved)
    ensures ValidState(d, moved) && RoomForImages(d, MovedPopulation(d, atoms, st, moved))
    ensures ValidPopulation(d, MovedPopulation(d, atoms, st, moved))
    ensures OwnedBy(d, MovedPopulation(d, atoms, st, moved), moved)
    ensures Separate(AtomsAfter(d, atoms, st, moved))
    ensures AtomsAfter(d, atoms, st, moved) == WrapAll(d, MovedPopulation(d, atoms, st, moved))
  {
    hide *;
    StepRoom(d, atoms, st, moved);
    MovedPopulationValid(d, atoms, st, moved);
    MovedOwned(d, atoms, st, moved);
  }

  lemma StepRoom(d: Domain, atoms: AtomSet, st: State, moved: State)
    requires ValidDomain(d) && Consistent(d, atoms, st) && Advanced(d, st, moved) && RoomForStep(d, atoms, st, moved)
    ensures ValidState(d, moved) && RoomForImages(d, MovedPopulation(d, atoms, st, moved))
    ensures Separate(AtomsAfter(d, atoms, st, moved))
    ensures AtomsAfter(d, atoms, st, moved) == WrapAll(d, MovedPopulation(d, atoms, st, moved))
  {
  }

  lemma RanksHold(d: Domain, stores: seq<LinkCellStore>)
    requires ValidDomain(d) && OnePerRank(d, stores)
    ensures Hold(d, stores, Contents(stores)) && ValidState(d, Contents(stores))
  {
  }

  /** redistributeAtoms after a step in which no atom moved by more than a cell. */
  method RedistributeStep(d: Domain, stores: seq<LinkCellStore>, ghost atoms: AtomSet, ghost st: State,
                          ghost moved: State)
    returns (ok: bool, ghost next: State)
    requires ValidDomain(d) && Consistent(d, atoms, st) && Advanced(d, st, moved) && Hold(d, stores, moved)
    requires RoomForStep(d, atoms, st, moved)
    modifies Memory(stores)
    ensures RoomToRebinAll(d, moved) ==> ok
    ensures ok ==> Hold(d, stores, next) && ValidState(d, next)
    ensures ok ==> Consistent(d, AtomsAfter(d, atoms, st, moved), next)
    ensures Separate(AtomsAfter(d, atoms, st, moved))
  {
    ghost var pop := MovedPopulation(d, atoms, st, moved);
    hide *;
    HeldContents(d, stores, moved);
    StepParts(d, atoms, st, moved);
    ok := RedistributeAtoms(d, stores, pop);
    next := Contents(stores);
    if ok {
      RanksHold(d, stores);
      PlacedWrapped(d, pop, next);
    }
  }

  lemma LjWorldBy(d: Domain, atoms: AtomSet, st: State, es: seq<PF.Store>, p: PL.Potential)
    requires World(d, atoms, st, es) && WideCells(d, p) && p.law.LennardJones?
    ensures LjWorld(d, atoms, st, es, p) && PL.Good(p)
  {
    hide World;
  }

  /** One array of loads for each rank, with a place for each slot. */
  ghost predicate LoadArrays(stores: seq<LinkCellStore>, loads: seq<array<LoadSums.Load>>)
  {
    && |loads| == |stores|
    && (forall k :: 0 <= k < |loads| ==> loads[k].Length == stores[k].atoms.Length)
    && forall i, k :: 0 <= i < k < |loads| ==> loads[i] != loads[k]
  }

  lemma ArraysFit(d: Domain, st: State, stores: seq<LinkCellStore>, es: seq<PF.Store>,
                  loads: seq<array<LoadSums.Load>>)
    requires ValidDomain(d) && Hold(d, stores, st) && ReadOff(stores, es, |stores|) && |es| == |stores|
    requires LoadArrays(stores, loads)
    ensures OwnArrays(es, loads)
  {
    hide ValidDomain, StoreOf, NRanks, ProcCoord;
    forall k | 0 <= k < |loads|
      ensures loads[k].Length == |es[k].r|
    {
      assert IsRank(d, stores[k], k, st[k]) && ReadOffAt(stores[k], es[k]);
      StoreIsValid(stores[k]);
    }
  }

  /** After a step the ranks redistribute their atoms and compute forces: every atom, at
      its new position, gets the sum over all its periodic neighbours within the cutoff,
      and the energy is the sum over all atoms. */
  method StepHalfForces(d: Domain, stores: seq<LinkCellStore>, p: PL.Potential, loads: seq<array<LoadSums.Load>>,
                        ghost atoms: AtomSet, ghost st: State, ghost moved: State)
    returns (ok: bool, es: seq<PF.Store>, ePotential: real, ghost next: State)
    requires ValidDomain(d) && Consistent(d, atoms, st) && Advanced(d, st, moved) && Hold(d, stores, moved)
    requires RoomForStep(d, atoms, st, moved)
    requires WideCells(d, p) && p.law.LennardJones? && PL.Good(p) && LoadArrays(stores, loads)
    modifies Memory(stores), Arrays(loads)
    ensures RoomToRebinAll(d, moved) ==> ok
    ensures ok ==> ValidState(d, next) && World(d, AtomsAfter(d, atoms, st, moved), next, es)
    ensures ok ==> LoadsSoFar(es, loads, AtomSums(d, AtomsAfter(d, atoms, st, moved), p, NoValues()), |es|)
    ensures ok ==>
              ePotential ==
              LennardJones.Scale(p.law.epsilon, TotalEnergy(d, AtomsAfter(d, atoms, st, moved), p, NoValues()))
  {
    ghost var after := AtomsAfter(d, atoms, st, moved);
    hide *;
    ok, next := RedistributeStep(d, stores, atoms, st, moved);
    if !ok {
      es, ePotential := [], 0.0;
      return;
    }
    es := ReadStores(stores);
    RanksAreWorld(d, after, next, stores, es);
    LjWorldBy(d, after, next, es, p);
    ArraysFit(d, next, stores, es, loads);
    ePotential := HalfForceAll(d, after, next, es, p, loads);
  }
}
