/** The Lennard-Jones kernels on all ranks of a consistent state: both give every atom
    the sum over all periodic images within the cutoff, and the energy of all atoms. */
module WorldForces {
  import opened Triples
  import opened LinkCellIndex
  import opened Decomposition
  import opened Placement
  import Atoms
  import opened Simulation
  import opened LoadSums
  import opened SetSums
  import opened PairLaws
  import opened PairForces
  import opened FullPairs
  import opened HalfPairs
  import opened PairImages
  import opened ImageSums
  import opened ConsistentStores
  import opened LennardJones

  // ----- the reference

  /** What each atom gets from all periodic images within the cutoff. */
  ghost function AtomSums(d: Domain, atoms: AtomSet, p: Potential, val: int -> real): int -> Load
    requires ValidDomain(d) && Good(p)
  {
    ExtentsPositive(d);
    gid => if gid in atoms then ImageSum(d, WithOwners(d, atoms), p, val, gid, atoms[gid].r) else NONE
  }

  /** The sum of the energies of all atoms. */
  ghost function TotalEnergy(d: Domain, atoms: AtomSet, p: Potential, val: int -> real): real
    requires ValidDomain(d) && Good(p)
  {
    SetSum(atoms.Keys, AtomSums(d, atoms, p, val)).u
  }

  /** The Lennard-Jones law depends on distances only. */
  function NoValues(): int -> real {
    gid => 0.0
  }

  lemma AtomSumIs(d: Domain, atoms: AtomSet, p: Potential, val: int -> real, gid: int)
    requires ValidDomain(d) && Good(p) && gid in atoms
    ensures PositiveExtents(d)
    ensures AtomSums(d, atoms, p, val)(gid) == ImageSum(d, WithOwners(d, atoms), p, val, gid, atoms[gid].r)
  {
    ExtentsPositive(d);
    hide ImageSum;
  }

  /** A pass over pairs adds to a local slot the sum over its atom's images. */
  lemma PassAdds(d: Domain, atoms: AtomSet, st: State, rho: Triple<int>, e: Store, p: Potential, val: int -> real,
                 start: seq<Load>, now: seq<Load>, x: int)
    requires ValidDomain(d) && Consistent(d, atoms, st)
    requires Imaged(d, WithOwners(d, atoms), st, rho, e, p, val)
    requires Added(e, p, start, now) && 0 <= x < LocalSlots(e)
    ensures Good(p) && |start| == |now| == |e.r| == |e.gid| && x < |e.r|
    ensures now[x] == if InUse(e, x) then Plus(start[x], AtomSums(d, atoms, p, val)(e.gid[x])) else start[x]
  {
    hide *;
    ImagedMeans(d, WithOwners(d, atoms), st, rho, e, p, val);
    AddedSizes(e, p, start, now);
    LocalSlotsInside(e);
    AddedLocal(e, p, start, now, x);
    SlotSumIs(e, p, x);
    PlusLaws(start[x], NONE, NONE);
    if InUse(e, x) {
      var a, k := LocalSlotOf(e, x);
      ImagedParts(d, atoms, st, rho, e, p, val);
      LocalIsOwned(d, atoms, st, rho, e, a, k);
      BruteForceIsImageSum(d, WithOwners(d, atoms), st, rho, e, p, val, a, k);
      AtomSumIs(d, atoms, p, val, e.gid[x]);
    }
  }

  lemma SlotSumIs(e: Store, p: Potential, x: int)
    requires ValidStore(e) && Good(p) && 0 <= x < |e.r|
    ensures |e.gid| == |e.r|
    ensures SlotSum(e, p, x) == if InUse(e, x) then BruteForce(e, p, x) else NONE
  {
    hide BruteForce, InUse;
  }

  lemma ImagedParts(d: Domain, atoms: AtomSet, st: State, rho: Triple<int>, e: Store, p: Potential, val: int -> real)
    requires ValidDomain(d) && Imaged(d, WithOwners(d, atoms), st, rho, e, p, val)
    ensures ValidState(d, st) && FromRank(d, st, rho, e) && WideCells(d, p)
  {
  }

  /** After a force computation every local slot has the sum for its atom. */
  lemma ComputedIsSums(d: Domain, atoms: AtomSet, st: State, rho: Triple<int>, e: Store, p: Potential,
                       val: int -> real, loads: seq<Load>)
    requires ValidDomain(d) && Consistent(d, atoms, st)
    requires Imaged(d, WithOwners(d, atoms), st, rho, e, p, val) && Computed(e, p, loads)
    ensures Good(p) && LoadsOf(e, loads, AtomSums(d, atoms, p, val))
  {
    hide *;
    ComputedIs(e, p, loads);
    AddedSizes(e, p, Zeros(|e.r|), loads);
    ImagedMeans(d, WithOwners(d, atoms), st, rho, e, p, val);
    StoreSizes(e);
    forall x | 0 <= x < LocalSlots(e) && x < |loads|
      ensures LoadAt(e, loads, AtomSums(d, atoms, p, val), x)
    {
      ComputedAt(d, atoms, st, rho, e, p, val, loads, x);
    }
    LoadsBy(e, loads, AtomSums(d, atoms, p, val));
  }

  lemma StoreSizes(e: Store)
    requires ValidStore(e)
    ensures |e.r| == |e.gid|
  {
  }

  lemma LoadsBy(e: Store, loads: seq<Load>, f: int -> Load)
    requires ValidStore(e) && |loads| == |e.r| == |e.gid|
    requires forall x :: 0 <= x < LocalSlots(e) && x < |loads| ==> LoadAt(e, loads, f, x)
    ensures LoadsOf(e, loads, f)
  {
    hide LocalSlots, LoadAt;
  }

  lemma ComputedAt(d: Domain, atoms: AtomSet, st: State, rho: Triple<int>, e: Store, p: Potential, val: int -> real,
                   loads: seq<Load>, x: int)
    requires ValidDomain(d) && Consistent(d, atoms, st)
    requires Imaged(d, WithOwners(d, atoms), st, rho, e, p, val) && Computed(e, p, loads)
    requires Good(p) && |loads| == |e.r| == |e.gid| && 0 <= x < LocalSlots(e) && x < |loads|
    ensures LoadAt(e, loads, AtomSums(d, atoms, p, val), x)
  {
    hide *;
    ComputedIs(e, p, loads);
    var f := AtomSums(d, atoms, p, val);
    PassAdds(d, atoms, st, rho, e, p, val, Zeros(|e.r|), loads, x);
    PlusLaws(f(e.gid[x]), NONE, NONE);
    LoadAtBy(e, loads, f, x);
  }

  lemma LoadAtBy(e: Store, loads: seq<Load>, f: int -> Load, x: int)
    requires |loads| == |e.r| == |e.gid| && 0 <= x < |loads|
    requires loads[x] == if InUse(e, x) then f(e.gid[x]) else NONE
    ensures LoadAt(e, loads, f, x)
  {
  }

  lemma ComputedIs(e: Store, p: Potential, loads: seq<Load>)
    requires Computed(e, p, loads)
    ensures Added(e, p, Zeros(|e.r|), loads)
  {
    hide Added;
  }

  // ----- the arrays of all ranks

  ghost function Arrays(loads: seq<array<Load>>): set<array<Load>> {
    set k | 0 <= k < |loads| :: loads[k]
  }

  /** Every rank has an array of its own, with a place for each slot. */
  ghost predicate OwnArrays(es: seq<Store>, loads: seq<array<Load>>) {
    && |loads| == |es|
    && (forall k :: 0 <= k < |loads| ==> loads[k].Length == |es[k].r|)
    && forall i, k :: 0 <= i < k < |loads| ==> loads[i] != loads[k]
  }

  ghost predicate RankLoads(e: Store, load: array<Load>, f: int -> Load)
    reads load
  {
    LoadsOf(e, load[..], f)
  }

  /** The first n ranks have the loads of their atoms. */
  ghost predicate LoadsSoFar(es: seq<Store>, loads: seq<array<Load>>, f: int -> Load, n: nat)
    reads Arrays(loads)
  {
    n <= |loads| == |es| && forall k :: 0 <= k < n ==> RankLoads(es[k], loads[k], f)
  }

  lemma ScaleAdds(epsilon: real, a: real, b: real)
    ensures Scale(epsilon, a + b) == Scale(epsilon, a) + Scale(epsilon, b) && Scale(epsilon, 0.0) == 0.0
  {
  }

  /** What one rank's kernel returns, in terms of its loads. */
  lemma RankEnergyIs(e: Store, p: Potential, loads: seq<Load>)
    requires Computed(e, p, loads) && ValidStore(e) && Good(p) && 0 <= LocalSlots(e) <= |e.r|
    ensures PotentialEnergy(e, p) == OwnEnergy(e, loads)
  {
    AddedSizes(e, p, Zeros(|e.r|), loads);
    hide Energy, Added, LocalSlots, Good, ValidStore, PotentialEnergy;
    ComputedEnergy(e, p, loads);
  }

  /** The world is ready for the Lennard-Jones kernels. */
  ghost predicate LjWorld(d: Domain, atoms: AtomSet, st: State, es: seq<Store>, p: Potential) {
    World(d, atoms, st, es) && WideCells(d, p) && p.law.LennardJones?
  }

  lemma LjReady(d: Domain, atoms: AtomSet, st: State, es: seq<Store>, p: Potential, k: nat)
    requires LjWorld(d, atoms, st, es, p) && k < |es|
    ensures ValidDomain(d) && Consistent(d, atoms, st) && p.law.LennardJones? && Good(p)
    ensures Imaged(d, WithOwners(d, atoms), st, ProcCoord(d, k), es[k], p, NoValues())
    ensures Located(d, ProcCoord(d, k), es[k], p)
    ensures Separate(atoms) ==> Sound(es[k], p)
  {
    hide Consistent, Separate, Placed, FromRank, Located, Sound, ProcCoord, WorldAt;
    WorldImaged(d, atoms, st, es, k, p, NoValues());
    ImagedMeans(d, WithOwners(d, atoms), st, ProcCoord(d, k), es[k], p, NoValues());
    if Separate(atoms) {
      KernelsReady(d, atoms, st, ProcCoord(d, k), es[k], p, NoValues());
    }
  }

  /** ljForce over half pairs on one rank. */
  method HalfForceRank(ghost d: Domain, ghost atoms: AtomSet, ghost st: State, es: seq<Store>, p: Potential, k: nat,
                       load: array<Load>)
    returns (ePotential: real)
    requires Separate(atoms)
    requires LjWorld(d, atoms, st, es, p) && k < |es| && load.Length == |es[k].r| && ValidDomain(d) && Good(p)
    modifies load
    ensures RankLoads(es[k], load, AtomSums(d, atoms, p, NoValues()))
    ensures p.law.LennardJones? && ePotential == Scale(p.law.epsilon, OwnEnergy(es[k], load[..]))
  {
    LjReady(d, atoms, st, es, p, k);
    hide *;
    ePotential := HalfPairForce(d, ProcCoord(d, k), es[k], p, load);
    RankEnergyIs(es[k], p, load[..]);
    ComputedIsSums(d, atoms, st, ProcCoord(d, k), es[k], p, NoValues(), load[..]);
    RankLoadsBy(es[k], load, AtomSums(d, atoms, p, NoValues()));
  }

  lemma RankLoadsBy(e: Store, load: array<Load>, f: int -> Load)
    requires LoadsOf(e, load[..], f)
    ensures RankLoads(e, load, f)
  {
    hide LoadsOf;
  }

  /** ljForce over full pairs on one rank. */
  method FullForceRank(ghost d: Domain, ghost atoms: AtomSet, ghost st: State, es: seq<Store>, p: Potential, k: nat,
                       nbrBoxes: seq<seq<int>>, load: array<Load>)
    returns (ePotential: real)
    requires LjWorld(d, atoms, st, es, p) && k < |es| && load.Length == |es[k].r| && ValidDomain(d) && Good(p)
    requires Cached(es[k], nbrBoxes)
    modifies load
    ensures RankLoads(es[k], load, AtomSums(d, atoms, p, NoValues()))
    ensures p.law.LennardJones? && ePotential == Scale(p.law.epsilon, OwnEnergy(es[k], load[..]))
  {
    LjReady(d, atoms, st, es, p, k);
    CachedMeans(es[k], nbrBoxes);
    hide *;
    ePotential := FullPairForce(d, ProcCoord(d, k), es[k], p, nbrBoxes, load);
    RankEnergyIs(es[k], p, load[..]);
    ComputedIsSums(d, atoms, st, ProcCoord(d, k), es[k], p, NoValues(), load[..]);
    RankLoadsBy(es[k], load, AtomSums(d, atoms, p, NoValues()));
  }

  /** The cached lists are those of the store's grid. */
  ghost predicate Cached(e: Store, nbrBoxes: seq<seq<int>>) {
    && ValidGrid(e.g) && |nbrBoxes| == |e.nAtoms|
    && forall a :: 0 <= a < NLocalBoxes(e.g) && a < |nbrBoxes| ==> nbrBoxes[a] == NeighborBoxes(e.g, a)
  }

  lemma CachedMeans(e: Store, nbrBoxes: seq<seq<int>>)
    requires Cached(e, nbrBoxes)
    ensures ValidGrid(e.g) && |nbrBoxes| == |e.nAtoms|
    ensures forall a :: 0 <= a < NLocalBoxes(e.g) && a < |nbrBoxes| ==> nbrBoxes[a] == NeighborBoxes(e.g, a)
  {
  }

  // ----- all ranks

  /** The sum over the first n ranks of what they return. */
  ghost function SumSoFar(es: seq<Store>, f: int -> Load, epsilon: real, n: nat): real
    requires n <= |es|
  {
    Scale(epsilon, SetSum(RankIds(es, n), f).u)
  }

  lemma SumStarts(es: seq<Store>, f: int -> Load, epsilon: real)
    ensures SumSoFar(es, f, epsilon, 0) == 0.0
  {
    NoRankEnergy(es, f);
    hide SetSum, RankIds;
  }

  lemma SumNextRank(d: Domain, atoms: AtomSet, st: State, es: seq<Store>, load: array<Load>, f: int -> Load,
                    epsilon: real, n: nat)
    requires World(d, atoms, st, es) && n < |es| && RankLoads(es[n], load, f)
    ensures SumSoFar(es, f, epsilon, n + 1) == SumSoFar(es, f, epsilon, n) + Scale(epsilon, OwnEnergy(es[n], load[..]))
  {
    hide World, SetSum, RankIds, Scale, OwnEnergy, LoadsOf;
    NextRankEnergy(d, atoms, st, es, load[..], f, n);
    ScaleAdds(epsilon, SetSum(RankIds(es, n), f).u, OwnEnergy(es[n], load[..]));
  }

  lemma SumEnds(d: Domain, atoms: AtomSet, st: State, es: seq<Store>, p: Potential, val: int -> real, epsilon: real)
    requires World(d, atoms, st, es) && ValidDomain(d) && Good(p)
    ensures SumSoFar(es, AtomSums(d, atoms, p, val), epsilon, |es|) == Scale(epsilon, TotalEnergy(d, atoms, p, val))
  {
    AllIds(d, atoms, st, es);
    hide World, SetSum, RankIds, Scale, AtomSums;
  }

  lemma WorldParts(d: Domain, atoms: AtomSet, st: State, es: seq<Store>, p: Potential)
    requires LjWorld(d, atoms, st, es, p)
    ensures World(d, atoms, st, es) && ValidDomain(d) && Good(p) && p.law.LennardJones?
  {
  }

  lemma LoadsStart(es: seq<Store>, loads: seq<array<Load>>, f: int -> Load)
    requires OwnArrays(es, loads)
    ensures LoadsSoFar(es, loads, f, 0)
  {
  }

  lemma ArrayOf(es: seq<Store>, loads: seq<array<Load>>, k: nat)
    requires OwnArrays(es, loads) && k < |es|
    ensures k < |loads| && loads[k] in Arrays(loads)
  {
  }

  method HalfForceTurn(ghost d: Domain, ghost atoms: AtomSet, ghost st: State, es: seq<Store>, p: Potential, k: nat,
                       loads: seq<array<Load>>, sofar: real)
    returns (ePotential: real)
    requires Separate(atoms)
    requires LjWorld(d, atoms, st, es, p) && k < |es| && ValidDomain(d) && Good(p) && OwnArrays(es, loads)
    requires LoadsSoFar(es, loads, AtomSums(d, atoms, p, NoValues()), k)
    requires p.law.LennardJones?
    requires sofar == SumSoFar(es, AtomSums(d, atoms, p, NoValues()), p.law.epsilon, k)
    modifies loads[k]
    ensures LoadsSoFar(es, loads, AtomSums(d, atoms, p, NoValues()), k + 1)
    ensures ePotential == SumSoFar(es, AtomSums(d, atoms, p, NoValues()), p.law.epsilon, k + 1)
  {
    WorldParts(d, atoms, st, es, p);
    hide LjWorld, World, SumSoFar, ValidDomain, Good, AtomSums, RankLoads, OwnEnergy, Scale;
    ghost var f := AtomSums(d, atoms, p, NoValues());
    var part := HalfForceRank(d, atoms, st, es, p, k, loads[k]);
    SumNextRank(d, atoms, st, es, loads[k], f, p.law.epsilon, k);
    ePotential := sofar + part;
    forall i | 0 <= i < k + 1
      ensures RankLoads(es[i], loads[i], f)
    {
      if i != k {
        assert old(RankLoads(es[i], loads[i], f));
      }
    }
  }

  /** ljForce over half pairs on all ranks, and the reduction of the energy: every atom
      gets the sum over all periodic images within the cutoff, and the energy is that of
      all atoms. */
  method HalfForceAll(ghost d: Domain, ghost atoms: AtomSet, ghost st: State, es: seq<Store>, p: Potential,
                      loads: seq<array<Load>>)
    returns (ePotential: real)
    requires Separate(atoms)
    requires LjWorld(d, atoms, st, es, p) && ValidDomain(d) && Good(p) && OwnArrays(es, loads)
    modifies Arrays(loads)
    ensures LoadsSoFar(es, loads, AtomSums(d, atoms, p, NoValues()), |es|)
    ensures p.law.LennardJones? && ePotential == Scale(p.law.epsilon, TotalEnergy(d, atoms, p, NoValues()))
  {
    hide *;
    WorldParts(d, atoms, st, es, p);
    ghost var f := AtomSums(d, atoms, p, NoValues());
    SumStarts(es, f, p.law.epsilon);
    LoadsStart(es, loads, f);
    ePotential := 0.0;
    var k := 0;
    while k < |es|
      invariant 0 <= k <= |es| && LoadsSoFar(es, loads, f, k)
      invariant ePotential == SumSoFar(es, f, p.law.epsilon, k)
    {
      ArrayOf(es, loads, k);
      ePotential := HalfForceTurn(d, atoms, st, es, p, k, loads, ePotential);
      k := k + 1;
    }
    SumEnds(d, atoms, st, es, p, NoValues(), p.law.epsilon);
  }

  method FullForceTurn(ghost d: Domain, ghost atoms: AtomSet, ghost st: State, es: seq<Store>, p: Potential, k: nat,
                       nbrBoxes: seq<seq<int>>, loads: seq<array<Load>>, sofar: real)
    returns (ePotential: real)
    requires LjWorld(d, atoms, st, es, p) && k < |es| && ValidDomain(d) && Good(p) && OwnArrays(es, loads)
    requires Cached(es[k], nbrBoxes) && LoadsSoFar(es, loads, AtomSums(d, atoms, p, NoValues()), k)
    requires p.law.LennardJones?
    requires sofar == SumSoFar(es, AtomSums(d, atoms, p, NoValues()), p.law.epsilon, k)
    modifies loads[k]
    ensures LoadsSoFar(es, loads, AtomSums(d, atoms, p, NoValues()), k + 1)
    ensures ePotential == SumSoFar(es, AtomSums(d, atoms, p, NoValues()), p.law.epsilon, k + 1)
  {
    WorldParts(d, atoms, st, es, p);
    hide LjWorld, World, SumSoFar, ValidDomain, Good, AtomSums, RankLoads, OwnEnergy, Scale, Cached;
    ghost var f := AtomSums(d, atoms, p, NoValues());
    var part := FullForceRank(d, atoms, st, es, p, k, nbrBoxes, loads[k]);
    SumNextRank(d, atoms, st, es, loads[k], f, p.law.epsilon, k);
    ePotential := sofar + part;
    forall i | 0 <= i < k + 1
      ensures RankLoads(es[i], loads[i], f)
    {
      if i != k {
        assert old(RankLoads(es[i], loads[i], f));
      }
    }
  }

  /** Lists made for the grid that all ranks have in common. */
  lemma CachedEverywhere(d: Domain, atoms: AtomSet, st: State, es: seq<Store>, nbrBoxes: seq<seq<int>>, k: nat)
    requires World(d, atoms, st, es) && k < |es| && |nbrBoxes| == NTotalBoxes(d.gridSize)
    requires forall a :: 0 <= a < NLocalBoxes(d.gridSize) && a < |nbrBoxes| ==>
               ValidGrid(d.gridSize) && nbrBoxes[a] == NeighborBoxes(d.gridSize, a)
    ensures Cached(es[k], nbrBoxes)
  {
    assert WorldAt(d, st, es[k], k);
    hide NLocalBoxes, NTotalBoxes, NeighborBoxes, Consistent, ProcCoord;
  }

  /** The same over full pairs, with neighbour lists made once. */
  method FullForceAll(d: Domain, ghost atoms: AtomSet, ghost st: State, es: seq<Store>, p: Potential,
                      loads: seq<array<Load>>)
    returns (ePotential: real)
    requires LjWorld(d, atoms, st, es, p) && ValidDomain(d) && Good(p) && OwnArrays(es, loads)
    modifies Arrays(loads)
    ensures LoadsSoFar(es, loads, AtomSums(d, atoms, p, NoValues()), |es|)
    ensures p.law.LennardJones? && ePotential == Scale(p.law.epsilon, TotalEnergy(d, atoms, p, NoValues()))
  {
    hide *;
    WorldParts(d, atoms, st, es, p);
    ghost var f := AtomSums(d, atoms, p, NoValues());
    SumStarts(es, f, p.law.epsilon);
    Atoms.GridIsValid(d);
    var nbrBoxes := InitNbrBoxes(d.gridSize);
    LoadsStart(es, loads, f);
    ePotential := 0.0;
    var k := 0;
    while k < |es|
      invariant 0 <= k <= |es| && LoadsSoFar(es, loads, f, k)
      invariant ePotential == SumSoFar(es, f, p.law.epsilon, k)
    {
      ArrayOf(es, loads, k);
      CachedEverywhere(d, atoms, st, es, nbrBoxes, k);
      ePotential := FullForceTurn(d, atoms, st, es, p, k, nbrBoxes, loads, ePotential);
      k := k + 1;
    }
    SumEnds(d, atoms, st, es, p, NoValues(), p.law.epsilon);
  }
}
