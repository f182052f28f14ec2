/** The Lennard-Jones force kernels: over full pairs and over half pairs.  Both leave every
    local atom with the sum over all atoms of the rank, and return the same energy. */
module LennardJones {
  import opened Triples
  import opened LinkCellIndex
  import opened Decomposition
  import opened LoadSums
  import opened PairForces
  import opened PairLaws
  import opened FullPairs
  import opened HalfPairs
  import opened HalfPairLoops

  /** All slots empty. */
  function Zeros(n: nat): (s: seq<Load>)
    ensures |s| == n && forall i :: 0 <= i < n ==> s[i] == NONE
  {
    seq(n, i => NONE)
  }

  method ZeroLoads(load: array<Load>)
    modifies load
    ensures load[..] == Zeros(load.Length)
  {
    for i := 0 to load.Length
      invariant forall j :: 0 <= j < i ==> load[j] == NONE
    {
      load[i] := NONE;
    }
  }

  /** Every local atom has the sum over all atoms of the rank. */
  ghost predicate Computed(e: Store, p: Potential, loads: seq<Load>) {
    Added(e, p, Zeros(|e.r|), loads)
  }

  /** The energy of the local atoms, each by the sum over all atoms of the rank. */
  ghost function PotentialEnergy(e: Store, p: Potential): real
    requires ValidStore(e) && Good(p) && 0 <= LocalSlots(e) <= |e.r|
  {
    Energy(SlotSums(e, p), LocalSlots(e))
  }

  ghost function SlotSums(e: Store, p: Potential): (s: seq<Load>)
    requires ValidStore(e) && Good(p)
    ensures |s| == |e.r| && forall x :: 0 <= x < |s| ==> s[x] == SlotSum(e, p, x)
  {
    seq(|e.r|, x requires 0 <= x < |e.r| => SlotSum(e, p, x))
  }

  lemma ComputedEnergy(e: Store, p: Potential, loads: seq<Load>)
    requires Computed(e, p, loads) && ValidStore(e) && Good(p) && 0 <= LocalSlots(e) <= |e.r|
    ensures |loads| == |e.r| && Energy(loads, LocalSlots(e)) == PotentialEnergy(e, p)
  {
    AddedSizes(e, p, Zeros(|e.r|), loads);
    hide Energy, Added, SlotSum, LocalSlots, Good, ValidStore, Plus;
    forall x | 0 <= x < LocalSlots(e)
      ensures loads[x] == SlotSums(e, p)[x]
    {
      AddedLocal(e, p, Zeros(|e.r|), loads, x);
      PlusLaws(SlotSum(e, p, x), NONE, NONE);
    }
    EnergySame(loads, SlotSums(e, p), LocalSlots(e));
  }

  lemma NoEnergy(e: Store)
    requires ValidStore(e)
    ensures 0 <= LocalSlots(e) <= |e.r| && Energy(Zeros(|e.r|), LocalSlots(e)) == 0.0
  {
    LocalSlotsInside(e);
    hide Energy, LocalSlots;
    EnergyZero(Zeros(|e.r|), LocalSlots(e));
  }

  /** The energy that the kernels return, from the sum over the atoms. */
  function Scale(epsilon: real, ePot: real): real {
    ePot * 4.0 * epsilon
  }

  /** The kernel over full pairs, with cached lists of neighbours. */
  method FullPairForce(ghost d: Domain, ghost rho: Triple<int>, e: Store, p: Potential, nbrBoxes: seq<seq<int>>,
                       load: array<Load>)
    returns (ePotential: real)
    requires Located(d, rho, e, p) && load.Length == |e.r| && |nbrBoxes| == |e.nAtoms| && p.law.LennardJones?
    requires forall a :: 0 <= a < NLocalBoxes(e.g) && a < |nbrBoxes| ==> nbrBoxes[a] == NeighborBoxes(e.g, a)
    modifies load
    ensures Computed(e, p, load[..]) && ValidStore(e) && 0 <= LocalSlots(e) <= |e.r|
    ensures ePotential == Scale(p.law.epsilon, PotentialEnergy(e, p))
  {
    LocatedStore(d, rho, e, p);
    NoEnergy(e);
    hide Located, Energy, LocalSlots, Added, Good, ValidStore, PotentialEnergy, NeighborBoxes, NLocalBoxes, NTotalBoxes;
    ZeroLoads(load);
    var ePot := AddFullPairs(d, rho, e, p, nbrBoxes, load, 0.0);
    ComputedEnergy(e, p, load[..]);
    ePotential := Scale(p.law.epsilon, ePot);
  }

  /** The kernel over half pairs. */
  method HalfPairForce(ghost d: Domain, ghost rho: Triple<int>, e: Store, p: Potential, load: array<Load>)
    returns (ePotential: real)
    requires Located(d, rho, e, p) && Sound(e, p) && load.Length == |e.r| && p.law.LennardJones?
    modifies load
    ensures Computed(e, p, load[..]) && ValidStore(e) && 0 <= LocalSlots(e) <= |e.r|
    ensures ePotential == Scale(p.law.epsilon, PotentialEnergy(e, p))
  {
    LocatedStore(d, rho, e, p);
    NoEnergy(e);
    hide Located, Energy, LocalSlots, Added, Good, ValidStore, PotentialEnergy, Sound;
    ZeroLoads(load);
    var ePot := AddHalfPairs(d, rho, e, p, load, 0.0);
    ComputedEnergy(e, p, load[..]);
    ePotential := Scale(p.law.epsilon, ePot);
  }

  /** The kernels agree on every local atom. */
  lemma KernelsAgree(e: Store, p: Potential, one: seq<Load>, two: seq<Load>)
    requires Computed(e, p, one) && Computed(e, p, two)
    ensures 0 <= LocalSlots(e) <= |one| == |two| && one[..LocalSlots(e)] == two[..LocalSlots(e)]
  {
    hide Added, LocalSlots;
    PassesAgree(e, p, Zeros(|e.r|), one, two);
  }
}
