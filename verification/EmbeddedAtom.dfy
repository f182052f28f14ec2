/** The embedded atom kernels: a pass over pairs for energies, pair forces and densities, a
    pass over atoms for the embedding energy, an exchange of its derivatives between ranks,
    and a second pass over pairs for the remaining forces.  One kernel uses half pairs, the
    other full pairs; they treat a pair exactly at the cutoff differently in the last pass. */
module EmbeddedAtom {
  import opened Triples
  import opened LinkCellIndex
  import opened Decomposition
  import opened LoadSums
  import opened PairForces
  import opened PairLaws
  import opened FullPairs
  import opened HalfPairs
  import opened HalfPairLoops
  import LennardJones

  /** The tables phi, rho and f of the potential, and the square root. */
  datatype Tables = Tables(root: real -> real, phi: real -> Value, rho: real -> Value, f: real -> Value)

  function DensityPass(t: Tables, cutoff: real): Potential {
    Potential(Density(t.root, t.phi, t.rho), cutoff, false)
  }

  /** strict: the half-pair kernel leaves out pairs exactly at the cutoff. */
  function ForcePass(t: Tables, cutoff: real, dfEmbed: seq<real>, strict: bool): Potential {
    Potential(Embedding(t.root, t.rho, dfEmbed), cutoff, strict)
  }

  ghost predicate GoodTables(t: Tables, cutoff: real) {
    cutoff > 0.0 && forall x: real :: x > 0.0 ==> t.root(x) > 0.0
  }

  lemma PassesGood(t: Tables, cutoff: real, dfEmbed: seq<real>, strict: bool)
    requires GoodTables(t, cutoff)
    ensures Good(DensityPass(t, cutoff)) && Good(ForcePass(t, cutoff, dfEmbed, strict))
  {
  }

  // ----- the embedding energy

  /** The load of an atom with its embedding energy. */
  function Embedded(t: Tables, l: Load): Load {
    Load(l.u + t.f(l.rho).f, l.f, l.rho)
  }

  /** The loads after the pass over atoms, and the derivatives for the next pass. */
  ghost predicate EmbeddedAll(e: Store, t: Tables, was: seq<Load>, now: seq<Load>, dfEmbed: seq<real>) {
    && |was| == |now| == |dfEmbed| == |e.r|
    && forall x :: 0 <= x < |now| ==> EmbeddedAt(e, t, was[x], now[x], dfEmbed[x], InUse(e, x) && x < LocalSlots(e))
  }

  predicate EmbeddedAt(e: Store, t: Tables, was: Load, now: Load, df: real, done: bool) {
    if done then now == Embedded(t, was) && df == t.f(was.rho).df else now == was && df == 0.0
  }

  /** The slots of the first n cells and of the first k atoms of cell n are done. */
  ghost predicate EmbeddedTo(e: Store, t: Tables, n: int, k: int, was: seq<Load>, now: seq<Load>, dfEmbed: seq<real>)
    requires ValidStore(e)
  {
    && |was| == |now| == |dfEmbed| == |e.r|
    && forall x :: 0 <= x < |now| ==>
         EmbeddedAt(e, t, was[x], now[x], dfEmbed[x], AmongCells(e, n, x) || Among(n, k, x))
  }

  lemma EmbeddedStep(e: Store, t: Tables, n: int, k: int, was: seq<Load>, mid: seq<Load>, now: seq<Load>,
                     midDf: seq<real>, df: seq<real>)
    requires ValidStore(e) && 0 <= n < |e.nAtoms| && 0 <= k < e.nAtoms[n] && 0 <= Slot(n, k) < |was|
    requires EmbeddedTo(e, t, n, k, was, mid, midDf)
    requires now == mid[Slot(n, k) := Embedded(t, mid[Slot(n, k)])]
    requires df == midDf[Slot(n, k) := t.f(mid[Slot(n, k)].rho).df]
    ensures EmbeddedTo(e, t, n, k + 1, was, now, df)
  {
    hide ValidStore, Slot, Among, AmongCells, Embedded;
    AmongSlots(e, n, k, Slot(n, k));
    NotYetAmong(e, n, Slot(n, k), k);
    forall x | 0 <= x < |now|
      ensures EmbeddedAt(e, t, was[x], now[x], df[x], AmongCells(e, n, x) || Among(n, k + 1, x))
    {
      AmongSlots(e, n, k, x);
    }
  }

  lemma NotYetAmong(e: Store, n: int, x: int, k: int)
    requires ValidStore(e) && 0 <= n < |e.nAtoms| && Holds(e, n, k) && x == Slot(n, k)
    ensures !AmongCells(e, n, x)
  {
    AmongCellsNext(e, n, x);
    assert Among(n, e.nAtoms[n], x);
  }

  lemma EmbeddedRow(e: Store, t: Tables, n: int, was: seq<Load>, now: seq<Load>, df: seq<real>)
    requires ValidStore(e) && 0 <= n < |e.nAtoms| && EmbeddedTo(e, t, n, e.nAtoms[n], was, now, df)
    ensures EmbeddedTo(e, t, n + 1, 0, was, now, df)
  {
    hide ValidStore, Slot, Among, AmongCells, EmbeddedAt;
    forall x | 0 <= x < |now|
      ensures EmbeddedAt(e, t, was[x], now[x], df[x], AmongCells(e, n + 1, x) || Among(n + 1, 0, x))
    {
      AmongCellsNext(e, n, x);
      NoneAmong(n + 1, x);
    }
  }

  lemma NoneAmong(n: int, x: int)
    ensures !Among(n, 0, x)
  {
  }

  lemma EmbeddedStart(e: Store, t: Tables, was: seq<Load>, df: seq<real>)
    requires ValidStore(e) && |was| == |df| == |e.r| && forall x :: 0 <= x < |df| ==> df[x] == 0.0
    ensures EmbeddedTo(e, t, 0, 0, was, was, df)
  {
  }

  lemma EmbeddedEnd(e: Store, t: Tables, was: seq<Load>, now: seq<Load>, df: seq<real>)
    requires ValidStore(e) && EmbeddedTo(e, t, NLocalBoxes(e.g), 0, was, now, df)
    ensures EmbeddedAll(e, t, was, now, df)
  {
    LocalSlotsInside(e);
    hide NLocalBoxes, NTotalBoxes, EmbeddedAt;
    forall x | 0 <= x < |now|
      ensures AmongCells(e, NLocalBoxes(e.g), x) <==> InUse(e, x) && x < LocalSlots(e)
    {
      LocalInUse(e, x);
    }
  }

  lemma LocalInUse(e: Store, x: int)
    requires ValidStore(e) && 0 <= x < |e.r|
    ensures AmongCells(e, NLocalBoxes(e.g), x) <==> InUse(e, x) && x < LocalSlots(e)
  {
    LocalSlotsInside(e);
    var n := NLocalBoxes(e.g);
    hide NLocalBoxes, NTotalBoxes;
    if AmongCells(e, n, x) {
      var a :| 0 <= a < n && a < |e.nAtoms| && Among(a, e.nAtoms[a], x);
      AmongSlots(e, a, e.nAtoms[a], x);
    }
    if InUse(e, x) && x < LocalSlots(e) {
      var b, k :| Holds(e, b, k) && x == Slot(b, k);
      SlotInside(e, b, k);
      assert 0 <= b < n && b < |e.nAtoms| && Among(b, e.nAtoms[b], x);
    }
  }

  lemma EmbeddedEnergy(e: Store, t: Tables, mid: seq<Load>, x: int)
    requires 0 <= x < LocalSlots(e) <= |mid|
    ensures Energy(mid[x := Embedded(t, mid[x])], LocalSlots(e)) == Energy(mid, LocalSlots(e)) + t.f(mid[x].rho).f
  {
    hide Energy, LocalSlots;
    var c := Load(t.f(mid[x].rho).f, Triple(0.0, 0.0, 0.0), 0.0);
    assert Plus(mid[x], c) == Embedded(t, mid[x]);
    EnergyAdd(mid, x, c, LocalSlots(e));
  }

  /** The pass over the atoms of cell n. */
  method EmbedCell(e: Store, t: Tables, n: int, ghost was: seq<Load>, load: array<Load>, dfEmbed: array<real>,
                   energy: real)
    returns (etot: real)
    requires ValidStore(e) && 0 <= n < NLocalBoxes(e.g) && n < |e.nAtoms| && load.Length == dfEmbed.Length == |e.r|
    requires EmbeddedTo(e, t, n, 0, was, load[..], dfEmbed[..])
    requires 0 <= LocalSlots(e) <= |e.r| && energy == Energy(load[..], LocalSlots(e))
    modifies load, dfEmbed
    ensures EmbeddedTo(e, t, n + 1, 0, was, load[..], dfEmbed[..])
    ensures etot == Energy(load[..], LocalSlots(e))
  {
    hide ValidStore, Energy, LocalSlots, EmbeddedTo, Embedded, Slot, NLocalBoxes;
    etot := energy;
    for k := 0 to e.nAtoms[n]
      invariant EmbeddedTo(e, t, n, k, was, load[..], dfEmbed[..]) && etot == Energy(load[..], LocalSlots(e))
    {
      var x := Slot(n, k);
      assert Holds(e, n, k);
      LocalSlot(e, n, k);
      ToSizes(e, t, n, k, was, load[..], dfEmbed[..]);
      ghost var mid, midDf := load[..], dfEmbed[..];
      var value := t.f(load[x].rho);
      dfEmbed[x] := value.df;
      EmbeddedEnergy(e, t, mid, x);
      etot := etot + value.f;
      load[x] := Embedded(t, load[x]);
      EmbeddedStep(e, t, n, k, was, mid, load[..], midDf, dfEmbed[..]);
    }
    EmbeddedRow(e, t, n, was, load[..], dfEmbed[..]);
  }

  lemma ToSizes(e: Store, t: Tables, n: int, k: int, was: seq<Load>, now: seq<Load>, df: seq<real>)
    requires ValidStore(e) && EmbeddedTo(e, t, n, k, was, now, df)
    ensures |was| == |now| == |df| == |e.r|
  {
  }

  /** The second step: embedding energies and their derivatives, for the local atoms. */
  method Embed(e: Store, t: Tables, load: array<Load>, dfEmbed: array<real>, energy: real) returns (etot: real)
    requires ValidStore(e) && load.Length == dfEmbed.Length == |e.r|
    requires forall x :: 0 <= x < dfEmbed.Length ==> dfEmbed[x] == 0.0
    requires 0 <= LocalSlots(e) <= |e.r| && energy == Energy(load[..], LocalSlots(e))
    modifies load, dfEmbed
    ensures EmbeddedAll(e, t, old(load[..]), load[..], dfEmbed[..])
    ensures etot == Energy(load[..], LocalSlots(e))
  {
    ghost var was := load[..];
    LocalSlotsInside(e);
    EmbeddedStart(e, t, was, dfEmbed[..]);
    hide ValidStore, Energy, LocalSlots, EmbeddedTo, EmbeddedAll, NLocalBoxes;
    etot := energy;
    for n := 0 to NLocalBoxes(e.g)
      invariant EmbeddedTo(e, t, n, 0, was, load[..], dfEmbed[..]) && etot == Energy(load[..], LocalSlots(e))
    {
      etot := EmbedCell(e, t, n, was, load, dfEmbed, etot);
    }
    EmbeddedEnd(e, t, was, load[..], dfEmbed[..]);
  }

  // ----- before the exchange

  /** Local atoms have their pair energies, pair forces and densities, and their embedding
      energies; and the derivatives are ready to be exchanged. */
  ghost predicate DensityDone(e: Store, t: Tables, cutoff: real, load: seq<Load>, dfEmbed: seq<real>) {
    && ValidStore(e) && GoodTables(t, cutoff) && |load| == |dfEmbed| == |e.r|
    && (forall x :: 0 <= x < LocalSlots(e) && x < |e.r| && InUse(e, x) ==>
          DensityAt(e, t, cutoff, x, load[x], dfEmbed[x]))
    && forall x :: 0 <= x < LocalSlots(e) && x < |e.r| && !InUse(e, x) ==> load[x] == NONE
  }

  ghost predicate DensityAt(e: Store, t: Tables, cutoff: real, x: int, load: Load, df: real)
    requires ValidStore(e) && GoodTables(t, cutoff) && 0 <= x < |e.r|
  {
    PassesGood(t, cutoff, [], false);
    var sum := BruteForce(e, DensityPass(t, cutoff), x);
    load == Embedded(t, sum) && df == t.f(sum.rho).df
  }

  lemma DensityBy(e: Store, t: Tables, cutoff: real, mid: seq<Load>, now: seq<Load>, df: seq<real>)
    requires ValidStore(e) && GoodTables(t, cutoff)
    requires LennardJones.Computed(e, DensityPass(t, cutoff), mid) && EmbeddedAll(e, t, mid, now, df)
    ensures DensityDone(e, t, cutoff, now, df)
  {
    hide Added, Embedded, BruteForce, LocalSlots, ValidStore, GoodTables, DensityPass, InUse;
    forall x | 0 <= x < LocalSlots(e) && x < |e.r|
      ensures InUse(e, x) ==> DensityAt(e, t, cutoff, x, now[x], df[x])
      ensures !InUse(e, x) ==> now[x] == NONE
    {
      PassesGood(t, cutoff, [], false);
      AddedLocal(e, DensityPass(t, cutoff), LennardJones.Zeros(|e.r|), mid, x);
      PlusLaws(if InUse(e, x) then BruteForce(e, DensityPass(t, cutoff), x) else NONE, NONE, NONE);
    }
  }

  method ZeroAll(load: array<Load>, dfEmbed: array<real>)
    requires load.Length == dfEmbed.Length
    modifies load, dfEmbed
    ensures load[..] == LennardJones.Zeros(load.Length)
    ensures forall i :: 0 <= i < dfEmbed.Length ==> dfEmbed[i] == 0.0
  {
    for i := 0 to load.Length
      invariant forall j :: 0 <= j < i ==> load[j] == NONE && dfEmbed[j] == 0.0
    {
      load[i] := NONE;
      dfEmbed[i] := 0.0;
    }
  }

  /** The first two steps over half pairs. */
  method HalfDensity(ghost d: Domain, ghost rho: Triple<int>, e: Store, t: Tables, cutoff: real,
                     load: array<Load>, dfEmbed: array<real>)
    returns (etot: real)
    requires GoodTables(t, cutoff) && load.Length == dfEmbed.Length == |e.r|
    requires Located(d, rho, e, DensityPass(t, cutoff)) && Sound(e, DensityPass(t, cutoff))
    modifies load, dfEmbed
    ensures DensityDone(e, t, cutoff, load[..], dfEmbed[..])
    ensures 0 <= LocalSlots(e) <= |e.r| && etot == Energy(load[..], LocalSlots(e))
  {
    LocatedStore(d, rho, e, DensityPass(t, cutoff));
    LennardJones.NoEnergy(e);
    hide Located, Energy, LocalSlots, Added, Good, ValidStore, Sound, DensityPass, EmbeddedAll, DensityDone, GoodTables;
    ZeroAll(load, dfEmbed);
    etot := AddHalfPairs(d, rho, e, DensityPass(t, cutoff), load, 0.0);
    ghost var mid := load[..];
    etot := Embed(e, t, load, dfEmbed, etot);
    DensityBy(e, t, cutoff, mid, load[..], dfEmbed[..]);
  }

  /** The first two steps over full pairs. */
  method FullDensity(ghost d: Domain, ghost rho: Triple<int>, e: Store, t: Tables, cutoff: real,
                     nbrBoxes: seq<seq<int>>,
                     load: array<Load>, dfEmbed: array<real>)
    returns (etot: real)
    requires GoodTables(t, cutoff) && load.Length == dfEmbed.Length == |e.r| && |nbrBoxes| == |e.nAtoms|
    requires Located(d, rho, e, DensityPass(t, cutoff))
    requires forall a :: 0 <= a < NLocalBoxes(e.g) && a < |nbrBoxes| ==> nbrBoxes[a] == NeighborBoxes(e.g, a)
    modifies load, dfEmbed
    ensures DensityDone(e, t, cutoff, load[..], dfEmbed[..])
    ensures 0 <= LocalSlots(e) <= |e.r| && etot == Energy(load[..], LocalSlots(e))
  {
    LocatedStore(d, rho, e, DensityPass(t, cutoff));
    LennardJones.NoEnergy(e);
    hide Located, Energy, LocalSlots, Added, Good, ValidStore, DensityPass, EmbeddedAll, DensityDone, GoodTables,
         NeighborBoxes, NLocalBoxes, NTotalBoxes;
    ZeroAll(load, dfEmbed);
    etot := AddFullPairs(d, rho, e, DensityPass(t, cutoff), nbrBoxes, load, 0.0);
    ghost var mid := load[..];
    etot := Embed(e, t, load, dfEmbed, etot);
    DensityBy(e, t, cutoff, mid, load[..], dfEmbed[..]);
  }

  /** Both kernels hand the same derivatives to the exchange, and have the same loads. */
  lemma DensitiesAgree(e: Store, t: Tables, cutoff: real, one: seq<Load>, df: seq<real>, two: seq<Load>,
                       df2: seq<real>, x: int)
    requires DensityDone(e, t, cutoff, one, df) && DensityDone(e, t, cutoff, two, df2)
    requires 0 <= x < LocalSlots(e) && x < |e.r| && InUse(e, x)
    ensures one[x] == two[x] && df[x] == df2[x]
  {
    hide BruteForce, LocalSlots, ValidStore, GoodTables, Embedded, InUse;
    assert DensityAt(e, t, cutoff, x, one[x], df[x]) && DensityAt(e, t, cutoff, x, two[x], df2[x]);
  }

  // ----- after the exchange

  lemma SamePlaces(d: Domain, rho: Triple<int>, e: Store, t: Tables, cutoff: real, dfEmbed: seq<real>, strict: bool)
    requires GoodTables(t, cutoff) && Located(d, rho, e, DensityPass(t, cutoff))
    ensures Located(d, rho, e, ForcePass(t, cutoff, dfEmbed, strict))
    ensures Sound(e, DensityPass(t, cutoff)) ==> Sound(e, ForcePass(t, cutoff, dfEmbed, strict))
  {
    PassesGood(t, cutoff, dfEmbed, strict);
    hide InCell, GetTuple, ValidStore, ValidDomain, NLocalBoxes, NTotalBoxes, Good, GoodTables, R2;
    if Sound(e, DensityPass(t, cutoff)) {
      forall c, k, b, l | LocalAtom(e, c, k) && LocalAtom(e, b, l)
        ensures Ordered(e, ForcePass(t, cutoff, dfEmbed, strict), c, k, b, l)
      {
        assert Ordered(e, DensityPass(t, cutoff), c, k, b, l);
      }
    }
  }

  /** The last step over half pairs, with the derivatives of all atoms of the rank. */
  method HalfForces(ghost d: Domain, ghost rho: Triple<int>, e: Store, t: Tables, cutoff: real, dfEmbed: seq<real>,
                    load: array<Load>, energy: real)
    returns (etot: real)
    requires GoodTables(t, cutoff) && load.Length == |dfEmbed| == |e.r|
    requires Located(d, rho, e, DensityPass(t, cutoff)) && Sound(e, DensityPass(t, cutoff))
    requires 0 <= LocalSlots(e) <= |e.r| && energy == Energy(load[..], LocalSlots(e))
    modifies load
    ensures Added(e, ForcePass(t, cutoff, dfEmbed, true), old(load[..]), load[..])
    ensures etot == Energy(load[..], LocalSlots(e))
  {
    SamePlaces(d, rho, e, t, cutoff, dfEmbed, true);
    hide *;
    etot := AddHalfPairs(d, rho, e, ForcePass(t, cutoff, dfEmbed, true), load, energy);
  }

  /** The last step over full pairs. */
  method FullForces(ghost d: Domain, ghost rho: Triple<int>, e: Store, t: Tables, cutoff: real, nbrBoxes: seq<seq<int>>,
                    dfEmbed: seq<real>, load: array<Load>, energy: real)
    returns (etot: real)
    requires GoodTables(t, cutoff) && load.Length == |dfEmbed| == |e.r| && |nbrBoxes| == |e.nAtoms|
    requires Located(d, rho, e, DensityPass(t, cutoff))
    requires forall a :: 0 <= a < NLocalBoxes(e.g) && a < |nbrBoxes| ==> nbrBoxes[a] == NeighborBoxes(e.g, a)
    requires 0 <= LocalSlots(e) <= |e.r| && energy == Energy(load[..], LocalSlots(e))
    modifies load
    ensures Added(e, ForcePass(t, cutoff, dfEmbed, false), old(load[..]), load[..])
    ensures etot == Energy(load[..], LocalSlots(e))
  {
    SamePlaces(d, rho, e, t, cutoff, dfEmbed, false);
    hide *;
    etot := AddFullPairs(d, rho, e, ForcePass(t, cutoff, dfEmbed, false), nbrBoxes, load, energy);
  }
}
