/** The embedded atom kernels on all ranks: what every atom must get, as sums over its
    periodic images, and that each step leaves it with that. */
module WorldEmbedding {
  import opened Triples
  import opened Decomposition
  import opened Placement
  import opened Simulation
  import opened LoadSums
  import opened SetSums
  import opened PairLaws
  import opened PairForces
  import opened FullPairs
  import opened HalfPairs
  import opened PairImages
  import opened ImageSums
  import opened ConsistentStores
  import opened WorldForces
  import opened EmbeddedAtom

  // ----- the reference

  /** Pair energies, pair forces and densities. */
  ghost function Densities(d: Domain, atoms: AtomSet, t: Tables, cutoff: real): int -> Load
    requires ValidDomain(d) && GoodTables(t, cutoff)
  {
    PassesGood(t, cutoff, [], false);
    AtomSums(d, atoms, DensityPass(t, cutoff), NoValues())
  }

  /** The derivative of the embedding energy of each atom. */
  ghost function Derivatives(d: Domain, atoms: AtomSet, t: Tables, cutoff: real): int -> real
    requires ValidDomain(d) && GoodTables(t, cutoff)
  {
    var density := Densities(d, atoms, t, cutoff);
    gid => t.f(density(gid).rho).df
  }

  /** With the embedding energies. */
  ghost function EmbeddedLoads(d: Domain, atoms: AtomSet, t: Tables, cutoff: real): int -> Load
    requires ValidDomain(d) && GoodTables(t, cutoff)
  {
    var density := Densities(d, atoms, t, cutoff);
    gid => Embedded(t, density(gid))
  }

  /** The remaining forces; strict leaves out images exactly at the cutoff. */
  ghost function Pulls(d: Domain, atoms: AtomSet, t: Tables, cutoff: real, strict: bool): int -> Load
    requires ValidDomain(d) && GoodTables(t, cutoff)
  {
    PassesGood(t, cutoff, [], strict);
    AtomSums(d, atoms, ForcePass(t, cutoff, [], strict), Derivatives(d, atoms, t, cutoff))
  }

  /** What an atom has in the end. */
  ghost function EamLoads(d: Domain, atoms: AtomSet, t: Tables, cutoff: real, strict: bool): int -> Load
    requires ValidDomain(d) && GoodTables(t, cutoff)
  {
    var before, pulls := EmbeddedLoads(d, atoms, t, cutoff), Pulls(d, atoms, t, cutoff, strict);
    gid => Plus(before(gid), pulls(gid))
  }

  ghost function EamEnergy(d: Domain, atoms: AtomSet, t: Tables, cutoff: real, strict: bool): real
    requires ValidDomain(d) && GoodTables(t, cutoff)
  {
    SetSum(atoms.Keys, EamLoads(d, atoms, t, cutoff, strict)).u
  }

  // ----- the array of derivatives does not matter, only their values by id

  lemma SameCandidates(d: Domain, pop: Population, p: Potential, q: Potential, r: Triple<real>)
    requires PositiveExtents(d) && p.cutoff == q.cutoff
    ensures CloseImages(d, pop, p, r) == CloseImages(d, pop, q, r)
  {
    hide PeriodsNear, Square, Position;
    assert Candidates(d, pop, p, r) == Candidates(d, pop, q, r);
    assert Cut2(p) == Cut2(q);
    forall key
      ensures key in CloseImages(d, pop, p, r) <==> key in CloseImages(d, pop, q, r)
    {
    }
  }

  lemma SamePull(d: Domain, pop: Population, t: Tables, cutoff: real, df: seq<real>, df2: seq<real>, strict: bool,
                 val: int -> real, gid: int, r: Triple<real>, key: ImageKey)
    requires GoodTables(t, cutoff)
    ensures Good(ForcePass(t, cutoff, df, strict)) && Good(ForcePass(t, cutoff, df2, strict))
    ensures FromImages(d, pop, ForcePass(t, cutoff, df, strict), val, gid, r)(key) ==
            FromImages(d, pop, ForcePass(t, cutoff, df2, strict), val, gid, r)(key)
  {
    PassesGood(t, cutoff, df, strict);
    PassesGood(t, cutoff, df2, strict);
    hide Position, Square, Over, Scaled, Times, Difference;
  }

  lemma SamePulls(d: Domain, pop: Population, t: Tables, cutoff: real, df: seq<real>, df2: seq<real>, strict: bool,
                  val: int -> real, gid: int, r: Triple<real>)
    requires GoodTables(t, cutoff) && PositiveExtents(d)
    ensures Good(ForcePass(t, cutoff, df, strict)) && Good(ForcePass(t, cutoff, df2, strict))
    ensures ImageSum(d, pop, ForcePass(t, cutoff, df, strict), val, gid, r) ==
            ImageSum(d, pop, ForcePass(t, cutoff, df2, strict), val, gid, r)
  {
    PassesGood(t, cutoff, df, strict);
    PassesGood(t, cutoff, df2, strict);
    var p, q := ForcePass(t, cutoff, df, strict), ForcePass(t, cutoff, df2, strict);
    hide SetSum, CloseImages, FromImages, GoodTables, Good;
    SameCandidates(d, pop, p, q, r);
    forall key
      ensures FromImages(d, pop, p, val, gid, r)(key) == FromImages(d, pop, q, val, gid, r)(key)
    {
      SamePull(d, pop, t, cutoff, df, df2, strict, val, gid, r, key);
    }
    SetSumSame(CloseImages(d, pop, p, r), FromImages(d, pop, p, val, gid, r), FromImages(d, pop, q, val, gid, r));
  }

  lemma PullIs(d: Domain, atoms: AtomSet, t: Tables, cutoff: real, df: seq<real>, strict: bool, gid: int)
    requires ValidDomain(d) && GoodTables(t, cutoff) && gid in atoms
    ensures Good(ForcePass(t, cutoff, df, strict))
    ensures AtomSums(d, atoms, ForcePass(t, cutoff, df, strict), Derivatives(d, atoms, t, cutoff))(gid) ==
            Pulls(d, atoms, t, cutoff, strict)(gid)
  {
    ExtentsPositive(d);
    PassesGood(t, cutoff, df, strict);
    PassesGood(t, cutoff, [], strict);
    var val := Derivatives(d, atoms, t, cutoff);
    hide ImageSum, GoodTables, Good, ValidDomain, PositiveExtents, ForcePass, Derivatives;
    SamePulls(d, WithOwners(d, atoms), t, cutoff, df, [], strict, val, gid, atoms[gid].r);
    AtomSumIs(d, atoms, ForcePass(t, cutoff, df, strict), val, gid);
    AtomSumIs(d, atoms, ForcePass(t, cutoff, [], strict), val, gid);
  }

  // ----- what a rank has after the first two steps

  /** The world is ready for the embedded atom kernels. */
  ghost predicate EamWorld(d: Domain, atoms: AtomSet, st: State, es: seq<Store>, t: Tables, cutoff: real) {
    && World(d, atoms, st, es) && GoodTables(t, cutoff)
    && cutoff <= d.boxSize.x && cutoff <= d.boxSize.y && cutoff <= d.boxSize.z
  }

  lemma EamReady(d: Domain, atoms: AtomSet, st: State, es: seq<Store>, t: Tables, cutoff: real, k: nat)
    requires EamWorld(d, atoms, st, es, t, cutoff) && k < |es|
    ensures ValidDomain(d) && Consistent(d, atoms, st) && GoodTables(t, cutoff) && ValidState(d, st)
    ensures Good(DensityPass(t, cutoff)) && WideCells(d, DensityPass(t, cutoff))
    ensures Imaged(d, WithOwners(d, atoms), st, ProcCoord(d, k), es[k], DensityPass(t, cutoff), NoValues())
    ensures Located(d, ProcCoord(d, k), es[k], DensityPass(t, cutoff))
    ensures Separate(atoms) ==> Sound(es[k], DensityPass(t, cutoff))
    ensures FromRank(d, st, ProcCoord(d, k), es[k])
  {
    PassesGood(t, cutoff, [], false);
    hide Consistent, Separate, Placed, FromRank, Located, Sound, ProcCoord, GoodTables;
    assert WorldAt(d, st, es[k], k);
    WorldImaged(d, atoms, st, es, k, DensityPass(t, cutoff), NoValues());
    ImagedMeans(d, WithOwners(d, atoms), st, ProcCoord(d, k), es[k], DensityPass(t, cutoff), NoValues());
    if Separate(atoms) {
      KernelsReady(d, atoms, st, ProcCoord(d, k), es[k], DensityPass(t, cutoff), NoValues());
    }
  }

  lemma DensitySlot(d: Domain, atoms: AtomSet, st: State, rho: Triple<int>, e: Store, t: Tables, cutoff: real,
                    loads: seq<Load>, df: seq<real>, x: int)
    requires ValidDomain(d) && Consistent(d, atoms, st) && GoodTables(t, cutoff) && Good(DensityPass(t, cutoff))
    requires Imaged(d, WithOwners(d, atoms), st, rho, e, DensityPass(t, cutoff), NoValues())
    requires DensityDone(e, t, cutoff, loads, df) && 0 <= x < LocalSlots(e) && InUse(e, x)
    ensures |loads| == |df| == |e.r| == |e.gid| && x < |e.r|
    ensures loads[x] == EmbeddedLoads(d, atoms, t, cutoff)(e.gid[x])
    ensures df[x] == Derivatives(d, atoms, t, cutoff)(e.gid[x])
  {
    hide *;
    var p := DensityPass(t, cutoff);
    ImagedMeans(d, WithOwners(d, atoms), st, rho, e, p, NoValues());
    ImagedParts(d, atoms, st, rho, e, p, NoValues());
    StoreSizes(e);
    DoneMeans(e, t, cutoff, loads, df, x);
    var a, k := LocalSlotOf(e, x);
    LocalIsOwned(d, atoms, st, rho, e, a, k);
    BruteForceIsImageSum(d, WithOwners(d, atoms), st, rho, e, p, NoValues(), a, k);
    AtomSumIs(d, atoms, p, NoValues(), e.gid[x]);
    ReferenceAt(d, atoms, t, cutoff, e.gid[x]);
  }

  lemma DoneMeans(e: Store, t: Tables, cutoff: real, loads: seq<Load>, df: seq<real>, x: int)
    requires DensityDone(e, t, cutoff, loads, df) && 0 <= x < LocalSlots(e)
    ensures ValidStore(e) && Good(DensityPass(t, cutoff)) && |loads| == |df| == |e.r| && x < |e.r|
    ensures InUse(e, x) ==>
              && loads[x] == Embedded(t, BruteForce(e, DensityPass(t, cutoff), x))
              && df[x] == t.f(BruteForce(e, DensityPass(t, cutoff), x).rho).df
    ensures !InUse(e, x) ==> loads[x] == NONE
  {
    LocalSlotsInside(e);
    PassesGood(t, cutoff, [], false);
    hide ValidStore, BruteForce, LocalSlots, InUse, GoodTables, Good;
  }

  lemma ReferenceAt(d: Domain, atoms: AtomSet, t: Tables, cutoff: real, gid: int)
    requires ValidDomain(d) && GoodTables(t, cutoff)
    ensures Good(DensityPass(t, cutoff))
    ensures EmbeddedLoads(d, atoms, t, cutoff)(gid) ==
            Embedded(t, AtomSums(d, atoms, DensityPass(t, cutoff), NoValues())(gid))
    ensures Derivatives(d, atoms, t, cutoff)(gid) ==
            t.f(AtomSums(d, atoms, DensityPass(t, cutoff), NoValues())(gid).rho).df
  {
    PassesGood(t, cutoff, [], false);
    hide AtomSums, GoodTables, Good, Embedded;
  }

  lemma DensityLoads(d: Domain, atoms: AtomSet, st: State, rho: Triple<int>, e: Store, t: Tables, cutoff: real,
                     loads: seq<Load>, df: seq<real>)
    requires ValidDomain(d) && Consistent(d, atoms, st) && GoodTables(t, cutoff) && Good(DensityPass(t, cutoff))
    requires Imaged(d, WithOwners(d, atoms), st, rho, e, DensityPass(t, cutoff), NoValues())
    requires DensityDone(e, t, cutoff, loads, df)
    ensures LoadsOf(e, loads, EmbeddedLoads(d, atoms, t, cutoff))
  {
    hide *;
    ImagedMeans(d, WithOwners(d, atoms), st, rho, e, DensityPass(t, cutoff), NoValues());
    DoneSizes(e, t, cutoff, loads, df);
    forall x | 0 <= x < LocalSlots(e) && x < |loads|
      ensures LoadAt(e, loads, EmbeddedLoads(d, atoms, t, cutoff), x)
    {
      DoneMeans(e, t, cutoff, loads, df, x);
      if InUse(e, x) {
        DensitySlot(d, atoms, st, rho, e, t, cutoff, loads, df, x);
      }
      LoadAtBy(e, loads, EmbeddedLoads(d, atoms, t, cutoff), x);
    }
    LoadsBy(e, loads, EmbeddedLoads(d, atoms, t, cutoff));
  }

  lemma DoneSizes(e: Store, t: Tables, cutoff: real, loads: seq<Load>, df: seq<real>)
    requires DensityDone(e, t, cutoff, loads, df)
    ensures ValidStore(e) && |loads| == |df| == |e.r| == |e.gid|
  {
  }

  // ----- and after the last one

  lemma LoadOf(e: Store, loads: seq<Load>, f: int -> Load, x: int)
    requires LoadsOf(e, loads, f) && 0 <= x < LocalSlots(e) && x < |loads|
    ensures ValidStore(e) && |loads| == |e.r| == |e.gid|
    ensures loads[x] == if InUse(e, x) then f(e.gid[x]) else NONE
  {
    assert LoadAt(e, loads, f, x);
  }

  lemma EamLoadIs(d: Domain, atoms: AtomSet, t: Tables, cutoff: real, strict: bool, gid: int)
    requires ValidDomain(d) && GoodTables(t, cutoff)
    ensures EamLoads(d, atoms, t, cutoff, strict)(gid) ==
            Plus(EmbeddedLoads(d, atoms, t, cutoff)(gid), Pulls(d, atoms, t, cutoff, strict)(gid))
  {
    hide EmbeddedLoads, Pulls, Plus;
  }

  lemma ForceLoads(d: Domain, atoms: AtomSet, st: State, rho: Triple<int>, e: Store, t: Tables, cutoff: real,
                   df: seq<real>, strict: bool, start: seq<Load>, now: seq<Load>)
    requires ValidDomain(d) && Consistent(d, atoms, st) && GoodTables(t, cutoff)
    requires Imaged(d, WithOwners(d, atoms), st, rho, e, ForcePass(t, cutoff, df, strict),
                    Derivatives(d, atoms, t, cutoff))
    requires LoadsOf(e, start, EmbeddedLoads(d, atoms, t, cutoff)) &&
             Added(e, ForcePass(t, cutoff, df, strict), start, now)
    ensures LoadsOf(e, now, EamLoads(d, atoms, t, cutoff, strict))
  {
    hide *;
    var p, val := ForcePass(t, cutoff, df, strict), Derivatives(d, atoms, t, cutoff);
    ImagedMeans(d, WithOwners(d, atoms), st, rho, e, p, val);
    ImagedParts(d, atoms, st, rho, e, p, val);
    AddedSizes(e, p, start, now);
    StoreSizes(e);
    forall x | 0 <= x < LocalSlots(e) && x < |now|
      ensures LoadAt(e, now, EamLoads(d, atoms, t, cutoff, strict), x)
    {
      PassAdds(d, atoms, st, rho, e, p, val, start, now, x);
      LoadOf(e, start, EmbeddedLoads(d, atoms, t, cutoff), x);
      if InUse(e, x) {
        var a, k := LocalSlotOf(e, x);
        LocalIsOwned(d, atoms, st, rho, e, a, k);
        PullIs(d, atoms, t, cutoff, df, strict, e.gid[x]);
        EamLoadIs(d, atoms, t, cutoff, strict, e.gid[x]);
      }
      LoadAtBy(e, now, EamLoads(d, atoms, t, cutoff, strict), x);
    }
    LoadsBy(e, now, EamLoads(d, atoms, t, cutoff, strict));
  }

  // ----- the kernels differ by the images exactly at the cutoff

  /** What an atom gets from an image exactly at the cutoff. */
  function CutImage(d: Domain, pop: Population, p: Potential, val: int -> real, gid: int, r: Triple<real>,
                    key: ImageKey): Load
    requires Good(p)
  {
    if key.gid !in pop then NONE
    else
      var dr := Difference(r, Position(d, pop, key));
      if Square(dr) == Cut2(p) && Square(dr) > 0.0 then Contribution(p, CoupleIds(p, val, gid, key.gid), dr, Square(dr))
      else NONE
  }

  ghost function FromCut(d: Domain, pop: Population, p: Potential, val: int -> real, gid: int,
                         r: Triple<real>): ImageKey -> Load
    requires Good(p)
  {
    (key: ImageKey) => CutImage(d, pop, p, val, gid, r, key)
  }

  /** What an atom gets from all images exactly at the cutoff. */
  ghost function CutSum(d: Domain, atoms: AtomSet, t: Tables, cutoff: real, gid: int): Load
    requires ValidDomain(d) && GoodTables(t, cutoff) && gid in atoms
  {
    ExtentsPositive(d);
    PassesGood(t, cutoff, [], false);
    var p, r := ForcePass(t, cutoff, [], false), atoms[gid].r;
    SetSum(CloseImages(d, WithOwners(d, atoms), p, r),
           FromCut(d, WithOwners(d, atoms), p, Derivatives(d, atoms, t, cutoff), gid, r))
  }

  lemma ImageSplit(d: Domain, pop: Population, t: Tables, cutoff: real, val: int -> real, gid: int, r: Triple<real>,
                   key: ImageKey)
    requires GoodTables(t, cutoff)
    ensures Good(ForcePass(t, cutoff, [], false)) && Good(ForcePass(t, cutoff, [], true))
    ensures FromImages(d, pop, ForcePass(t, cutoff, [], false), val, gid, r)(key) ==
            Plus(FromImages(d, pop, ForcePass(t, cutoff, [], true), val, gid, r)(key),
                 FromCut(d, pop, ForcePass(t, cutoff, [], false), val, gid, r)(key))
  {
    PassesGood(t, cutoff, [], false);
    PassesGood(t, cutoff, [], true);
    hide Position, Square, Over, Scaled, Times, Difference;
  }

  /** The full sum is the strict one and the images exactly at the cutoff. */
  lemma PullsSplit(d: Domain, atoms: AtomSet, t: Tables, cutoff: real, gid: int)
    requires ValidDomain(d) && GoodTables(t, cutoff) && gid in atoms
    ensures Pulls(d, atoms, t, cutoff, false)(gid) ==
            Plus(Pulls(d, atoms, t, cutoff, true)(gid), CutSum(d, atoms, t, cutoff, gid))
  {
    ExtentsPositive(d);
    PassesGood(t, cutoff, [], false);
    PassesGood(t, cutoff, [], true);
    var val, pop, r := Derivatives(d, atoms, t, cutoff), WithOwners(d, atoms), atoms[gid].r;
    var p, q := ForcePass(t, cutoff, [], false), ForcePass(t, cutoff, [], true);
    hide SetSum, CloseImages, FromImages, FromCut, GoodTables, Good, ValidDomain, PositiveExtents, Derivatives, Plus,
         WithOwners;
    SameCandidates(d, pop, p, q, r);
    forall key
      ensures FromImages(d, pop, p, val, gid, r)(key) ==
              Plus(FromImages(d, pop, q, val, gid, r)(key), FromCut(d, pop, p, val, gid, r)(key))
    {
      ImageSplit(d, pop, t, cutoff, val, gid, r, key);
    }
    SetSumPairs(CloseImages(d, pop, p, r), FromImages(d, pop, q, val, gid, r), FromCut(d, pop, p, val, gid, r),
                FromImages(d, pop, p, val, gid, r));
    AtomSumIs(d, atoms, p, val, gid);
    AtomSumIs(d, atoms, q, val, gid);
  }

  /** Whatever is exactly at the cutoff of an atom adds up to nothing. */
  ghost predicate NothingCut(d: Domain, atoms: AtomSet, t: Tables, cutoff: real)
    requires ValidDomain(d) && GoodTables(t, cutoff)
  {
    forall gid :: gid in atoms ==> CutSum(d, atoms, t, cutoff, gid) == NONE
  }

  lemma LoadsDiffer(d: Domain, atoms: AtomSet, t: Tables, cutoff: real, gid: int)
    requires ValidDomain(d) && GoodTables(t, cutoff) && gid in atoms
    ensures EamLoads(d, atoms, t, cutoff, false)(gid) ==
            Plus(EamLoads(d, atoms, t, cutoff, true)(gid), CutSum(d, atoms, t, cutoff, gid))
  {
    hide *;
    PullsSplit(d, atoms, t, cutoff, gid);
    EamLoadIs(d, atoms, t, cutoff, true, gid);
    EamLoadIs(d, atoms, t, cutoff, false, gid);
    PlusLaws(EmbeddedLoads(d, atoms, t, cutoff)(gid), Pulls(d, atoms, t, cutoff, true)(gid),
             CutSum(d, atoms, t, cutoff, gid));
  }

  lemma CutHasNoEnergy(d: Domain, atoms: AtomSet, t: Tables, cutoff: real, gid: int)
    requires ValidDomain(d) && GoodTables(t, cutoff) && gid in atoms
    ensures CutSum(d, atoms, t, cutoff, gid).u == 0.0 && CutSum(d, atoms, t, cutoff, gid).rho == 0.0
  {
    ExtentsPositive(d);
    PassesGood(t, cutoff, [], false);
    var p, r, val := ForcePass(t, cutoff, [], false), atoms[gid].r, Derivatives(d, atoms, t, cutoff);
    var f := FromCut(d, WithOwners(d, atoms), p, val, gid, r);
    hide SetSum, CloseImages, Position, Square, Over, Scaled, Difference, Derivatives, WithOwners, PairSlope, CoupleIds;
    forall key
      ensures f(key).u == 0.0 && f(key).rho == 0.0
    {
    }
    SetSumForceOnly(CloseImages(d, WithOwners(d, atoms), p, r), f);
  }

  /** The kernels give every atom the same density and energy, and the same energy in
      all; and the same forces exactly when nothing at the cutoff counts. */
  lemma KernelsAgreeExactly(d: Domain, atoms: AtomSet, t: Tables, cutoff: real)
    requires ValidDomain(d) && GoodTables(t, cutoff)
    ensures forall gid :: gid in atoms ==>
              && EamLoads(d, atoms, t, cutoff, true)(gid).rho == EamLoads(d, atoms, t, cutoff, false)(gid).rho
              && EamLoads(d, atoms, t, cutoff, true)(gid).u == EamLoads(d, atoms, t, cutoff, false)(gid).u
    ensures EamEnergy(d, atoms, t, cutoff, true) == EamEnergy(d, atoms, t, cutoff, false)
    ensures (forall gid :: gid in atoms ==>
              EamLoads(d, atoms, t, cutoff, true)(gid) == EamLoads(d, atoms, t, cutoff, false)(gid))
       <==> NothingCut(d, atoms, t, cutoff)
  {
    hide *;
    var half, full := EamLoads(d, atoms, t, cutoff, true), EamLoads(d, atoms, t, cutoff, false);
    forall gid | gid in atoms
      ensures half(gid).rho == full(gid).rho && half(gid).u == full(gid).u
      ensures half(gid) == full(gid) <==> CutSum(d, atoms, t, cutoff, gid) == NONE
    {
      AtomAgrees(d, atoms, t, cutoff, gid);
    }
    forall gid | gid in atoms.Keys
      ensures half(gid).u == full(gid).u
    {
      AtomAgrees(d, atoms, t, cutoff, gid);
    }
    SetSumEnergy(atoms.Keys, half, full);
    EnergiesAre(d, atoms, t, cutoff);
    NothingCutIs(d, atoms, t, cutoff);
  }

  lemma AtomAgrees(d: Domain, atoms: AtomSet, t: Tables, cutoff: real, gid: int)
    requires ValidDomain(d) && GoodTables(t, cutoff) && gid in atoms
    ensures var half, full := EamLoads(d, atoms, t, cutoff, true)(gid), EamLoads(d, atoms, t, cutoff, false)(gid);
            && half.rho == full.rho && half.u == full.u
            && (half == full <==> CutSum(d, atoms, t, cutoff, gid) == NONE)
  {
    hide EamLoads, CutSum, ValidDomain, GoodTables;
    LoadsDiffer(d, atoms, t, cutoff, gid);
    CutHasNoEnergy(d, atoms, t, cutoff, gid);
  }

  lemma EnergiesAre(d: Domain, atoms: AtomSet, t: Tables, cutoff: real)
    requires ValidDomain(d) && GoodTables(t, cutoff)
    ensures EamEnergy(d, atoms, t, cutoff, true) == SetSum(atoms.Keys, EamLoads(d, atoms, t, cutoff, true)).u
    ensures EamEnergy(d, atoms, t, cutoff, false) == SetSum(atoms.Keys, EamLoads(d, atoms, t, cutoff, false)).u
  {
  }

  lemma NothingCutIs(d: Domain, atoms: AtomSet, t: Tables, cutoff: real)
    requires ValidDomain(d) && GoodTables(t, cutoff)
    ensures NothingCut(d, atoms, t, cutoff) <==> forall gid :: gid in atoms ==> CutSum(d, atoms, t, cutoff, gid) == NONE
  {
    hide CutSum;
  }

  /** Nothing at the cutoff counts when no image is there. */
  lemma NoneAtCutoff(d: Domain, atoms: AtomSet, t: Tables, cutoff: real)
    requires ValidDomain(d) && GoodTables(t, cutoff)
    requires forall gid, key: ImageKey :: gid in atoms && key.gid in atoms ==>
               Square(Difference(atoms[gid].r, Image(d, atoms[key.gid].r, key.n))) != Times(cutoff, cutoff)
    ensures NothingCut(d, atoms, t, cutoff)
  {
    ExtentsPositive(d);
    PassesGood(t, cutoff, [], false);
    hide SetSum, CloseImages, Square, Contribution, ValidDomain, GoodTables, Image, Difference, Good, Times;
    forall gid | gid in atoms
      ensures CutSum(d, atoms, t, cutoff, gid) == NONE
    {
      var p, r := ForcePass(t, cutoff, [], false), atoms[gid].r;
      SetSumZeros(CloseImages(d, WithOwners(d, atoms), p, r),
                  FromCut(d, WithOwners(d, atoms), p, Derivatives(d, atoms, t, cutoff), gid, r));
    }
  }
}
