/** The two embedded atom kernels on the same ranks: where their results agree, and a
    simulation in which they do not. */
module CutoffWorlds {
  import opened Triples
  import opened LinkCellIndex
  import opened Decomposition
  import opened Atoms
  import opened Placement
  import opened Simulation
  import opened LoadSums
  import opened SetSums
  import opened PairLaws
  import opened PairForces
  import opened FullPairs
  import opened PairImages
  import opened ImageSums
  import opened ConsistentStores
  import opened EmbeddedAtom
  import opened WorldEmbedding
  import opened Worlds
  import opened SquareRoots
  import CutoffPairs
  import HalfPairs
  import WorldForces

  // ----- slot by slot

  /** The same loads in every local slot of every rank. */
  ghost predicate SameEverywhere(es: seq<Store>, one: seq<seq<Load>>, two: seq<seq<Load>>)
    requires |one| == |two| == |es|
  {
    forall k, x :: 0 <= k < |es| && 0 <= x < LocalSlots(es[k]) && x < |one[k]| && x < |two[k]| ==>
      one[k][x] == two[k][x]
  }

  ghost predicate AllLoadsOf(es: seq<Store>, loads: seq<seq<Load>>, f: int -> Load) {
    |loads| == |es| && forall k :: 0 <= k < |es| ==> LoadsOf(es[k], loads[k], f)
  }

  /** Every atom is in a local slot of some rank. */
  lemma AtomSlot(d: Domain, atoms: AtomSet, st: State, es: seq<Store>, gid: int) returns (k: nat, x: int)
    requires World(d, atoms, st, es) && gid in atoms
    ensures k < |es| && 0 <= x < LocalSlots(es[k]) && x < |es[k].gid| && InUse(es[k], x) && es[k].gid[x] == gid
  {
    hide World, InUse, LocalSlots;
    IdHasRank(d, atoms, st, es, gid);
    k :| 0 <= k < |es| && gid in LocalIds(es[k]);
    x :| 0 <= x < LocalSlots(es[k]) && x < |es[k].gid| && InUse(es[k], x) && es[k].gid[x] == gid;
  }

  lemma SlotAtomKnown(d: Domain, atoms: AtomSet, st: State, es: seq<Store>, k: nat, x: int)
    requires World(d, atoms, st, es) && k < |es| && 0 <= x < LocalSlots(es[k]) && x < |es[k].gid| && InUse(es[k], x)
    ensures es[k].gid[x] in atoms
  {
    hide World, InUse, LocalSlots;
    assert es[k].gid[x] in LocalIds(es[k]);
    OwnerHasId(d, atoms, st, es, k, es[k].gid[x]);
  }

  lemma SlotAgrees(d: Domain, atoms: AtomSet, st: State, es: seq<Store>, t: Tables, cutoff: real,
                   half: seq<Load>, full: seq<Load>, k: nat, x: int)
    requires World(d, atoms, st, es) && ValidDomain(d) && GoodTables(t, cutoff) && k < |es|
    requires LoadsOf(es[k], half, EamLoads(d, atoms, t, cutoff, true))
    requires LoadsOf(es[k], full, EamLoads(d, atoms, t, cutoff, false))
    requires 0 <= x < LocalSlots(es[k]) && x < |half| && x < |full|
    requires NothingCut(d, atoms, t, cutoff)
    ensures half[x] == full[x]
  {
    hide *;
    LoadOf(es[k], half, EamLoads(d, atoms, t, cutoff, true), x);
    LoadOf(es[k], full, EamLoads(d, atoms, t, cutoff, false), x);
    if InUse(es[k], x) {
      SlotAtomKnown(d, atoms, st, es, k, x);
      AtomAgrees(d, atoms, t, cutoff, es[k].gid[x]);
      NothingCutIs(d, atoms, t, cutoff);
    }
  }

  lemma AtomNotCut(d: Domain, atoms: AtomSet, st: State, es: seq<Store>, t: Tables, cutoff: real,
                   half: seq<seq<Load>>, full: seq<seq<Load>>, gid: int)
    requires World(d, atoms, st, es) && ValidDomain(d) && GoodTables(t, cutoff)
    requires AllLoadsOf(es, half, EamLoads(d, atoms, t, cutoff, true))
    requires AllLoadsOf(es, full, EamLoads(d, atoms, t, cutoff, false))
    requires |half| == |full| == |es| && SameEverywhere(es, half, full) && gid in atoms
    ensures CutSum(d, atoms, t, cutoff, gid) == NONE
  {
    var k, x := AtomSlot(d, atoms, st, es, gid);
    var one, two := EamLoads(d, atoms, t, cutoff, true), EamLoads(d, atoms, t, cutoff, false);
    assert LoadsOf(es[k], half[k], one) && LoadsOf(es[k], full[k], two);
    LoadsSize(es[k], half[k], one);
    LoadsSize(es[k], full[k], two);
    assert half[k][x] == full[k][x];
    hide *;
    LoadOf(es[k], half[k], one, x);
    LoadOf(es[k], full[k], two, x);
    AtomAgrees(d, atoms, t, cutoff, gid);
  }

  /** After a run of each kernel on the same world, every local slot has the same load in
      both if and only if nothing exactly at a cutoff counts. */
  lemma RunsAgreeExactly(d: Domain, atoms: AtomSet, st: State, es: seq<Store>, t: Tables, cutoff: real,
                         half: seq<seq<Load>>, full: seq<seq<Load>>)
    requires World(d, atoms, st, es) && ValidDomain(d) && GoodTables(t, cutoff)
    requires AllLoadsOf(es, half, EamLoads(d, atoms, t, cutoff, true))
    requires AllLoadsOf(es, full, EamLoads(d, atoms, t, cutoff, false))
    ensures |half| == |full| == |es|
    ensures SameEverywhere(es, half, full) <==> NothingCut(d, atoms, t, cutoff)
  {
    hide World, ValidDomain, GoodTables, EamLoads, InUse, LocalSlots, CutSum, LoadsOf;
    if NothingCut(d, atoms, t, cutoff) {
      forall k, x | 0 <= k < |es| && 0 <= x < LocalSlots(es[k]) && x < |half[k]| && x < |full[k]|
        ensures half[k][x] == full[k][x]
      {
        SlotAgrees(d, atoms, st, es, t, cutoff, half[k], full[k], k, x);
      }
    }
    if SameEverywhere(es, half, full) {
      forall gid | gid in atoms
        ensures CutSum(d, atoms, t, cutoff, gid) == NONE
      {
        AtomNotCut(d, atoms, st, es, t, cutoff, half, full, gid);
      }
    }
  }

  lemma LoadsSize(e: Store, loads: seq<Load>, f: int -> Load)
    requires LoadsOf(e, loads, f)
    ensures |loads| == |e.r| == |e.gid|
  {
  }

  // ----- one rank's slots

  /** What a local slot gets from the atoms of its rank at its cutoff is what its atom
      gets from all images there. */
  lemma CutoffOfSlot(d: Domain, atoms: AtomSet, st: State, rho: Triple<int>, e: Store, t: Tables, cutoff: real,
                     df: seq<real>, a: int, k: int)
    requires ValidDomain(d) && Consistent(d, atoms, st) && GoodTables(t, cutoff) && ValidGrid(e.g)
    requires Imaged(d, WithOwners(d, atoms), st, rho, e, ForcePass(t, cutoff, df, false),
                    Derivatives(d, atoms, t, cutoff))
    requires HalfPairs.LocalAtom(e, a, k)
    ensures ValidStore(e) && Good(ForcePass(t, cutoff, df, false)) && 0 <= Slot(a, k) < |e.r| == |e.gid|
    ensures e.gid[Slot(a, k)] in atoms
    ensures CutoffPairs.AtCutoff(e, ForcePass(t, cutoff, df, false), Slot(a, k)) ==
            CutSum(d, atoms, t, cutoff, e.gid[Slot(a, k)])
  {
    var p, q, val := ForcePass(t, cutoff, df, false), ForcePass(t, cutoff, df, true), Derivatives(d, atoms, t, cutoff);
    var pop := WithOwners(d, atoms);
    StrictImaged(d, pop, st, rho, e, t, cutoff, df, val);
    assert q == CutoffPairs.Strict(p) && p == CutoffPairs.Loose(p);
    hide *;
    ImagedMeans(d, pop, st, rho, e, p, val);
    ImagedMeans(d, pop, st, rho, e, q, val);
    WorldForces.ImagedParts(d, atoms, st, rho, e, p, val);
    LocalIsOwned(d, atoms, st, rho, e, a, k);
    var x := Slot(a, k);
    CutoffPairs.SumSplit(e, p, x);
    BruteForceIsImageSum(d, pop, st, rho, e, p, val, a, k);
    BruteForceIsImageSum(d, pop, st, rho, e, q, val, a, k);
    WorldForces.AtomSumIs(d, atoms, p, val, e.gid[x]);
    WorldForces.AtomSumIs(d, atoms, q, val, e.gid[x]);
    PullIs(d, atoms, t, cutoff, df, false, e.gid[x]);
    PullIs(d, atoms, t, cutoff, df, true, e.gid[x]);
    PullsSplit(d, atoms, t, cutoff, e.gid[x]);
    SameRest(BruteForce(e, q, x), CutoffPairs.AtCutoff(e, p, x), CutSum(d, atoms, t, cutoff, e.gid[x]));
  }

  lemma SameRest(a: Load, b: Load, c: Load)
    requires Plus(a, b) == Plus(a, c)
    ensures b == c
  {
    assert Plus(a, b).f == Plus(a, c).f;
  }

  lemma StrictImaged(d: Domain, pop: Population, st: State, rho: Triple<int>, e: Store, t: Tables, cutoff: real,
                     df: seq<real>, val: int -> real)
    requires Imaged(d, pop, st, rho, e, ForcePass(t, cutoff, df, false), val)
    ensures Imaged(d, pop, st, rho, e, ForcePass(t, cutoff, df, true), val)
  {
    hide Placed, FromRank, ValidDomain, ValidState, TaggedAt;
  }

  // ----- a simulation in which the kernels differ

  function Resting(gid: int, x: real): Atom {
    Atom(gid, 0, Triple(x, 0.0, 0.0), Triple(0.0, 0.0, 0.0))
  }

  function OneTables(root: real -> real): Tables {
    Tables(root, r => Value(1.0, 1.0), r => Value(1.0, 1.0), r => Value(1.0, 1.0))
  }

  /** Two atoms at distance 1. */
  const PAIR: AtomSet := map[0 := Resting(0, 0.0), 1 := Resting(1, 1.0)]

  lemma PairIsValid(root: real -> real)
    requires IsRoot(root)
    ensures ValidDomain(CUBE) && ValidAtoms(CUBE, PAIR) && Separate(PAIR)
    ensures GoodTables(OneTables(root), 1.0)
    ensures 0 in PAIR && 1 in PAIR && PAIR[0] == Resting(0, 0.0) && PAIR[1] == Resting(1, 1.0)
  {
    forall x: real | x > 0.0
      ensures root(x) > 0.0
    {
      RootAt(root, x);
    }
    hide IsRoot;
  }

  /** Only one image is at distance 1 of the first atom. */
  lemma OnlyImage(key: ImageKey)
    requires ValidDomain(CUBE) && (key.gid == 0 || key.gid == 1)
    ensures Square(Difference(PAIR[0].r, Position(CUBE, WithOwners(CUBE, PAIR), key))) == 1.0 <==>
              key == ImageKey(1, Triple(0, 0, 0))
  {
    hide OwnerCoord;
    var n, x := key.n, key.gid;
    var v := Difference(PAIR[0].r, Position(CUBE, WithOwners(CUBE, PAIR), key));
    assert v == Triple(0.0 - (x as real + n.x as real * 4.0), 0.0 - n.y as real * 4.0, 0.0 - n.z as real * 4.0);
    assert v == Triple((-x - 4 * n.x) as real, (-4 * n.y) as real, (-4 * n.z) as real);
    var i, j, k := -x - 4 * n.x, -4 * n.y, -4 * n.z;
    WholeSquares(i, j, k);
    UnitVector(i, j, k);
  }

  lemma WholeSquares(i: int, j: int, k: int)
    ensures Square(Triple(i as real, j as real, k as real)) == (i * i + j * j + k * k) as real
  {
  }

  lemma UnitVector(i: int, j: int, k: int)
    requires j % 4 == 0 && k % 4 == 0
    ensures i * i + j * j + k * k == 1 <==> (i == 1 || i == -1) && j == 0 && k == 0
  {
    WholeSquare(i);
    WholeSquare(j);
    WholeSquare(k);
  }

  lemma WholeSquare(i: int)
    ensures i * i >= 0 && (i * i == 0 <==> i == 0) && (i * i == 1 <==> i == 1 || i == -1) &&
            (i % 4 == 0 && i != 0 ==> i * i > 1)
  {
    if i >= 2 {
      assert i * i >= 2 * i;
    } else if i <= -2 {
      assert i * i >= 2 * -i;
    }
  }

  lemma CutIs(d: Domain, atoms: AtomSet, t: Tables, cutoff: real, gid: int)
    requires ValidDomain(d) && GoodTables(t, cutoff) && gid in atoms
    ensures PositiveExtents(d) && Good(ForcePass(t, cutoff, [], false))
    ensures CutSum(d, atoms, t, cutoff, gid) ==
            SetSum(CloseImages(d, WithOwners(d, atoms), ForcePass(t, cutoff, [], false), atoms[gid].r),
                   FromCut(d, WithOwners(d, atoms), ForcePass(t, cutoff, [], false), Derivatives(d, atoms, t, cutoff),
                           gid,
                           atoms[gid].r))
  {
    ExtentsPositive(d);
    PassesGood(t, cutoff, [], false);
    hide SetSum, CloseImages, FromCut;
  }

  lemma FromCutIs(d: Domain, pop: Population, p: Potential, val: int -> real, gid: int, r: Triple<real>, key: ImageKey)
    requires Good(p)
    ensures key.gid !in pop ==> FromCut(d, pop, p, val, gid, r)(key) == NONE
    ensures key.gid in pop && Square(Difference(r, Position(d, pop, key))) != Cut2(p) ==>
              FromCut(d, pop, p, val, gid, r)(key) == NONE
    ensures key.gid in pop && Square(Difference(r, Position(d, pop, key))) == Cut2(p) && Cut2(p) > 0.0 ==>
              FromCut(d, pop, p, val, gid, r)(key) ==
              Contribution(p, CoupleIds(p, val, gid, key.gid), Difference(r, Position(d, pop, key)), Cut2(p))
  {
    hide Square, Contribution, Cut2, Difference, Position;
  }

  /** The last pass for the pair. */
  function PairPass(root: real -> real): Potential {
    ForcePass(OneTables(root), 1.0, [], false)
  }

  ghost predicate PairReady(root: real -> real) {
    && ValidDomain(CUBE) && root(1.0) == 1.0 && GoodTables(OneTables(root), 1.0) && Good(PairPass(root))
    && PositiveExtents(CUBE) && 0 in PAIR
  }

  /** What the first atom gets from images at its cutoff. */
  ghost function PairFrom(root: real -> real): ImageKey -> Load
    requires PairReady(root)
  {
    FromCut(CUBE, WithOwners(CUBE, PAIR), PairPass(root), Derivatives(CUBE, PAIR, OneTables(root), 1.0), 0, PAIR[0].r)
  }

  lemma PairFacts(root: real -> real)
    requires root(1.0) == 1.0 && GoodTables(OneTables(root), 1.0)
    ensures PairReady(root) && Cut2(PairPass(root)) == 1.0
    ensures WithOwners(CUBE, PAIR).Keys == {0, 1}
  {
    PassesGood(OneTables(root), 1.0, [], false);
    hide OwnerCoord;
    assert PAIR.Keys == {0, 1};
  }

  lemma PairTerm(root: real -> real, key: ImageKey)
    requires PairReady(root)
    ensures key != ImageKey(1, Triple(0, 0, 0)) ==> PairFrom(root)(key) == NONE
    ensures key == ImageKey(1, Triple(0, 0, 0)) ==> PairFrom(root)(key).f.x == 2.0
  {
    hide *;
    PairParts(root);
    PairFacts(root);
    PairFromIs(root, key);
    if key.gid in WithOwners(CUBE, PAIR).Keys {
      OnlyImage(key);
    }
  }

  lemma PairFromIs(root: real -> real, key: ImageKey)
    requires PairReady(root) && Cut2(PairPass(root)) == 1.0
    ensures key.gid !in WithOwners(CUBE, PAIR).Keys ==> PairFrom(root)(key) == NONE
    ensures 1 in WithOwners(CUBE, PAIR).Keys
    ensures key.gid in WithOwners(CUBE, PAIR).Keys ==>
              var r2 := Square(Difference(PAIR[0].r, Position(CUBE, WithOwners(CUBE, PAIR), key)));
              && (r2 != 1.0 ==> PairFrom(root)(key) == NONE)
              && (r2 == 1.0 && key == ImageKey(1, Triple(0, 0, 0)) ==> PairFrom(root)(key).f.x == 2.0)
  {
    var val := Derivatives(CUBE, PAIR, OneTables(root), 1.0);
    PairGives(root, val);
    hide Square, Contribution, Cut2, Difference, Position, WithOwners, GoodTables, Derivatives, Good, PairPass;
    FromCutIs(CUBE, WithOwners(CUBE, PAIR), PairPass(root), val, 0, PAIR[0].r, key);
  }

  /** The first atom gets from the images at its cutoff what the second one gives it. */
  lemma PairCut(root: real -> real)
    requires PairReady(root)
    ensures CutSum(CUBE, PAIR, OneTables(root), 1.0, 0).f.x == 2.0
  {
    hide *;
    PairParts(root);
    var key := ImageKey(1, Triple(0, 0, 0));
    PairSumIs(root);
    PairClose(root, key);
    var close := CloseImages(CUBE, WithOwners(CUBE, PAIR), PairPass(root), PAIR[0].r);
    forall other | other in close - {key}
      ensures PairFrom(root)(other) == NONE
    {
      PairTerm(root, other);
    }
    PairTerm(root, key);
    SetSumWithin(close, {key}, PairFrom(root));
    OneTerm(PairFrom(root), key);
  }

  lemma PairParts(root: real -> real)
    requires PairReady(root)
    ensures ValidDomain(CUBE) && GoodTables(OneTables(root), 1.0) && Good(PairPass(root)) && PositiveExtents(CUBE)
    ensures 0 in PAIR && root(1.0) == 1.0
  {
  }

  lemma PairSumIs(root: real -> real)
    requires PairReady(root)
    ensures CutSum(CUBE, PAIR, OneTables(root), 1.0, 0) ==
            SetSum(CloseImages(CUBE, WithOwners(CUBE, PAIR), PairPass(root), PAIR[0].r), PairFrom(root))
  {
    hide SetSum, CloseImages, FromCut, WithOwners, Derivatives, GoodTables, Good;
    CutIs(CUBE, PAIR, OneTables(root), 1.0, 0);
  }

  lemma OneTerm(f: ImageKey -> Load, key: ImageKey)
    ensures SetSum({key}, f) == f(key)
  {
    SetSumNext({}, f, key, {key});
    SetSumEmpty(f);
    PlusLaws(f(key), NONE, NONE);
    hide SetSum, Plus;
  }

  lemma PairClose(root: real -> real, key: ImageKey)
    requires PairReady(root) && key == ImageKey(1, Triple(0, 0, 0))
    ensures key in CloseImages(CUBE, WithOwners(CUBE, PAIR), PairPass(root), PAIR[0].r)
  {
    PairFacts(root);
    OnlyImage(key);
    hide CloseImages, Square, OwnerCoord, Cut2;
    CloseImagesAre(CUBE, WithOwners(CUBE, PAIR), PairPass(root), PAIR[0].r, key);
  }

  lemma PairGives(root: real -> real, val: int -> real)
    requires PairReady(root) && val == Derivatives(CUBE, PAIR, OneTables(root), 1.0)
    ensures 1 in WithOwners(CUBE, PAIR)
    ensures Contribution(PairPass(root), CoupleIds(PairPass(root), val, 0, 1),
                         Difference(PAIR[0].r, Position(CUBE, WithOwners(CUBE, PAIR), ImageKey(1, Triple(0, 0, 0)))),
                         1.0).f.x == 2.0
  {
    var p := PairPass(root);
    hide Densities, OwnerCoord;
    assert val(0) == 1.0 && val(1) == 1.0;
    assert CoupleIds(p, val, 0, 1) == 2.0;
    var dr := Difference(PAIR[0].r, Position(CUBE, WithOwners(CUBE, PAIR), ImageKey(1, Triple(0, 0, 0))));
    assert dr.x == -1.0;
    assert PairSlope(p, 2.0, 1.0) == 2.0;
  }

  /** Two atoms at distance 1 on eight ranks, with a cutoff of 1: a valid simulation, with
      a consistent state and stores that hold it, in which the kernels give the atoms
      different forces. */
  lemma KernelsCanDiffer(root: real -> real) returns (st: State, es: seq<Store>)
    requires IsRoot(root)
    ensures ValidDomain(CUBE) && GoodTables(OneTables(root), 1.0)
    ensures EamWorld(CUBE, PAIR, st, es, OneTables(root), 1.0) && Separate(PAIR)
    ensures !NothingCut(CUBE, PAIR, OneTables(root), 1.0)
  {
    PairIsValid(root);
    RootOfOne(root);
    PairFacts(root);
    PairCut(root);
    assert |WithOwners(CUBE, PAIR)| == |WithOwners(CUBE, PAIR).Keys|;
    hide World, ValidAtoms, Separate, CutSum, GoodTables, WithOwners;
    FewImagesFit(CUBE, WithOwners(CUBE, PAIR));
    st, es := WorldExists(CUBE, PAIR);
  }
}
