/** What a rank computes for a local atom from the atoms it holds is the sum over all
    periodic images, of all atoms of the simulation, within the cutoff. */
module ImageSums {
  import opened Triples
  import opened LinkCellIndex
  import opened Decomposition
  import opened Atoms
  import opened Placement
  import opened LoadSums
  import opened SetSums
  import opened PairLaws
  import opened PairForces
  import opened PairImages
  import FullPairs
  import HalfPairs
  import AtomProtocol
  import Periodic

  // ----- the images within the cutoff

  /** The image of an atom some whole periods away. */
  datatype ImageKey = ImageKey(gid: int, n: Triple<int>)

  function Position(d: Domain, pop: Population, key: ImageKey): Triple<real>
    requires key.gid in pop
  {
    Image(d, pop[key.gid].atom.r, key.n)
  }

  predicate Close(d: Domain, pop: Population, p: Potential, r: Triple<real>, key: ImageKey) {
    key.gid in pop && Square(Difference(r, Position(d, pop, key))) <= Cut2(p)
  }

  predicate WithinReach(r: real, s: real, c: real, extent: real, n: int) {
    -c <= r - Shifted(s, n, extent) <= c
  }

  function PeriodsNear(r: real, s: real, c: real, extent: real): set<int>
    requires extent > 0.0
  {
    set n | ((r - s - c) / extent).Floor <= n <= ((r - s + c) / extent).Floor && WithinReach(r, s, c, extent, n)
  }

  lemma NearPeriods(r: real, s: real, c: real, extent: real, n: int)
    requires extent > 0.0 && WithinReach(r, s, c, extent, n)
    ensures n in PeriodsNear(r, s, c, extent)
  {
    FloorBelow(r - s - c, n + 1, extent);
    FloorBelow(r - s + c, n, extent);
    assert (n + 1) as real * extent == n as real * extent + extent;
  }

  predicate PositiveExtents(d: Domain) {
    d.globalExtent.x > 0.0 && d.globalExtent.y > 0.0 && d.globalExtent.z > 0.0
  }

  lemma ExtentsPositive(d: Domain)
    requires ValidDomain(d)
    ensures PositiveExtents(d)
  {
    ExtentPositive(d, X);
    ExtentPositive(d, Y);
    ExtentPositive(d, Z);
  }

  lemma ExtentPositive(d: Domain, ax: Axis)
    requires ValidAxis(d, ax)
    ensures d.globalExtent.At(ax) > 0.0
  {
    TimesPositive(d.gridSize.At(ax) as real, d.boxSize.At(ax));
    TimesPositive(d.procGrid.At(ax) as real, d.localExtent.At(ax));
  }

  /** All images that could be near enough. */
  ghost function Candidates(d: Domain, pop: Population, p: Potential, r: Triple<real>): set<ImageKey>
    requires PositiveExtents(d)
  {
    set gid, x, y, z |
      && gid in pop
      && x in PeriodsNear(r.x, pop[gid].atom.r.x, p.cutoff, d.globalExtent.x)
      && y in PeriodsNear(r.y, pop[gid].atom.r.y, p.cutoff, d.globalExtent.y)
      && z in PeriodsNear(r.z, pop[gid].atom.r.z, p.cutoff, d.globalExtent.z)
      :: ImageKey(gid, Triple(x, y, z))
  }

  /** The images of all atoms within the cutoff of a position. */
  ghost function CloseImages(d: Domain, pop: Population, p: Potential, r: Triple<real>): set<ImageKey>
    requires PositiveExtents(d)
  {
    set key | key in Candidates(d, pop, p, r) && Close(d, pop, p, r, key)
  }

  lemma NotOutside(v: Triple<real>, c: real)
    requires c > 0.0 && Square(v) <= Times(c, c)
    ensures -c <= v.x <= c && -c <= v.y <= c && -c <= v.z <= c
  {
    hide Square, Times;
    if !(-c <= v.x <= c && -c <= v.y <= c && -c <= v.z <= c) {
      SquareAbove(v, c);
    }
  }

  /** There are no others. */
  lemma CloseImagesAre(d: Domain, pop: Population, p: Potential, r: Triple<real>, key: ImageKey)
    requires PositiveExtents(d) && p.cutoff > 0.0
    ensures key in CloseImages(d, pop, p, r) <==> Close(d, pop, p, r, key)
  {
    hide PeriodsNear, Square;
    if Close(d, pop, p, r, key) {
      var s, c, n := pop[key.gid].atom.r, p.cutoff, key.n;
      NotOutside(Difference(r, Position(d, pop, key)), c);
      NearPeriods(r.x, s.x, c, d.globalExtent.x, n.x);
      NearPeriods(r.y, s.y, c, d.globalExtent.y, n.y);
      NearPeriods(r.z, s.z, c, d.globalExtent.z, n.z);
      assert key == ImageKey(key.gid, Triple(n.x, n.y, n.z));
      assert key in Candidates(d, pop, p, r);
    }
  }

  // ----- the sum over them

  /** What two atoms put in together, as a function of their ids: in the last pass of
      the embedded atom method the sum of their derivatives. */
  function CoupleIds(p: Potential, val: int -> real, i: int, j: int): real {
    if p.law.Embedding? then val(i) + val(j) else 0.0
  }

  /** What atom gid at position r gets from an image. */
  function ImageLoad(d: Domain, pop: Population, p: Potential, val: int -> real, gid: int, r: Triple<real>,
                     key: ImageKey): Load
    requires Good(p)
  {
    if key.gid !in pop then NONE
    else
      var dr := Difference(r, Position(d, pop, key));
      var r2 := Square(dr);
      if !Beyond(p, r2) && r2 > 0.0 then Contribution(p, CoupleIds(p, val, gid, key.gid), dr, r2) else NONE
  }

  ghost function FromImages(d: Domain, pop: Population, p: Potential, val: int -> real, gid: int,
                            r: Triple<real>): ImageKey -> Load
    requires Good(p)
  {
    (key: ImageKey) => ImageLoad(d, pop, p, val, gid, r, key)
  }

  /** The sum over all periodic images within the cutoff of atom gid at position r. */
  ghost function ImageSum(d: Domain, pop: Population, p: Potential, val: int -> real, gid: int, r: Triple<real>): Load
    requires Good(p) && PositiveExtents(d)
  {
    SetSum(CloseImages(d, pop, p, r), FromImages(d, pop, p, val, gid, r))
  }

  lemma FarAddsNothing(d: Domain, pop: Population, p: Potential, val: int -> real, gid: int, r: Triple<real>,
                       key: ImageKey)
    requires Good(p) && !Close(d, pop, p, r, key)
    ensures FromImages(d, pop, p, val, gid, r)(key) == NONE
  {
    hide Square, Cut2, Contribution;
  }

  // ----- the images that a rank holds

  /** The derivatives that the last pass works with are those of the atoms. */
  ghost predicate Tagged(e: Store, p: Potential, val: int -> real) {
    p.law.Embedding? ==>
      |p.law.dfEmbed| == |e.r| && forall b, l :: Holds(e, b, l) ==> TaggedAt(e, p.law.dfEmbed, val, Slot(b, l))
  }

  ghost predicate TaggedAt(e: Store, dfEmbed: seq<real>, val: int -> real, x: int) {
    0 <= x < |e.gid| && x < |dfEmbed| && dfEmbed[x] == val(e.gid[x])
  }

  /** A rank whose store is filled by a redistribution. */
  ghost predicate Imaged(d: Domain, pop: Population, st: State, rho: Triple<int>, e: Store, p: Potential,
                         val: int -> real) {
    && ValidDomain(d) && ValidState(d, st) && Placed(d, pop, AtomProtocol.ALL, st) && FromRank(d, st, rho, e)
    && WideCells(d, p) && Tagged(e, p, val)
  }

  lemma ImagedMeans(d: Domain, pop: Population, st: State, rho: Triple<int>, e: Store, p: Potential, val: int -> real)
    requires Imaged(d, pop, st, rho, e, p, val)
    ensures ValidStore(e) && ValidGrid(e.g) && Good(p) && p.cutoff > 0.0 && PositiveExtents(d)
    ensures Located(d, rho, e, p)
  {
    StoreLocated(d, pop, st, rho, e, p);
    ExtentsPositive(d);
  }

  /** How many periods the copy in cell t of brick rho is away. */
  function PeriodsAway(d: Domain, r: Triple<real>, rho: Triple<int>, t: Triple<int>): Triple<int>
    requires ValidDomain(d)
  {
    Triple(Periodic.Periods(GlobalCell(d, X, r.x), rho.x, t.x, d.procGrid.x, d.gridSize.x),
           Periodic.Periods(GlobalCell(d, Y, r.y), rho.y, t.y, d.procGrid.y, d.gridSize.y),
           Periodic.Periods(GlobalCell(d, Z, r.z), rho.z, t.z, d.procGrid.z, d.gridSize.z))
  }

  /** The image that slot l of cell b holds. */
  ghost function KeyAt(d: Domain, pop: Population, rho: Triple<int>, e: Store, b: int, l: int): ImageKey {
    if ValidDomain(d) && ValidGrid(e.g) && 0 <= Slot(b, l) < |e.gid| && e.gid[Slot(b, l)] in pop then
      var gid := e.gid[Slot(b, l)];
      ImageKey(gid, PeriodsAway(d, pop[gid].atom.r, rho, GetTuple(e.g, b)))
    else
      ImageKey(0, Triple(0, 0, 0))
  }

  lemma ExpectedImage(d: Domain, pop: Population, rho: Triple<int>, t: Triple<int>, b: Atom)
    requires ValidDomain(d) && Expected(d, pop, AtomProtocol.ALL, rho, t, b)
    ensures b.gid in pop && b.r == Image(d, pop[b.gid].atom.r, PeriodsAway(d, pop[b.gid].atom.r, rho, t))
  {
    hide GlobalCell, Periodic.ImageCell, Periodic.Periods, Shifted;
  }

  lemma KeyHeld(d: Domain, pop: Population, st: State, rho: Triple<int>, e: Store, p: Potential, val: int -> real,
                b: int, l: int)
    requires Imaged(d, pop, st, rho, e, p, val) && Holds(e, b, l)
    ensures 0 <= Slot(b, l) < |e.r| == |e.gid| && KeyAt(d, pop, rho, e, b, l).gid == e.gid[Slot(b, l)]
    ensures KeyAt(d, pop, rho, e, b, l).gid in pop
    ensures e.r[Slot(b, l)] == Position(d, pop, KeyAt(d, pop, rho, e, b, l))
  {
    var t := SlotAtom(d, st, rho, e, b, l);
    SlotExpected(d, pop, st, rho, t, l);
    hide GetTuple, Slot, CellAt, Expected, Placed, FromRank, Image, PeriodsAway;
    ExpectedImage(d, pop, rho, t, CellAt(d, st, rho, t)[l]);
  }

  lemma KeysOnce(d: Domain, pop: Population, st: State, rho: Triple<int>, e: Store, p: Potential, val: int -> real,
                 b: int, l: int, c: int, m: int)
    requires Imaged(d, pop, st, rho, e, p, val) && Holds(e, b, l) && Holds(e, c, m)
    requires KeyAt(d, pop, rho, e, b, l) == KeyAt(d, pop, rho, e, c, m)
    ensures b == c && l == m
  {
    KeyHeld(d, pop, st, rho, e, p, val, b, l);
    KeyHeld(d, pop, st, rho, e, p, val, c, m);
    hide KeyAt, Slot, Position, Placed, FromRank;
    ImageHeldOnce(d, pop, st, rho, e, e.gid[Slot(b, l)], e.r[Slot(b, l)], b, l, c, m);
  }

  /** What slot i gets from a slot is what it gets from the image there. */
  lemma SlotIsImage(d: Domain, pop: Population, st: State, rho: Triple<int>, e: Store, p: Potential, val: int -> real,
                    a: int, k: int, b: int, l: int)
    requires Imaged(d, pop, st, rho, e, p, val) && Holds(e, a, k) && Holds(e, b, l)
    ensures Good(p) && 0 <= Slot(a, k) < |e.r| == |e.gid| && 0 <= Slot(b, l) < |e.r|
    ensures PairLoad(e, p, Slot(a, k), Slot(b, l)) ==
            FromImages(d, pop, p, val, e.gid[Slot(a, k)], e.r[Slot(a, k)])(KeyAt(d, pop, rho, e, b, l))
  {
    hide *;
    ImagedMeans(d, pop, st, rho, e, p, val);
    KeyHeld(d, pop, st, rho, e, p, val, a, k);
    KeyHeld(d, pop, st, rho, e, p, val, b, l);
    SlotsCouple(d, pop, st, rho, e, p, val, a, k, b, l);
    var i, j, key := Slot(a, k), Slot(b, l), KeyAt(d, pop, rho, e, b, l);
    FullPairs.PairLoadIs(e, p, i, j);
    DistanceIs(e, i, j);
    FromImage(d, pop, p, val, e.gid[i], e.r[i], key);
  }

  lemma SlotsCouple(d: Domain, pop: Population, st: State, rho: Triple<int>, e: Store, p: Potential, val: int -> real,
                    a: int, k: int, b: int, l: int)
    requires Imaged(d, pop, st, rho, e, p, val) && Holds(e, a, k) && Holds(e, b, l)
    requires 0 <= Slot(a, k) < |e.r| == |e.gid| && 0 <= Slot(b, l) < |e.r|
    ensures Couple(p, Slot(a, k), Slot(b, l)) == CoupleIds(p, val, e.gid[Slot(a, k)], e.gid[Slot(b, l)])
  {
    hide Slot, Placed, FromRank, Square, Cut2, ValidStore, Holds, WideCells;
    if p.law.Embedding? {
      assert TaggedAt(e, p.law.dfEmbed, val, Slot(a, k)) && TaggedAt(e, p.law.dfEmbed, val, Slot(b, l));
    }
  }

  lemma DistanceIs(e: Store, i: int, j: int)
    requires 0 <= i < |e.r| && 0 <= j < |e.r|
    ensures R2(e, i, j) == Square(Difference(e.r[i], e.r[j]))
  {
  }

  lemma FromImage(d: Domain, pop: Population, p: Potential, val: int -> real, gid: int, r: Triple<real>, key: ImageKey)
    requires Good(p) && key.gid in pop
    ensures var dr := Difference(r, Position(d, pop, key));
            FromImages(d, pop, p, val, gid, r)(key) ==
            if !Beyond(p, Square(dr)) && Square(dr) > 0.0
            then Contribution(p, CoupleIds(p, val, gid, key.gid), dr, Square(dr))
            else NONE
  {
    hide Contribution, Beyond, Square;
  }

  // ----- the two sums are the same

  /** The images in the first n slots of cell b. */
  ghost function RowKeys(d: Domain, pop: Population, rho: Triple<int>, e: Store, b: int, n: nat): set<ImageKey> {
    set l | 0 <= l < n :: KeyAt(d, pop, rho, e, b, l)
  }

  /** The images in the first n cells. */
  ghost function HeldKeys(d: Domain, pop: Population, rho: Triple<int>, e: Store, n: nat): set<ImageKey>
    requires n <= |e.nAtoms|
  {
    set b, l | 0 <= b < n && 0 <= l < e.nAtoms[b] :: KeyAt(d, pop, rho, e, b, l)
  }

  lemma RowSumNext(d: Domain, pop: Population, st: State, rho: Triple<int>, e: Store, p: Potential, val: int -> real,
                   a: int, k: int, b: int, n: nat, f: ImageKey -> Load)
    requires Imaged(d, pop, st, rho, e, p, val) && ValidStore(e) && Good(p) && Holds(e, a, k) && Holds(e, b, n)
    requires 0 <= b < |e.nAtoms| && n < e.nAtoms[b] && 0 <= Slot(a, k) < |e.r| == |e.gid|
    requires f == FromImages(d, pop, p, val, e.gid[Slot(a, k)], e.r[Slot(a, k)])
    requires Sum(PairVals(e, p, Slot(a, k), b), n) == SetSum(RowKeys(d, pop, rho, e, b, n), f)
    ensures Sum(PairVals(e, p, Slot(a, k), b), n + 1) == SetSum(RowKeys(d, pop, rho, e, b, n + 1), f)
  {
    hide *;
    SumNext(PairVals(e, p, Slot(a, k), b), n);
    SlotIsImage(d, pop, st, rho, e, p, val, a, k, b, n);
    KeyIsNew(d, pop, st, rho, e, p, val, b, n);
    RowKeysNext(d, pop, rho, e, b, n);
    SetSumNext(RowKeys(d, pop, rho, e, b, n), f, KeyAt(d, pop, rho, e, b, n), RowKeys(d, pop, rho, e, b, n + 1));
  }

  lemma {:induction false} RowSum(d: Domain, pop: Population, st: State, rho: Triple<int>, e: Store, p: Potential,
                                  val: int -> real, a: int, k: int, b: int, n: nat, f: ImageKey -> Load)
    requires Imaged(d, pop, st, rho, e, p, val) && ValidStore(e) && Good(p) && Holds(e, a, k) && 0 <= b < |e.nAtoms|
    requires n <= e.nAtoms[b] && 0 <= Slot(a, k) < |e.r| == |e.gid|
    requires f == FromImages(d, pop, p, val, e.gid[Slot(a, k)], e.r[Slot(a, k)])
    ensures Sum(PairVals(e, p, Slot(a, k), b), n) == SetSum(RowKeys(d, pop, rho, e, b, n), f)
  {
    hide *;
    if n == 0 {
      RowKeysNone(d, pop, rho, e, b);
      SumNone(PairVals(e, p, Slot(a, k), b));
      SetSumEmpty(f);
    } else {
      RowSum(d, pop, st, rho, e, p, val, a, k, b, n - 1, f);
      HeldSlot(e, b, n - 1);
      RowSumNext(d, pop, st, rho, e, p, val, a, k, b, n - 1, f);
    }
  }

  lemma HeldSlot(e: Store, b: int, l: nat)
    requires 0 <= b < |e.nAtoms| && l < e.nAtoms[b]
    ensures Holds(e, b, l)
  {
  }

  lemma KeyIsNew(d: Domain, pop: Population, st: State, rho: Triple<int>, e: Store, p: Potential, val: int -> real,
                 b: int, n: nat)
    requires Imaged(d, pop, st, rho, e, p, val) && Holds(e, b, n)
    ensures KeyAt(d, pop, rho, e, b, n) !in RowKeys(d, pop, rho, e, b, n)
  {
    hide Imaged, KeyAt;
    if KeyAt(d, pop, rho, e, b, n) in RowKeys(d, pop, rho, e, b, n) {
      var l :| 0 <= l < n && KeyAt(d, pop, rho, e, b, l) == KeyAt(d, pop, rho, e, b, n);
      KeysOnce(d, pop, st, rho, e, p, val, b, l, b, n);
    }
  }

  lemma RowKeysNone(d: Domain, pop: Population, rho: Triple<int>, e: Store, b: int)
    ensures RowKeys(d, pop, rho, e, b, 0) == {}
  {
  }

  lemma HeldKeysNone(d: Domain, pop: Population, rho: Triple<int>, e: Store)
    ensures HeldKeys(d, pop, rho, e, 0) == {}
  {
  }

  lemma CellValsAre(e: Store, p: Potential, i: int, b: int)
    requires ValidStore(e) && Good(p) && 0 <= i < |e.r| && 0 <= b < |e.nAtoms|
    ensures CellVals(e, p, i)[b] == Sum(PairVals(e, p, i, b), e.nAtoms[b])
  {
    hide PairVals, ValidStore, Good;
  }

  lemma RowKeysNext(d: Domain, pop: Population, rho: Triple<int>, e: Store, b: int, n: nat)
    ensures RowKeys(d, pop, rho, e, b, n + 1) == RowKeys(d, pop, rho, e, b, n) + {KeyAt(d, pop, rho, e, b, n)}
  {
    hide KeyAt;
  }

  lemma HeldSumNext(d: Domain, pop: Population, st: State, rho: Triple<int>, e: Store, p: Potential, val: int -> real,
                    a: int, k: int, n: nat, f: ImageKey -> Load)
    requires Imaged(d, pop, st, rho, e, p, val) && ValidStore(e) && Good(p) && Holds(e, a, k) && n < |e.nAtoms|
    requires 0 <= Slot(a, k) < |e.r| == |e.gid|
    requires f == FromImages(d, pop, p, val, e.gid[Slot(a, k)], e.r[Slot(a, k)])
    requires Sum(CellVals(e, p, Slot(a, k)), n) == SetSum(HeldKeys(d, pop, rho, e, n), f)
    ensures Sum(CellVals(e, p, Slot(a, k)), n + 1) == SetSum(HeldKeys(d, pop, rho, e, n + 1), f)
  {
    hide *;
    SumNext(CellVals(e, p, Slot(a, k)), n);
    CellValsAre(e, p, Slot(a, k), n);
    RowSum(d, pop, st, rho, e, p, val, a, k, n, e.nAtoms[n], f);
    HeldKeysNext(d, pop, rho, e, n);
    RowIsNew(d, pop, st, rho, e, p, val, n);
    SetSumUnion(HeldKeys(d, pop, rho, e, n), RowKeys(d, pop, rho, e, n, e.nAtoms[n]), f);
  }

  lemma {:induction false} HeldSum(d: Domain, pop: Population, st: State, rho: Triple<int>, e: Store, p: Potential,
                                   val: int -> real, a: int, k: int, n: nat, f: ImageKey -> Load)
    requires Imaged(d, pop, st, rho, e, p, val) && ValidStore(e) && Good(p) && Holds(e, a, k) && n <= |e.nAtoms|
    requires 0 <= Slot(a, k) < |e.r| == |e.gid|
    requires f == FromImages(d, pop, p, val, e.gid[Slot(a, k)], e.r[Slot(a, k)])
    ensures Sum(CellVals(e, p, Slot(a, k)), n) == SetSum(HeldKeys(d, pop, rho, e, n), f)
  {
    hide *;
    if n == 0 {
      HeldKeysNone(d, pop, rho, e);
      SumNone(CellVals(e, p, Slot(a, k)));
      SetSumEmpty(f);
    } else {
      HeldSum(d, pop, st, rho, e, p, val, a, k, n - 1, f);
      HeldSumNext(d, pop, st, rho, e, p, val, a, k, n - 1, f);
    }
  }

  lemma HeldKeysNext(d: Domain, pop: Population, rho: Triple<int>, e: Store, n: nat)
    requires n < |e.nAtoms|
    ensures HeldKeys(d, pop, rho, e, n + 1) == HeldKeys(d, pop, rho, e, n) + RowKeys(d, pop, rho, e, n, e.nAtoms[n])
  {
    hide KeyAt;
  }

  lemma RowIsNew(d: Domain, pop: Population, st: State, rho: Triple<int>, e: Store, p: Potential, val: int -> real,
                 n: nat)
    requires Imaged(d, pop, st, rho, e, p, val) && n < |e.nAtoms|
    ensures HeldKeys(d, pop, rho, e, n) !! RowKeys(d, pop, rho, e, n, e.nAtoms[n])
  {
    hide Imaged, KeyAt;
    forall key | key in HeldKeys(d, pop, rho, e, n) && key in RowKeys(d, pop, rho, e, n, e.nAtoms[n])
      ensures false
    {
      var b, l :| 0 <= b < n && 0 <= l < e.nAtoms[b] && KeyAt(d, pop, rho, e, b, l) == key;
      var m :| 0 <= m < e.nAtoms[n] && KeyAt(d, pop, rho, e, n, m) == key;
      KeysOnce(d, pop, st, rho, e, p, val, b, l, n, m);
    }
  }

  /** Every image within the cutoff of a local atom is among those held. */
  lemma CloseIsHeld(d: Domain, pop: Population, st: State, rho: Triple<int>, e: Store, p: Potential, val: int -> real,
                    a: int, k: int, key: ImageKey)
    requires Imaged(d, pop, st, rho, e, p, val) && ValidGrid(e.g) && HalfPairs.LocalAtom(e, a, k)
    requires 0 <= Slot(a, k) < |e.r| && Close(d, pop, p, e.r[Slot(a, k)], key)
    ensures key in HeldKeys(d, pop, rho, e, |e.nAtoms|)
  {
    hide Slot, Square, Cut2, Placed, FromRank, Image, KeyAt, GetTuple, NLocalBoxes, HeldAt, ValidStore;
    var b, l := CloseImageHeld(d, pop, st, rho, e, p, a, k, key.gid, key.n);
    HeldMeans(e, b, l, key.gid, Position(d, pop, key));
    KeyHeld(d, pop, st, rho, e, p, val, b, l);
    SameImagePeriods(d, pop[key.gid].atom.r, KeyAt(d, pop, rho, e, b, l).n, key.n);
  }

  lemma HeldMeans(e: Store, b: int, l: int, gid: int, r: Triple<real>)
    requires HeldAt(e, b, l, gid, r)
    ensures Holds(e, b, l) && 0 <= b < |e.nAtoms| && 0 <= l < e.nAtoms[b]
    ensures 0 <= Slot(b, l) < |e.r| == |e.gid| && e.gid[Slot(b, l)] == gid && e.r[Slot(b, l)] == r
  {
  }

  lemma SameImagePeriods(d: Domain, r: Triple<real>, n: Triple<int>, m: Triple<int>)
    requires ValidDomain(d) && Image(d, r, n) == Image(d, r, m)
    ensures n == m
  {
    ExtentsPositive(d);
    SameShift(r.x, n.x, m.x, d.globalExtent.x);
    SameShift(r.y, n.y, m.y, d.globalExtent.y);
    SameShift(r.z, n.z, m.z, d.globalExtent.z);
  }

  lemma SameShift(r: real, n: int, m: int, extent: real)
    requires extent > 0.0 && Shifted(r, n, extent) == Shifted(r, m, extent)
    ensures n == m
  {
    assert (n - m) as real * extent == 0.0;
  }

  /** For a local atom the sum over the atoms of the rank is the sum over all periodic
      images within the cutoff. */
  lemma BruteForceIsImageSum(d: Domain, pop: Population, st: State, rho: Triple<int>, e: Store, p: Potential,
                             val: int -> real, a: int, k: int)
    requires Imaged(d, pop, st, rho, e, p, val) && ValidGrid(e.g) && HalfPairs.LocalAtom(e, a, k)
    ensures ValidStore(e) && Good(p) && PositiveExtents(d) && 0 <= Slot(a, k) < |e.r| == |e.gid|
    ensures BruteForce(e, p, Slot(a, k)) == ImageSum(d, pop, p, val, e.gid[Slot(a, k)], e.r[Slot(a, k)])
  {
    ImagedMeans(d, pop, st, rho, e, p, val);
    SlotInside(e, a, k);
    var i := Slot(a, k);
    var held, close := HeldKeys(d, pop, rho, e, |e.nAtoms|), CloseImages(d, pop, p, e.r[i]);
    var f := FromImages(d, pop, p, val, e.gid[i], e.r[i]);
    hide Imaged, ValidStore, Good, Slot, Sum, SetSum, KeyAt, HeldKeys, CloseImages, FromImages, CellVals, NLocalBoxes,
         NTotalBoxes, Close, PositiveExtents, Located;
    HeldSum(d, pop, st, rho, e, p, val, a, k, |e.nAtoms|, f);
    forall key
      ensures key in close ==> key in held
      ensures key in held - close ==> f(key) == NONE
    {
      CloseImagesAre(d, pop, p, e.r[i], key);
      if key in close {
        CloseIsHeld(d, pop, st, rho, e, p, val, a, k, key);
      } else {
        FarAddsNothing(d, pop, p, val, e.gid[i], e.r[i], key);
      }
    }
    SetSumWithin(held, close, f);
  }
}
