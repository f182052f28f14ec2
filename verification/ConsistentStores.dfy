/** What the pair kernels need of a rank's store holds on every rank of a consistent
    state, and sums over all ranks' local slots are sums over the atoms. */
module ConsistentStores {
  import opened Triples
  import opened LinkCellIndex
  import opened Decomposition
  import opened Atoms
  import opened Placement
  import opened Simulation
  import opened LoadSums
  import opened SetSums
  import opened PairLaws
  import opened PairForces
  import opened FullPairs
  import opened HalfPairs
  import opened PairImages
  import opened ImageSums

  /** The stores of all ranks of a consistent state. */
  ghost predicate World(d: Domain, atoms: AtomSet, st: State, es: seq<Store>) {
    && ValidDomain(d) && ValidState(d, st) && Consistent(d, atoms, st) && |es| == |st|
    && forall k :: 0 <= k < |es| ==> WorldAt(d, st, es[k], k)
  }

  ghost predicate WorldAt(d: Domain, st: State, e: Store, k: int) {
    ValidDomain(d) && ValidState(d, st) && 0 <= k < |st| && FromRank(d, st, ProcCoord(d, k), e)
  }

  /** No two atoms are at the same place. */
  predicate Separate(atoms: AtomSet) {
    forall g, h :: g in atoms && h in atoms && g != h ==> atoms[g].r != atoms[h].r
  }

  // ----- local atoms

  /** A local slot holds an atom of the rank, unshifted. */
  lemma LocalIsOwned(d: Domain, atoms: AtomSet, st: State, rho: Triple<int>, e: Store, a: int, k: int)
    requires ValidDomain(d) && ValidState(d, st) && Consistent(d, atoms, st) && FromRank(d, st, rho, e)
    requires ValidGrid(e.g) && LocalAtom(e, a, k)
    ensures 0 <= Slot(a, k) < |e.r| == |e.gid| && e.gid[Slot(a, k)] in atoms
    ensures e.r[Slot(a, k)] == atoms[e.gid[Slot(a, k)]].r && OwnerCoord(d, e.r[Slot(a, k)]) == rho
  {
    var t := SlotAtom(d, st, rho, e, a, k);
    LocalBoxRoundTrip(e.g, a);
    hide Slot, CellAt, Expected, GetBoxFromTuple, GetTuple, GlobalCell, OwnerCoord, HomeTuple, NLocalBoxes, NTotalBoxes;
    SlotExpected(d, WithOwners(d, atoms), st, rho, t, k);
    ExpectedAtHome(d, atoms, rho, t, CellAt(d, st, rho, t)[k]);
  }

  lemma InsideShift(r: real, n: int, extent: real)
    requires extent > 0.0 && 0.0 <= r < extent && 0.0 <= Shifted(r, n, extent) < extent
    ensures n == 0
  {
    Multiple(n, extent);
  }

  lemma Multiple(n: int, extent: real)
    requires extent > 0.0
    ensures n >= 1 ==> n as real * extent >= extent
    ensures n <= -1 ==> n as real * extent <= -extent
  {
    if n >= 1 {
      assert (n - 1) as real * extent >= 0.0;
    } else if n <= -1 {
      assert (-1 - n) as real * extent >= 0.0;
    }
  }

  /** An image inside the box is the atom itself. */
  lemma InsideImage(d: Domain, r: Triple<real>, n: Triple<int>)
    requires ValidDomain(d) && InsideDomain(d, r) && InsideDomain(d, Image(d, r, n))
    ensures Image(d, r, n) == r
  {
    ExtentsPositive(d);
    InsideShift(r.x, n.x, d.globalExtent.x);
    InsideShift(r.y, n.y, d.globalExtent.y);
    InsideShift(r.z, n.z, d.globalExtent.z);
  }

  lemma ApartPositive(a: Triple<real>, b: Triple<real>)
    requires a != b
    ensures Square(Difference(a, b)) > 0.0
  {
    var v := Difference(a, b);
    SquareIs(v);
    SquareNonnegative(v.x);
    SquareNonnegative(v.y);
    SquareNonnegative(v.z);
    NonzeroSquare(v.x);
    NonzeroSquare(v.y);
    NonzeroSquare(v.z);
    hide Square, Times;
  }

  lemma NonzeroSquare(x: real)
    ensures x != 0.0 ==> Times(x, x) > 0.0
  {
    EvenProduct(x);
    assert Times(x, x) == Times(-x, -x);
    hide Times;
    if x > 0.0 {
      TimesPositive(x, x);
    } else if x < 0.0 {
      TimesPositive(-x, -x);
    }
  }

  // ----- what the kernels require

  /** Nothing that a rank holds is at the place of another local atom. */
  lemma LocalApart(d: Domain, atoms: AtomSet, st: State, rho: Triple<int>, e: Store, p: Potential, val: int -> real,
                   a: int, k: int, b: int, l: int)
    requires ValidDomain(d) && Consistent(d, atoms, st) && Separate(atoms)
    requires Imaged(d, WithOwners(d, atoms), st, rho, e, p, val)
    requires ValidGrid(e.g) && LocalAtom(e, a, k) && Holds(e, b, l)
    ensures NotTogether(e, a, k, b, l)
  {
    var pop := WithOwners(d, atoms);
    LocalIsOwned(d, atoms, st, rho, e, a, k);
    KeyHeld(d, pop, st, rho, e, p, val, b, l);
    var i, j, key := Slot(a, k), Slot(b, l), KeyAt(d, pop, rho, e, b, l);
    var g, h := e.gid[i], e.gid[j];
    hide Imaged, Slot, KeyAt, OwnerCoord, Image, Square, NLocalBoxes, GlobalCell;
    if e.r[i] == e.r[j] {
      InsideImage(d, atoms[h].r, key.n);
      assert g == h;
      HeldHere(e, a, k, g, e.r[i]);
      HeldHere(e, b, l, g, e.r[i]);
      ImagedHeldOnce(d, pop, st, rho, e, p, val, g, e.r[i], a, k, b, l);
    } else {
      ApartPositive(e.r[i], e.r[j]);
    }
  }

  lemma HeldHere(e: Store, b: int, l: int, gid: int, r: Triple<real>)
    requires Holds(e, b, l) && 0 <= Slot(b, l) < |e.r| == |e.gid| && e.gid[Slot(b, l)] == gid && e.r[Slot(b, l)] == r
    ensures HeldAt(e, b, l, gid, r)
  {
  }

  lemma ImagedHeldOnce(d: Domain, pop: Population, st: State, rho: Triple<int>, e: Store, p: Potential,
                       val: int -> real, gid: int, r: Triple<real>, b: int, l: int, c: int, m: int)
    requires Imaged(d, pop, st, rho, e, p, val) && HeldAt(e, b, l, gid, r) && HeldAt(e, c, m, gid, r)
    ensures b == c && l == m
  {
    hide Placed, FromRank, HeldAt;
    ImageHeldOnce(d, pop, st, rho, e, gid, r, b, l, c, m);
  }

  /** After every redistribution, the stores are as both kernels need them. */
  lemma KernelsReady(d: Domain, atoms: AtomSet, st: State, rho: Triple<int>, e: Store, p: Potential, val: int -> real)
    requires ValidDomain(d) && Consistent(d, atoms, st) && Separate(atoms)
    requires Imaged(d, WithOwners(d, atoms), st, rho, e, p, val)
    ensures Located(d, rho, e, p) && Sound(e, p)
  {
    ImagedMeans(d, WithOwners(d, atoms), st, rho, e, p, val);
    hide Located, Slot, Consistent, Separate, Good, ValidStore, NLocalBoxes, Ordered, NotTogether, DifferentIds;
    forall a, k, b, l | LocalAtom(e, a, k) && LocalAtom(e, b, l)
      ensures Ordered(e, p, a, k, b, l)
    {
      if p.law.LennardJones? {
        LocalIdsDiffer(d, atoms, st, rho, e, a, k, b, l);
      }
      OrderedBy(e, p, a, k, b, l);
    }
    forall a, k, b, l | LocalAtom(e, a, k) && Holds(e, b, l)
      ensures NotTogether(e, a, k, b, l)
    {
      LocalApart(d, atoms, st, rho, e, p, val, a, k, b, l);
    }
  }

  /** Any rank of a world. */
  lemma WorldImaged(d: Domain, atoms: AtomSet, st: State, es: seq<Store>, k: nat, p: Potential, val: int -> real)
    requires World(d, atoms, st, es) && k < |es| && WideCells(d, p) && Tagged(es[k], p, val)
    ensures Imaged(d, WithOwners(d, atoms), st, ProcCoord(d, k), es[k], p, val)
  {
    hide FromRank, Placed, Tagged, WideCells, ProcCoord;
    assert WorldAt(d, st, es[k], k);
  }

  // ----- sums over the local slots of all ranks

  /** Every local slot in use has the load that belongs to its atom's id. */
  ghost predicate LoadsOf(e: Store, loads: seq<Load>, f: int -> Load) {
    && ValidStore(e) && |loads| == |e.r|
    && forall x :: 0 <= x < LocalSlots(e) && x < |loads| ==> LoadAt(e, loads, f, x)
  }

  ghost predicate LoadAt(e: Store, loads: seq<Load>, f: int -> Load, x: int)
    requires |loads| == |e.r| == |e.gid| && 0 <= x < |loads|
  {
    loads[x] == if InUse(e, x) then f(e.gid[x]) else NONE
  }

  /** The ids in the first n slots. */
  ghost function SlotIds(e: Store, n: nat): set<int>
    requires n <= |e.gid|
  {
    set x | 0 <= x < n && InUse(e, x) :: e.gid[x]
  }

  lemma SlotIdsNone(e: Store)
    ensures SlotIds(e, 0) == {}
  {
  }

  lemma SlotIdsNext(e: Store, n: nat)
    requires n < |e.gid|
    ensures SlotIds(e, n + 1) == if InUse(e, n) then SlotIds(e, n) + {e.gid[n]} else SlotIds(e, n)
  {
    hide InUse;
  }

  ghost predicate IdsDiffer(e: Store) {
    forall x, y :: 0 <= x < y < LocalSlots(e) && y < |e.gid| && InUse(e, x) && InUse(e, y) ==> e.gid[x] != e.gid[y]
  }

  lemma RankIdsDiffer(d: Domain, atoms: AtomSet, st: State, rho: Triple<int>, e: Store)
    requires ValidDomain(d) && ValidState(d, st) && Consistent(d, atoms, st) && FromRank(d, st, rho, e)
    ensures IdsDiffer(e)
  {
    hide Consistent, Slot, NLocalBoxes, NTotalBoxes, Holds, CellAt;
    forall x, y | 0 <= x < y < LocalSlots(e) && y < |e.gid| && InUse(e, x) && InUse(e, y)
      ensures e.gid[x] != e.gid[y]
    {
      var a, k := LocalSlotOf(e, x);
      var b, l := LocalSlotOf(e, y);
      LocalIdsDiffer(d, atoms, st, rho, e, a, k, b, l);
    }
  }

  lemma LocalSlotOf(e: Store, x: int) returns (a: int, k: int)
    requires ValidStore(e) && InUse(e, x) && x < LocalSlots(e)
    ensures ValidGrid(e.g) && LocalAtom(e, a, k) && x == Slot(a, k) && 0 <= x < |e.r| == |e.gid|
  {
    hide NLocalBoxes, NTotalBoxes;
    a, k :| Holds(e, a, k) && x == Slot(a, k);
    SlotInside(e, a, k);
  }

  lemma EnergyNone(loads: seq<Load>)
    ensures Energy(loads, 0) == 0.0
  {
  }

  lemma EnergyNext(loads: seq<Load>, n: nat)
    requires n < |loads|
    ensures Energy(loads, n + 1) == Energy(loads, n) + loads[n].u
  {
  }

  lemma PlusEnergy(a: Load, b: Load)
    ensures Plus(a, b).u == a.u + b.u && NONE.u == 0.0
  {
  }

  /** The energy of a rank is the sum over the ids it has in local slots. */
  lemma {:induction false} RankEnergy(e: Store, loads: seq<Load>, f: int -> Load, n: nat)
    requires LoadsOf(e, loads, f) && IdsDiffer(e) && n <= LocalSlots(e) && n <= |e.r| == |e.gid| == |loads|
    ensures Energy(loads, n) == SetSum(SlotIds(e, n), f).u
  {
    hide Energy, SetSum, InUse, ValidStore, LocalSlots, Plus, SlotIds;
    EnergyNone(loads);
    SlotIdsNone(e);
    SetSumEmpty(f);
    PlusEnergy(NONE, NONE);
    if n > 0 {
      RankEnergy(e, loads, f, n - 1);
      EnergyNext(loads, n - 1);
      SlotIdsNext(e, n - 1);
      assert LoadAt(e, loads, f, n - 1);
      if InUse(e, n - 1) {
        IdIsNew(e, n - 1);
        SetSumNext(SlotIds(e, n - 1), f, e.gid[n - 1], SlotIds(e, n));
        PlusEnergy(SetSum(SlotIds(e, n - 1), f), f(e.gid[n - 1]));
      }
    }
  }

  lemma IdIsNew(e: Store, n: nat)
    requires IdsDiffer(e) && n < LocalSlots(e) && n < |e.gid| && InUse(e, n)
    ensures e.gid[n] !in SlotIds(e, n)
  {
    hide InUse, LocalSlots;
  }

  /** The ids in the local slots of the first n ranks. */
  ghost function RankIds(es: seq<Store>, n: nat): set<int>
    requires n <= |es|
  {
    set k, x | 0 <= k < n && 0 <= x < LocalSlots(es[k]) && x < |es[k].gid| && InUse(es[k], x) :: es[k].gid[x]
  }

  ghost function LocalIds(e: Store): set<int> {
    set x | 0 <= x < LocalSlots(e) && x < |e.gid| && InUse(e, x) :: e.gid[x]
  }

  lemma RankIdsNext(es: seq<Store>, n: nat)
    requires n < |es|
    ensures RankIds(es, 0) == {}
    ensures RankIds(es, n + 1) == RankIds(es, n) + LocalIds(es[n])
  {
    hide InUse, LocalSlots;
  }

  lemma OwnerHasId(d: Domain, atoms: AtomSet, st: State, es: seq<Store>, k: nat, gid: int)
    requires World(d, atoms, st, es) && k < |es| && gid in LocalIds(es[k])
    ensures gid in atoms && OwnerCoord(d, atoms[gid].r) == ProcCoord(d, k)
  {
    assert WorldAt(d, st, es[k], k);
    var e := es[k];
    hide Consistent, Slot, NLocalBoxes, NTotalBoxes, Holds, CellAt, OwnerCoord, ProcCoord, InUse;
    var x :| 0 <= x < LocalSlots(e) && x < |e.gid| && InUse(e, x) && e.gid[x] == gid;
    var a, l := LocalSlotOf(e, x);
    LocalIsOwned(d, atoms, st, ProcCoord(d, k), e, a, l);
  }

  /** Different ranks have different atoms. */
  lemma NewRank(d: Domain, atoms: AtomSet, st: State, es: seq<Store>, n: nat)
    requires World(d, atoms, st, es) && n < |es|
    ensures RankIds(es, n) !! LocalIds(es[n])
  {
    hide InUse, LocalSlots, OwnerCoord, ProcCoord, World;
    WorldSize(d, atoms, st, es);
    forall gid | gid in RankIds(es, n) && gid in LocalIds(es[n])
      ensures false
    {
      var k :| 0 <= k < n && gid in LocalIds(es[k]);
      OwnerHasId(d, atoms, st, es, k, gid);
      OwnerHasId(d, atoms, st, es, n, gid);
      CoordRoundTrip(d, k);
      CoordRoundTrip(d, n);
    }
  }

  lemma WorldSize(d: Domain, atoms: AtomSet, st: State, es: seq<Store>)
    requires World(d, atoms, st, es)
    ensures ValidDomain(d) && PositiveGrid(d) && |es| == |st| == NRanks(d) && ValidState(d, st)
  {
  }

  /** The owner of an atom has it in a local slot. */
  lemma IdHasRank(d: Domain, atoms: AtomSet, st: State, es: seq<Store>, gid: int)
    requires World(d, atoms, st, es) && gid in atoms
    ensures exists k :: 0 <= k < |es| && gid in LocalIds(es[k])
  {
    WorldSize(d, atoms, st, es);
    var o, home := OwnerCoord(d, atoms[gid].r), HomeTuple(d, atoms[gid].r);
    HomeInRange(d, atoms[gid].r);
    var i := OneLocalCopy(d, atoms, st, gid);
    RankRoundTrip(d, o);
    var k := RankOf(d, o);
    assert WorldAt(d, st, es[k], k);
    GridIsValid(d);
    TupleRoundTrip(d.gridSize, home);
    hide World, Consistent, CellAt, OwnerCoord, HomeTuple, GetBoxFromTuple, GetTuple, NLocalBoxes, NTotalBoxes, RankOf,
         NRanks, ProcCoord;
    LocalHome(d, st, o, es[k], home, i, gid);
  }

  lemma LocalHome(d: Domain, st: State, rho: Triple<int>, e: Store, t: Triple<int>, i: nat, gid: int)
    requires ValidDomain(d) && ValidState(d, st) && FromRank(d, st, rho, e)
    requires ValidTuple(e.g, t) && i < |CellAt(d, st, rho, t)| && CellAt(d, st, rho, t)[i].gid == gid
    requires 0 <= GetBoxFromTuple(e.g, t) < NLocalBoxes(e.g)
    ensures gid in LocalIds(e)
  {
    var b := GetBoxFromTuple(e.g, t);
    hide CellAt, GetBoxFromTuple, NLocalBoxes, NTotalBoxes, GetTuple;
    assert SameCell(e, b, CellAt(d, st, rho, t));
    assert SameSlot(e, Slot(b, i), CellAt(d, st, rho, t)[i]);
    SlotInside(e, b, i);
    assert InUse(e, Slot(b, i));
  }

  lemma AllIds(d: Domain, atoms: AtomSet, st: State, es: seq<Store>)
    requires World(d, atoms, st, es)
    ensures RankIds(es, |es|) == atoms.Keys
  {
    hide InUse, LocalSlots, OwnerCoord, ProcCoord, World;
    forall gid
      ensures gid in RankIds(es, |es|) <==> gid in atoms
    {
      if gid in RankIds(es, |es|) {
        var k :| 0 <= k < |es| && gid in LocalIds(es[k]);
        OwnerHasId(d, atoms, st, es, k, gid);
      }
      if gid in atoms {
        IdHasRank(d, atoms, st, es, gid);
      }
    }
  }

  /** The energy of the local slots of one rank. */
  ghost function OwnEnergy(e: Store, loads: seq<Load>): real {
    if 0 <= LocalSlots(e) <= |loads| then Energy(loads, LocalSlots(e)) else 0.0
  }

  lemma OneRankEnergy(d: Domain, atoms: AtomSet, st: State, es: seq<Store>, loads: seq<Load>, f: int -> Load, k: nat)
    requires World(d, atoms, st, es) && k < |es| && LoadsOf(es[k], loads, f)
    ensures OwnEnergy(es[k], loads) == SetSum(LocalIds(es[k]), f).u
  {
    assert WorldAt(d, st, es[k], k);
    var e := es[k];
    hide Consistent, SetSum, InUse, NTotalBoxes, NLocalBoxes, Energy, ProcCoord, LoadAt;
    LocalSlotsInside(e);
    RankIdsDiffer(d, atoms, st, ProcCoord(d, k), e);
    RankEnergy(e, loads, f, LocalSlots(e));
    assert SlotIds(e, LocalSlots(e)) == LocalIds(e);
  }

  /** With the energy of one more rank, the sum over the ids of the ranks so far goes on
      to those of one more: no atom is counted twice. */
  lemma NextRankEnergy(d: Domain, atoms: AtomSet, st: State, es: seq<Store>, loads: seq<Load>, f: int -> Load, n: nat)
    requires World(d, atoms, st, es) && n < |es| && LoadsOf(es[n], loads, f)
    ensures SetSum(RankIds(es, n + 1), f).u == SetSum(RankIds(es, n), f).u + OwnEnergy(es[n], loads)
  {
    hide World, LoadsOf, SetSum, Plus, RankIds, OwnEnergy;
    OneRankEnergy(d, atoms, st, es, loads, f, n);
    RankIdsNext(es, n);
    NewRank(d, atoms, st, es, n);
    SetSumUnion(RankIds(es, n), LocalIds(es[n]), f);
    PlusEnergy(SetSum(RankIds(es, n), f), SetSum(LocalIds(es[n]), f));
  }

  lemma NoRankEnergy(es: seq<Store>, f: int -> Load)
    ensures SetSum(RankIds(es, 0), f).u == 0.0
  {
    hide SetSum;
    SetSumEmpty(f);
    assert RankIds(es, 0) == {};
  }
}
