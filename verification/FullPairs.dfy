/** A pass over full pairs: every local atom looks at all atoms of the neighbouring cells
    and adds what it gets from them to its own load only.  What it adds is the sum over
    all atoms that the rank holds. */
module FullPairs {
  import opened Triples
  import opened LinkCellIndex
  import opened Decomposition
  import opened LoadSums
  import opened PairForces
  import opened PairLaws

  function LocalSlots(e: Store): int {
    NLocalBoxes(e.g) * SLOTS
  }

  lemma LocalSlotsInside(e: Store)
    requires ValidStore(e)
    ensures 0 <= NLocalBoxes(e.g) <= |e.nAtoms| && 0 <= LocalSlots(e) <= |e.r|
  {
    TupleRoundTrip(e.g, Triple(0, 0, 0));
    TupleRoundTrip(e.g, Triple(-1, 0, 0));
  }

  /** The slot holds an atom. */
  ghost predicate InUse(e: Store, x: int) {
    exists b, k :: Holds(e, b, k) && x == Slot(b, k)
  }

  /** Every local atom has got the sum over all atoms of the rank, and slots without an
      atom are as they were. */
  ghost predicate Added(e: Store, p: Potential, start: seq<Load>, now: seq<Load>) {
    && ValidStore(e) && Good(p) && |start| == |now| == |e.r|
    && (forall a, k :: Holds(e, a, k) && a < NLocalBoxes(e.g) ==>
          0 <= Slot(a, k) < |now| && now[Slot(a, k)] == Plus(start[Slot(a, k)], BruteForce(e, p, Slot(a, k))))
    && forall x :: 0 <= x < |now| && !InUse(e, x) ==> now[x] == start[x]
  }

  /** The sum for the atom in slot x, if there is one. */
  ghost function SlotSum(e: Store, p: Potential, x: int): Load
    requires ValidStore(e) && Good(p) && 0 <= x < |e.r|
  {
    if InUse(e, x) then BruteForce(e, p, x) else NONE
  }

  lemma AddedLocal(e: Store, p: Potential, start: seq<Load>, now: seq<Load>, x: int)
    requires Added(e, p, start, now) && 0 <= x < LocalSlots(e)
    ensures x < |start| == |now| == |e.r| && now[x] == Plus(start[x], SlotSum(e, p, x))
  {
    LocalSlotsInside(e);
    hide BruteForce, Slot, NLocalBoxes, Plus, GoodLaw;
    if InUse(e, x) {
      var b, k :| Holds(e, b, k) && x == Slot(b, k);
      SlotInside(e, b, k);
    } else {
      PlusLaws(start[x], NONE, NONE);
    }
  }

  /** Any two passes that add the sums leave every local atom with the same load. */
  lemma PassesAgree(e: Store, p: Potential, start: seq<Load>, one: seq<Load>, two: seq<Load>)
    requires Added(e, p, start, one) && Added(e, p, start, two)
    ensures 0 <= LocalSlots(e) <= |one| == |two| && one[..LocalSlots(e)] == two[..LocalSlots(e)]
  {
    LocalSlotsInside(e);
    hide *;
    AddedSizes(e, p, start, one);
    AddedSizes(e, p, start, two);
    forall x | 0 <= x < LocalSlots(e)
      ensures one[x] == two[x]
    {
      AddedLocal(e, p, start, one, x);
      AddedLocal(e, p, start, two, x);
    }
  }

  lemma AddedSizes(e: Store, p: Potential, start: seq<Load>, now: seq<Load>)
    requires Added(e, p, start, now)
    ensures ValidStore(e) && Good(p) && |start| == |now| == |e.r|
  {
  }

  // ----- full pairs

  /** Slot i of cell b: the loop over the atoms of one neighbouring cell. */
  method FullRow(e: Store, p: Potential, i: int, b: int, load: array<Load>, energy: real) returns (ePot: real)
    requires ValidStore(e) && Good(p) && load.Length == |e.r|
    requires 0 <= i < LocalSlots(e) <= |e.r| && 0 <= b < |e.nAtoms| && energy == Energy(load[..], LocalSlots(e))
    modifies load
    ensures load[..] == old(load[..])[i := Plus(old(load[i]), CellLoad(e, p, i, b))]
    ensures ePot == Energy(load[..], LocalSlots(e))
  {
    ghost var vals := PairVals(e, p, i, b);
    ghost var was := load[..];
    hide ValidStore, Sum, Energy, Plus, PairLoad, LocalSlots, NLocalBoxes, Contribution, R2;
    ePot := energy;
    SumNone(vals);
    PlusLaws(was[i], NONE, NONE);
    assert was[i := was[i]] == was;
    for l := 0 to e.nAtoms[b]
      invariant load[..] == was[i := Plus(was[i], Sum(vals, l))]
      invariant ePot == Energy(load[..], LocalSlots(e))
    {
      assert Holds(e, b, l) && vals[l] == PairLoad(e, p, i, Slot(b, l));
      var j := Slot(b, l);
      var r2 := R2(e, i, j);
      ghost var now := load[..];
      SumNext(vals, l);
      PlusLaws(was[i], Sum(vals, l), vals[l]);
      EnergyAdd(now, i, vals[l], LocalSlots(e));
      PairLoadIs(e, p, i, j);
      if !Beyond(p, r2) && r2 > 0.0 {
        var c := Contribution(p, Couple(p, i, j), Difference(e.r[i], e.r[j]), r2);
        load[i] := Plus(load[i], c);
        ePot := ePot + c.u;
      } else {
        PlusLaws(Plus(was[i], Sum(vals, l)), NONE, NONE);
        PlusLaws(now[i], NONE, NONE);
        assert now[i := now[i]] == now;
      }
    }
  }

  lemma PairLoadIs(e: Store, p: Potential, i: int, j: int)
    requires Good(p) && 0 <= i < |e.r| && 0 <= j < |e.r|
    ensures !Beyond(p, R2(e, i, j)) && R2(e, i, j) > 0.0 ==>
              PairLoad(e, p, i, j) == Contribution(p, Couple(p, i, j), Difference(e.r[i], e.r[j]), R2(e, i, j))
    ensures !(!Beyond(p, R2(e, i, j)) && R2(e, i, j) > 0.0) ==> PairLoad(e, p, i, j) == NONE
  {
    hide R2, Contribution;
  }

  /** x is one of the first n slots of cell a. */
  predicate Among(a: int, n: int, x: int) {
    Slot(a, 0) <= x < Slot(a, n)
  }

  lemma AmongSlots(e: Store, a: int, n: int, x: int)
    requires ValidStore(e) && 0 <= a < |e.nAtoms| && 0 <= n <= e.nAtoms[a]
    ensures Among(a, n, x) ==> 0 <= x < |e.r| && Holds(e, a, x - Slot(a, 0)) && x == Slot(a, x - Slot(a, 0))
    ensures Among(a, n, x) ==> (x < LocalSlots(e) <==> a < NLocalBoxes(e.g))
    ensures n < e.nAtoms[a] ==> (Among(a, n + 1, x) <==> Among(a, n, x) || x == Slot(a, n)) && Holds(e, a, n)
    ensures n < e.nAtoms[a] ==> !Among(a, n, Slot(a, n)) && 0 <= Slot(a, n) < |e.r|
    ensures !Among(a, 0, x)
  {
  }

  lemma CellsApartInSlots(e: Store, a: int, b: int, x: int)
    requires ValidStore(e) && 0 <= a < |e.nAtoms| && 0 <= b < |e.nAtoms|
    requires Among(a, e.nAtoms[a], x) && Among(b, e.nAtoms[b], x)
    ensures a == b
  {
  }

  /** What the first n atoms of cell a have got from cell b. */
  ghost predicate CellDone(e: Store, p: Potential, a: int, b: int, n: int, was: seq<Load>, now: seq<Load>)
    requires ValidStore(e) && Good(p) && 0 <= a < |e.nAtoms| && 0 <= b < |e.nAtoms|
  {
    && |now| == |was| == |e.r|
    && forall x :: 0 <= x < |now| ==> now[x] == if Among(a, n, x) then Plus(was[x], CellLoad(e, p, x, b)) else was[x]
  }

  lemma CellStep(e: Store, p: Potential, a: int, b: int, n: int, was: seq<Load>, mid: seq<Load>, now: seq<Load>)
    requires ValidStore(e) && Good(p) && 0 <= a < |e.nAtoms| && 0 <= b < |e.nAtoms| && 0 <= n < e.nAtoms[a]
    requires CellDone(e, p, a, b, n, was, mid) && 0 <= Slot(a, n) < |mid|
    requires now == mid[Slot(a, n) := Plus(mid[Slot(a, n)], CellLoad(e, p, Slot(a, n), b))]
    ensures CellDone(e, p, a, b, n + 1, was, now)
  {
    hide ValidStore, Plus, CellLoad, Among, Slot;
    forall x | 0 <= x < |now|
      ensures now[x] == if Among(a, n + 1, x) then Plus(was[x], CellLoad(e, p, x, b)) else was[x]
    {
      AmongSlots(e, a, n, x);
    }
  }

  /** One neighbouring cell, for all atoms of cell a. */
  method FullCell(e: Store, p: Potential, a: int, b: int, load: array<Load>, energy: real) returns (ePot: real)
    requires ValidStore(e) && Good(p) && load.Length == |e.r|
    requires 0 <= a < NLocalBoxes(e.g) <= |e.nAtoms| && 0 <= b < |e.nAtoms|
    requires 0 <= LocalSlots(e) <= |e.r| && energy == Energy(load[..], LocalSlots(e))
    modifies load
    ensures CellDone(e, p, a, b, e.nAtoms[a], old(load[..]), load[..])
    ensures ePot == Energy(load[..], LocalSlots(e))
  {
    ghost var was := load[..];
    ePot := energy;
    StartCell(e, p, a, b, was);
    hide ValidStore, Energy, Plus, CellLoad, LocalSlots, NLocalBoxes, Slot, CellDone;
    for n := 0 to e.nAtoms[a]
      invariant CellDone(e, p, a, b, n, was, load[..]) && ePot == Energy(load[..], LocalSlots(e))
    {
      AmongSlots(e, a, n, Slot(a, n));
      LocalSlot(e, a, n);
      ghost var mid := load[..];
      ePot := FullRow(e, p, Slot(a, n), b, load, ePot);
      CellStep(e, p, a, b, n, was, mid, load[..]);
    }
  }

  lemma LocalSlot(e: Store, a: int, n: int)
    requires ValidStore(e) && 0 <= a < NLocalBoxes(e.g) && Holds(e, a, n)
    ensures 0 <= Slot(a, n) < LocalSlots(e)
  {
  }

  lemma StartCell(e: Store, p: Potential, a: int, b: int, was: seq<Load>)
    requires ValidStore(e) && Good(p) && 0 <= a < |e.nAtoms| && 0 <= b < |e.nAtoms| && |was| == |e.r|
    ensures CellDone(e, p, a, b, 0, was, was)
  {
  }

  /** The list of a cell's neighbours, all inside the rank. */
  ghost predicate IsList(e: Store, list: seq<int>) {
    && (forall q :: 0 <= q < |list| ==> 0 <= list[q] < |e.nAtoms|)
    && forall p, q :: 0 <= p < q < |list| ==> list[p] != list[q]
  }

  /** What the atoms of cell a have got from the first j listed cells. */
  ghost predicate ListDone(e: Store, p: Potential, a: int, list: seq<int>, j: int, was: seq<Load>, now: seq<Load>)
    requires ValidStore(e) && Good(p) && 0 <= a < |e.nAtoms| && IsList(e, list) && 0 <= j <= |list|
  {
    && |now| == |was| == |e.r|
    && forall x :: 0 <= x < |now| ==>
         now[x] == if Among(a, e.nAtoms[a], x) then Plus(was[x], Listed(CellVals(e, p, x), list, j)) else was[x]
  }

  lemma ListStep(e: Store, p: Potential, a: int, list: seq<int>, j: int, was: seq<Load>, mid: seq<Load>, now: seq<Load>)
    requires ValidStore(e) && Good(p) && 0 <= a < |e.nAtoms| && IsList(e, list) && 0 <= j < |list|
    requires ListDone(e, p, a, list, j, was, mid) && CellDone(e, p, a, list[j], e.nAtoms[a], mid, now)
    ensures ListDone(e, p, a, list, j + 1, was, now)
  {
    hide ValidStore, Plus, CellLoad, Among, Listed;
    forall x | 0 <= x < |now|
      ensures now[x] ==
              if Among(a, e.nAtoms[a], x) then Plus(was[x], Listed(CellVals(e, p, x), list, j + 1)) else was[x]
    {
      var vals := CellVals(e, p, x);
      ListedNext(vals, list, j);
      PlusLaws(was[x], Listed(vals, list, j), vals[list[j]]);
    }
  }

  lemma StartList(e: Store, p: Potential, a: int, list: seq<int>, was: seq<Load>)
    requires ValidStore(e) && Good(p) && 0 <= a < |e.nAtoms| && IsList(e, list) && |was| == |e.r|
    ensures ListDone(e, p, a, list, 0, was, was)
  {
    hide ValidStore, Plus, CellLoad, Among, Listed;
    forall x | 0 <= x < |was|
      ensures Plus(was[x], Listed(CellVals(e, p, x), list, 0)) == was[x]
    {
      ListedNone(CellVals(e, p, x), list);
      PlusLaws(was[x], NONE, NONE);
    }
  }

  /** The loop over the neighbours of cell a. */
  method FullBox(e: Store, p: Potential, a: int, list: seq<int>, load: array<Load>, energy: real) returns (ePot: real)
    requires ValidStore(e) && Good(p) && load.Length == |e.r| && IsList(e, list)
    requires 0 <= a < NLocalBoxes(e.g) <= |e.nAtoms|
    requires 0 <= LocalSlots(e) <= |e.r| && energy == Energy(load[..], LocalSlots(e))
    modifies load
    ensures ListDone(e, p, a, list, |list|, old(load[..]), load[..])
    ensures ePot == Energy(load[..], LocalSlots(e))
  {
    ghost var was := load[..];
    StartList(e, p, a, list, was);
    hide ValidStore, Energy, LocalSlots, NLocalBoxes, CellDone, ListDone;
    ePot := energy;
    for j := 0 to |list|
      invariant ListDone(e, p, a, list, j, was, load[..]) && ePot == Energy(load[..], LocalSlots(e))
    {
      ghost var mid := load[..];
      ePot := FullCell(e, p, a, list[j], load, ePot);
      ListStep(e, p, a, list, j, was, mid, load[..]);
    }
  }

  /** The atoms of the first n cells have got their sums, all other slots are as they
      were. */
  ghost predicate BoxesDone(e: Store, p: Potential, n: int, start: seq<Load>, now: seq<Load>)
    requires ValidStore(e) && Good(p)
  {
    && |start| == |now| == |e.r|
    && forall x :: 0 <= x < |now| ==>
         now[x] == if AmongCells(e, n, x) then Plus(start[x], BruteForce(e, p, x)) else start[x]
  }

  /** x is the slot of an atom in one of the first n cells. */
  ghost predicate AmongCells(e: Store, n: int, x: int)
    requires ValidStore(e)
  {
    exists a :: 0 <= a < n && a < |e.nAtoms| && Among(a, e.nAtoms[a], x)
  }

  lemma AmongCellsNext(e: Store, n: int, x: int)
    requires ValidStore(e) && 0 <= n < |e.nAtoms|
    ensures AmongCells(e, n + 1, x) <==> AmongCells(e, n, x) || Among(n, e.nAtoms[n], x)
    ensures Among(n, e.nAtoms[n], x) ==> !AmongCells(e, n, x)
  {
    hide ValidStore, Among;
    if AmongCells(e, n, x) {
      var a :| 0 <= a < n && a < |e.nAtoms| && Among(a, e.nAtoms[a], x);
      assert 0 <= a < n + 1 && a < |e.nAtoms| && Among(a, e.nAtoms[a], x);
      if Among(n, e.nAtoms[n], x) {
        CellsApartInSlots(e, a, n, x);
      }
    }
    if Among(n, e.nAtoms[n], x) {
      assert 0 <= n < n + 1 && n < |e.nAtoms| && Among(n, e.nAtoms[n], x);
    }
  }

  lemma BoxStep(d: Domain, rho: Triple<int>, e: Store, p: Potential, n: int, list: seq<int>,
                start: seq<Load>, mid: seq<Load>, now: seq<Load>)
    requires Located(d, rho, e, p) && ValidStore(e) && Good(p) && 0 <= n < NLocalBoxes(e.g) && n < |e.nAtoms|
    requires list == NeighborBoxes(e.g, n) && IsList(e, list) && |list| == 27
    requires BoxesDone(e, p, n, start, mid) && ListDone(e, p, n, list, 27, mid, now)
    ensures BoxesDone(e, p, n + 1, start, now)
  {
    hide ValidStore, Plus, CellLoad, Among, Listed, AmongCells, Located, NeighborBoxes, NLocalBoxes, BruteForce,
         Slot, GoodLaw;
    forall x | 0 <= x < |now|
      ensures now[x] == if AmongCells(e, n + 1, x) then Plus(start[x], BruteForce(e, p, x)) else start[x]
    {
      AmongCellsNext(e, n, x);
      if Among(n, e.nAtoms[n], x) {
        AmongSlots(e, n, e.nAtoms[n], x);
        NeighborsSuffice(d, rho, e, p, n, x - Slot(n, 0));
      }
    }
  }

  lemma NoBoxes(e: Store, p: Potential, start: seq<Load>)
    requires ValidStore(e) && Good(p) && |start| == |e.r|
    ensures BoxesDone(e, p, 0, start, start)
  {
  }

  lemma AllBoxes(e: Store, p: Potential, start: seq<Load>, now: seq<Load>)
    requires ValidStore(e) && Good(p) && BoxesDone(e, p, NLocalBoxes(e.g), start, now)
    ensures Added(e, p, start, now)
  {
    LocalSlotsInside(e);
    hide NLocalBoxes, BruteForce, NTotalBoxes, Plus, GoodLaw;
    forall a, k | Holds(e, a, k) && a < NLocalBoxes(e.g)
      ensures 0 <= Slot(a, k) < |now| && now[Slot(a, k)] == Plus(start[Slot(a, k)], BruteForce(e, p, Slot(a, k)))
    {
      assert Among(a, e.nAtoms[a], Slot(a, k));
      assert AmongCells(e, NLocalBoxes(e.g), Slot(a, k));
      SlotInside(e, a, k);
    }
    forall x | 0 <= x < |now| && !InUse(e, x)
      ensures now[x] == start[x]
    {
      if AmongCells(e, NLocalBoxes(e.g), x) {
        var a :| 0 <= a < NLocalBoxes(e.g) && a < |e.nAtoms| && Among(a, e.nAtoms[a], x);
        AmongSlots(e, a, e.nAtoms[a], x);
      }
    }
  }

  lemma NeighborList(d: Domain, rho: Triple<int>, e: Store, p: Potential, n: int)
    requires Located(d, rho, e, p) && 0 <= n < NLocalBoxes(e.g)
    ensures IsList(e, NeighborBoxes(e.g, n)) && |NeighborBoxes(e.g, n)| == 27
  {
    LocatedStore(d, rho, e, p);
    hide Located, NeighborBoxes, NLocalBoxes, NTotalBoxes;
    NeighborsAre(e.g, n);
  }

  /** The cached lists that initLinkCells makes: every local cell's neighbours. */
  method InitNbrBoxes(g: Triple<int>) returns (nbrBoxes: seq<seq<int>>)
    requires ValidGrid(g) && 0 <= NLocalBoxes(g) <= NTotalBoxes(g)
    ensures |nbrBoxes| == NTotalBoxes(g)
    ensures forall a :: 0 <= a < NLocalBoxes(g) && a < |nbrBoxes| ==> nbrBoxes[a] == NeighborBoxes(g, a)
  {
    hide NeighborBoxes, NLocalBoxes, NTotalBoxes, ValidGrid;
    nbrBoxes := seq(NTotalBoxes(g), b => []);
    for iBox := 0 to NLocalBoxes(g)
      invariant |nbrBoxes| == NTotalBoxes(g)
      invariant forall a :: 0 <= a < iBox ==> nbrBoxes[a] == NeighborBoxes(g, a)
    {
      var list := GetNeighborBoxes(g, iBox);
      nbrBoxes := nbrBoxes[iBox := list];
    }
  }

  /** The pass, over cached lists of neighbours. */
  method AddFullPairs(ghost d: Domain, ghost rho: Triple<int>, e: Store, p: Potential, nbrBoxes: seq<seq<int>>,
                      load: array<Load>, energy: real)
    returns (ePot: real)
    requires Located(d, rho, e, p) && load.Length == |e.r| && |nbrBoxes| == |e.nAtoms|
    requires forall a :: 0 <= a < NLocalBoxes(e.g) && a < |nbrBoxes| ==> nbrBoxes[a] == NeighborBoxes(e.g, a)
    requires 0 <= LocalSlots(e) <= |e.r| && energy == Energy(load[..], LocalSlots(e))
    modifies load
    ensures Added(e, p, old(load[..]), load[..])
    ensures ePot == Energy(load[..], LocalSlots(e))
  {
    LocatedStore(d, rho, e, p);
    LocalSlotsInside(e);
    ghost var start := load[..];
    hide Located, Energy, LocalSlots, NLocalBoxes, NeighborBoxes, ListDone, BoxesDone, Added, ValidStore, IsList,
         NTotalBoxes, Good;
    NoBoxes(e, p, start);
    ePot := energy;
    var a := 0;
    while a < NLocalBoxes(e.g)
      invariant 0 <= a <= NLocalBoxes(e.g)
      invariant BoxesDone(e, p, a, start, load[..]) && ePot == Energy(load[..], LocalSlots(e))
    {
      NeighborList(d, rho, e, p, a);
      ghost var mid := load[..];
      ePot := FullBox(e, p, a, nbrBoxes[a], load, ePot);
      BoxStep(d, rho, e, p, a, nbrBoxes[a], start, mid, load[..]);
      a := a + 1;
    }
    AllBoxes(e, p, start, load[..]);
  }
}
