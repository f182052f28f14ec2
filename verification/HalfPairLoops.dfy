/** The loops of the pass over half pairs: what each of them adds to every local atom. */
module HalfPairLoops {
  import opened Triples
  import opened LinkCellIndex
  import opened Decomposition
  import opened LoadSums
  import opened PairForces
  import opened PairLaws
  import opened FullPairs
  import opened HalfPairs

  /** The atom in slot k of cell c has got something more. */
  ghost predicate Gained(e: Store, was: seq<Load>, now: seq<Load>, c: int, k: int, gain: Load) {
    && |was| == |now| == |e.r| && 0 <= Slot(c, k) < |e.r|
    && now[Slot(c, k)] == Plus(was[Slot(c, k)], gain)
  }

  lemma GainedNothing(e: Store, was: seq<Load>, c: int, k: int)
    requires |was| == |e.r| && 0 <= Slot(c, k) < |e.r|
    ensures Gained(e, was, was, c, k, NONE)
  {
    PlusLaws(was[Slot(c, k)], NONE, NONE);
  }

  lemma GainedMore(e: Store, was: seq<Load>, mid: seq<Load>, now: seq<Load>, c: int, k: int, g: Load, h: Load)
    requires Gained(e, was, mid, c, k, g) && Gained(e, mid, now, c, k, h)
    ensures Gained(e, was, now, c, k, Plus(g, h))
  {
    hide Plus, Slot;
    PlusLaws(was[Slot(c, k)], g, h);
  }

  /** A gain of its own, if it is on the outer side, and one it is given, if it is on the
      inner side. */
  function Gain(own: bool, x: Load, given: bool, y: Load): Load {
    Plus(if own then x else NONE, if given then y else NONE)
  }

  // ----- one atom of cell a against the first l atoms of cell b

  function RowGain(e: Store, p: Potential, a: int, n: int, b: int, l: int, c: int, k: int): Load
    requires ValidStore(e) && Good(p) && Holds(e, a, n) && 0 <= b < |e.nAtoms| && 0 <= l <= e.nAtoms[b]
    requires Holds(e, c, k)
    requires 0 <= Slot(a, n) < |e.r| && 0 <= Slot(c, k) < |e.r|
  {
    Gain(c == a && k == n, Sum(HalfVals(e, p, Slot(a, n), b), l), c == b && k < l, GivenLoad(e, p, Slot(c, k), a, n))
  }

  ghost predicate RowAt(e: Store, p: Potential, a: int, n: int, b: int, l: int, was: seq<Load>, now: seq<Load>,
                        c: int, k: int)
    requires ValidStore(e) && Good(p) && Holds(e, a, n) && 0 <= b < |e.nAtoms| && 0 <= l <= e.nAtoms[b]
    requires 0 <= Slot(a, n) < |e.r|
  {
    && Holds(e, c, k) && 0 <= Slot(c, k) < |e.r|
    && Gained(e, was, now, c, k, RowGain(e, p, a, n, b, l, c, k))
  }

  ghost predicate RowDone(e: Store, p: Potential, a: int, n: int, b: int, l: int, was: seq<Load>, now: seq<Load>)
    requires ValidStore(e) && Good(p) && Holds(e, a, n) && 0 <= b < |e.nAtoms| && 0 <= l <= e.nAtoms[b]
    requires 0 <= Slot(a, n) < |e.r|
  {
    && |was| == |now| == |e.r|
    && forall c, k :: LocalAtom(e, c, k) ==> RowAt(e, p, a, n, b, l, was, now, c, k)
  }

  /** What one visited pair adds: h to the outer atom, and g to the inner one. */
  ghost predicate PairStep(e: Store, a: int, n: int, b: int, l: int, h: Load, g: Load, was: seq<Load>, now: seq<Load>) {
    && |was| == |now| == |e.r|
    && forall c, k :: Holds(e, c, k) ==>
         0 <= Slot(c, k) < |e.r| && Gained(e, was, now, c, k, Gain(c == a && k == n, h, c == b && k == l, g))
  }

  /** The pair (a, n), (b, l) has been dealt with: the outer atom got its half, and a
      local inner atom got what it is to be given. */
  ghost predicate Dealt(e: Store, p: Potential, a: int, n: int, b: int, l: int, was: seq<Load>, now: seq<Load>)
    requires ValidStore(e) && Good(p) && Holds(e, a, n) && Holds(e, b, l)
    requires 0 <= Slot(a, n) < |e.r| && 0 <= Slot(b, l) < |e.r|
  {
    exists g :: Given(e, p, a, n, b, l, g) && PairStep(e, a, n, b, l, HalfLoad(e, p, Slot(a, n), b, l), g, was, now)
  }

  ghost predicate Given(e: Store, p: Potential, a: int, n: int, b: int, l: int, g: Load)
    requires ValidStore(e) && Good(p) && Holds(e, a, n) && Holds(e, b, l)
    requires 0 <= Slot(a, n) < |e.r| && 0 <= Slot(b, l) < |e.r|
  {
    b < NLocalBoxes(e.g) ==> g == GivenLoad(e, p, Slot(b, l), a, n)
  }

  lemma RowNext(e: Store, p: Potential, a: int, n: int, b: int, l: int, was: seq<Load>, mid: seq<Load>, now: seq<Load>)
    requires ValidStore(e) && Good(p) && Holds(e, a, n) && Holds(e, b, l)
    requires 0 <= Slot(a, n) < |e.r| && 0 <= Slot(b, l) < |e.r|
    requires RowDone(e, p, a, n, b, l, was, mid) && Dealt(e, p, a, n, b, l, mid, now)
    ensures 0 <= l + 1 <= e.nAtoms[b] && RowDone(e, p, a, n, b, l + 1, was, now)
  {
    hide *;
    var g := DealtMeans(e, p, a, n, b, l, mid, now);
    HoldsMeans(e, b, l);
    SizesAre(e);
    StepSizes(e, a, n, b, l, HalfLoad(e, p, Slot(a, n), b, l), g, mid, now);
    RowSizes(e, p, a, n, b, l, was, mid);
    forall c, k | LocalAtom(e, c, k)
      ensures RowAt(e, p, a, n, b, l + 1, was, now, c, k)
    {
      HoldsIs(e, c, k);
      StepMeans(e, a, n, b, l, HalfLoad(e, p, Slot(a, n), b, l), g, mid, now, c, k);
      RowNextAt(e, p, a, n, b, l, HalfLoad(e, p, Slot(a, n), b, l), g, was, mid, now, c, k);
    }
    RowBy(e, p, a, n, b, l + 1, was, now);
  }

  lemma RowSizes(e: Store, p: Potential, a: int, n: int, b: int, l: int, was: seq<Load>, now: seq<Load>)
    requires ValidStore(e) && Good(p) && Holds(e, a, n) && 0 <= b < |e.nAtoms| && 0 <= l <= e.nAtoms[b]
    requires 0 <= Slot(a, n) < |e.r| && RowDone(e, p, a, n, b, l, was, now)
    ensures |was| == |now| == |e.r|
    ensures forall c, k :: LocalAtom(e, c, k) ==> RowAt(e, p, a, n, b, l, was, now, c, k)
  {
    hide ValidStore, Slot, RowAt, LocalAtom;
  }

  lemma RowBy(e: Store, p: Potential, a: int, n: int, b: int, l: int, was: seq<Load>, now: seq<Load>)
    requires ValidStore(e) && Good(p) && Holds(e, a, n) && 0 <= b < |e.nAtoms| && 0 <= l <= e.nAtoms[b]
    requires 0 <= Slot(a, n) < |e.r| && |was| == |now| == |e.r|
    requires forall c, k :: LocalAtom(e, c, k) ==> RowAt(e, p, a, n, b, l, was, now, c, k)
    ensures RowDone(e, p, a, n, b, l, was, now)
  {
    hide ValidStore, Slot, RowAt, LocalAtom;
  }

  lemma HoldsMeans(e: Store, b: int, l: int)
    requires Holds(e, b, l)
    ensures 0 <= b < |e.nAtoms| && 0 <= l < e.nAtoms[b]
  {
  }

  lemma DealtMeans(e: Store, p: Potential, a: int, n: int, b: int, l: int, was: seq<Load>,
                   now: seq<Load>) returns (g: Load)
    requires ValidStore(e) && Good(p) && Holds(e, a, n) && Holds(e, b, l)
    requires 0 <= Slot(a, n) < |e.r| && 0 <= Slot(b, l) < |e.r| && Dealt(e, p, a, n, b, l, was, now)
    ensures Given(e, p, a, n, b, l, g) && PairStep(e, a, n, b, l, HalfLoad(e, p, Slot(a, n), b, l), g, was, now)
  {
    hide ValidStore, Holds, Slot, Given, PairStep, HalfLoad;
    g :| Given(e, p, a, n, b, l, g) && PairStep(e, a, n, b, l, HalfLoad(e, p, Slot(a, n), b, l), g, was, now);
  }

  lemma StepSizes(e: Store, a: int, n: int, b: int, l: int, h: Load, g: Load, was: seq<Load>, now: seq<Load>)
    requires PairStep(e, a, n, b, l, h, g, was, now)
    ensures |was| == |now| == |e.r|
  {
  }

  lemma StepMeans(e: Store, a: int, n: int, b: int, l: int, h: Load, g: Load, was: seq<Load>, now: seq<Load>, c: int,
                  k: int)
    requires PairStep(e, a, n, b, l, h, g, was, now) && Holds(e, c, k)
    ensures 0 <= Slot(c, k) < |e.r| && Gained(e, was, now, c, k, Gain(c == a && k == n, h, c == b && k == l, g))
  {
    hide Slot, Gained, Gain, Holds;
  }

  lemma RowNextAt(e: Store, p: Potential, a: int, n: int, b: int, l: int, h: Load, g: Load,
                  was: seq<Load>, mid: seq<Load>, now: seq<Load>, c: int, k: int)
    requires ValidStore(e) && Good(p) && Holds(e, a, n) && Holds(e, b, l) && LocalAtom(e, c, k)
    requires 0 <= Slot(a, n) < |e.r| && 0 <= Slot(b, l) < |e.r|
    requires h == HalfLoad(e, p, Slot(a, n), b, l) && Given(e, p, a, n, b, l, g)
    requires RowAt(e, p, a, n, b, l, was, mid, c, k)
    requires 0 <= Slot(c, k) < |e.r| && Gained(e, mid, now, c, k, Gain(c == a && k == n, h, c == b && k == l, g))
    ensures RowAt(e, p, a, n, b, l + 1, was, now, c, k)
  {
    hide ValidStore, HalfLoad, GivenLoad, Slot, NLocalBoxes, Sum, Plus, Gain, Gained;
    var own, first := c == a && k == n, HalfVals(e, p, Slot(a, n), b);
    SumNext(first, l);
    GainedMore(e, was, mid, now, c, k, RowGain(e, p, a, n, b, l, c, k), Gain(own, h, c == b && k == l, g));
    RowGains(own, Sum(first, l), h, c == b && k < l, c == b && k == l, GivenLoad(e, p, Slot(c, k), a, n), g);
  }

  lemma RowGains(own: bool, x: Load, h: Load, before: bool, here: bool, y: Load, g: Load)
    requires !(before && here) && (here ==> g == y)
    ensures Plus(Gain(own, x, before, y), Gain(own, h, here, g)) == Gain(own, Plus(x, h), before || here, y)
  {
  }

  lemma StartRow(e: Store, p: Potential, a: int, n: int, b: int, was: seq<Load>)
    requires ValidStore(e) && Good(p) && Holds(e, a, n) && 0 <= b < |e.nAtoms| && |was| == |e.r|
    requires 0 <= Slot(a, n) < |e.r|
    ensures RowDone(e, p, a, n, b, 0, was, was)
  {
    SizesAre(e);
    assert ValidGrid(e.g);
    hide ValidStore, Slot, NLocalBoxes, Sum, GivenLoad;
    SumNone(HalfVals(e, p, Slot(a, n), b));
    forall c, k | LocalAtom(e, c, k)
      ensures RowAt(e, p, a, n, b, 0, was, was, c, k)
    {
      SlotInside(e, c, k);
      GainedNothing(e, was, c, k);
    }
  }

  // ----- one visited pair

  lemma DealtBy(e: Store, p: Potential, a: int, n: int, b: int, l: int, h: Load, g: Load, was: seq<Load>,
                now: seq<Load>)
    requires ValidStore(e) && Good(p) && Holds(e, a, n) && Holds(e, b, l)
    requires 0 <= Slot(a, n) < |e.r| && 0 <= Slot(b, l) < |e.r| && h == HalfLoad(e, p, Slot(a, n), b, l)
    requires Given(e, p, a, n, b, l, g) && |was| == |now| == |e.r|
    requires forall c, k :: Holds(e, c, k) ==>
               0 <= Slot(c, k) < |e.r| && Gained(e, was, now, c, k, Gain(c == a && k == n, h, c == b && k == l, g))
    ensures Dealt(e, p, a, n, b, l, was, now)
  {
    hide ValidStore, Slot, Gained, Gain, Holds, HalfLoad, Given;
    assert PairStep(e, a, n, b, l, h, g, was, now);
  }

  /** The kernel adds to both atoms of a pair, or to neither. */
  lemma PairVisited(e: Store, p: Potential, a: int, n: int, b: int, l: int, c: Load, was: seq<Load>, now: seq<Load>)
    requires Sound(e, p) && LocalAtom(e, a, n) && Holds(e, b, l) && |was| == |e.r| == |e.gid|
    requires 0 <= Slot(a, n) < |e.r| && 0 <= Slot(b, l) < |e.r|
    requires !Skipped(e, p, Slot(a, n), b, Slot(b, l)) && Slot(a, n) != Slot(b, l)
    requires c == PairLoad(e, p, Slot(a, n), Slot(b, l))
    requires now == was[Slot(a, n) := Plus(was[Slot(a, n)], c)][Slot(b, l) := Plus(was[Slot(b, l)], Opposite(c))]
    ensures Dealt(e, p, a, n, b, l, was, now)
  {
    SoundStore(e, p);
    VisitedLoads(e, p, a, n, b, l);
    hide Sound, PairLoad, Slot, NLocalBoxes, HalfLoad, GivenLoad, Opposite, ValidStore, Gained, Gain, LocalAtom,
         Skipped, Plus, Given, Holds;
    HoldsIs(e, a, n);
    forall c', k | Holds(e, c', k)
      ensures 0 <= Slot(c', k) < |e.r|
      ensures Gained(e, was, now, c', k, Gain(c' == a && k == n, c, c' == b && k == l, Opposite(c)))
    {
      StepAt(e, a, n, b, l, c, Opposite(c), was, now, c', k);
    }
    DealtBy(e, p, a, n, b, l, c, Opposite(c), was, now);
  }

  lemma VisitedLoads(e: Store, p: Potential, a: int, n: int, b: int, l: int)
    requires Sound(e, p) && LocalAtom(e, a, n) && Holds(e, b, l) && |e.gid| == |e.r|
    requires 0 <= Slot(a, n) < |e.r| && 0 <= Slot(b, l) < |e.r| && !Skipped(e, p, Slot(a, n), b, Slot(b, l))
    ensures PairLoad(e, p, Slot(a, n), Slot(b, l)) == HalfLoad(e, p, Slot(a, n), b, l)
    ensures Given(e, p, a, n, b, l, Opposite(PairLoad(e, p, Slot(a, n), Slot(b, l))))
  {
    PairOpposite(e, p, Slot(a, n), Slot(b, l));
    hide ValidStore, PairLoad, Slot, NLocalBoxes, Opposite;
  }

  lemma LeftLoads(e: Store, p: Potential, a: int, n: int, b: int, l: int)
    requires Sound(e, p) && LocalAtom(e, a, n) && Holds(e, b, l) && |e.gid| == |e.r|
    requires 0 <= Slot(a, n) < |e.r| && 0 <= Slot(b, l) < |e.r|
    requires Skipped(e, p, Slot(a, n), b, Slot(b, l)) || Beyond(p, R2(e, Slot(a, n), Slot(b, l)))
    ensures HalfLoad(e, p, Slot(a, n), b, l) == NONE && Given(e, p, a, n, b, l, NONE)
  {
    PairOpposite(e, p, Slot(a, n), Slot(b, l));
    hide ValidStore, Slot, NLocalBoxes, R2, Contribution;
  }

  lemma PairLeft(e: Store, p: Potential, a: int, n: int, b: int, l: int, was: seq<Load>)
    requires Sound(e, p) && LocalAtom(e, a, n) && Holds(e, b, l) && |was| == |e.r| == |e.gid|
    requires 0 <= Slot(a, n) < |e.r| && 0 <= Slot(b, l) < |e.r|
    requires Skipped(e, p, Slot(a, n), b, Slot(b, l)) || Beyond(p, R2(e, Slot(a, n), Slot(b, l)))
    ensures Dealt(e, p, a, n, b, l, was, was)
  {
    SoundStore(e, p);
    LeftLoads(e, p, a, n, b, l);
    hide Sound, PairLoad, Slot, NLocalBoxes, HalfLoad, GivenLoad, Opposite, ValidStore, LocalAtom, Skipped, Given,
         Gained;
    HoldsIs(e, a, n);
    forall c, k | Holds(e, c, k)
      ensures 0 <= Slot(c, k) < |e.r| && Gained(e, was, was, c, k, Gain(c == a && k == n, NONE, c == b && k == l, NONE))
    {
      SlotInside(e, c, k);
      GainedNothing(e, was, c, k);
    }
    DealtBy(e, p, a, n, b, l, NONE, NONE, was, was);
  }

  lemma StepAt(e: Store, a: int, n: int, b: int, l: int, h: Load, g: Load, was: seq<Load>, now: seq<Load>, c: int,
               k: int)
    requires ValidStore(e) && Holds(e, a, n) && Holds(e, b, l) && Holds(e, c, k) && |was| == |e.r|
    requires 0 <= Slot(a, n) < |e.r| && 0 <= Slot(b, l) < |e.r| && Slot(a, n) != Slot(b, l)
    requires now == was[Slot(a, n) := Plus(was[Slot(a, n)], h)][Slot(b, l) := Plus(was[Slot(b, l)], g)]
    ensures 0 <= Slot(c, k) < |e.r| && Gained(e, was, now, c, k, Gain(c == a && k == n, h, c == b && k == l, g))
  {
    SlotInside(e, c, k);
    if Slot(c, k) == Slot(a, n) {
      SlotsDiffer(e, c, k, a, n);
    }
    if Slot(c, k) == Slot(b, l) {
      SlotsDiffer(e, c, k, b, l);
    }
    hide ValidStore, Slot, Plus;
    PlusLaws(was[Slot(c, k)], NONE, NONE);
    PlusLaws(h, NONE, NONE);
    PlusLaws(g, NONE, NONE);
  }

  lemma SoundPair(e: Store, p: Potential, a: int, n: int, b: int, l: int)
    requires Sound(e, p) && LocalAtom(e, a, n) && Holds(e, b, l)
    ensures 0 <= Slot(a, n) < LocalSlots(e) <= |e.r| && 0 <= Slot(b, l) < |e.r|
    ensures Slot(b, l) < LocalSlots(e) <==> b < NLocalBoxes(e.g)
    ensures !Skipped(e, p, Slot(a, n), b, Slot(b, l)) ==>
              Slot(a, n) != Slot(b, l) && R2(e, Slot(a, n), Slot(b, l)) > 0.0
  {
    SlotInside(e, a, n);
    SlotInside(e, b, l);
    LocalSlotsInside(e);
    assert NotTogether(e, a, n, b, l);
    if Slot(a, n) == Slot(b, l) {
      SlotsDiffer(e, a, n, b, l);
    }
  }

  lemma SoundStore(e: Store, p: Potential)
    requires Sound(e, p)
    ensures ValidStore(e) && ValidGrid(e.g) && Good(p) && 0 <= LocalSlots(e) <= |e.r|
    ensures 0 <= NLocalBoxes(e.g) <= |e.nAtoms|
  {
    LocalSlotsInside(e);
  }

  lemma Halves(x: real)
    ensures Times(0.5, x) + Times(0.5, x) == x
  {
  }

  /** The energy added for a pair is what its local atoms get. */
  lemma EnergyOfPair(e: Store, was: seq<Load>, i: int, j: int, c: Load, now: seq<Load>, mid: seq<Load>)
    requires |was| == |e.r| && 0 <= i < LocalSlots(e) <= |e.r| && 0 <= j < |e.r| && i != j
    requires mid == was[i := Plus(was[i], c)] && now == mid[j := Plus(was[j], Opposite(c))]
    ensures Energy(now, LocalSlots(e)) == Energy(was, LocalSlots(e)) + c.u + if j < LocalSlots(e) then c.u else 0.0
  {
    hide Energy, Plus, LocalSlots;
    EnergyAdd(was, i, c, LocalSlots(e));
    assert mid[j] == was[j];
    EnergyAdd(mid, j, Opposite(c), LocalSlots(e));
  }

  /** Slots without an atom are as they were. */
  ghost predicate RestKept(e: Store, start: seq<Load>, loads: seq<Load>) {
    |start| == |loads| == |e.r| && forall x :: 0 <= x < |loads| && !InUse(e, x) ==> loads[x] == start[x]
  }

  lemma RestUntouched(e: Store, a: int, n: int, b: int, l: int, start: seq<Load>, was: seq<Load>, mid: seq<Load>,
                      now: seq<Load>)
    requires RestKept(e, start, was) && Holds(e, a, n) && Holds(e, b, l)
    requires 0 <= Slot(a, n) < |was| && 0 <= Slot(b, l) < |was| == |mid| == |now|
    requires mid == was[Slot(a, n) := mid[Slot(a, n)]] && now == mid[Slot(b, l) := now[Slot(b, l)]]
    ensures RestKept(e, start, now)
  {
    hide Slot, Holds;
    assert InUse(e, Slot(a, n)) && InUse(e, Slot(b, l));
  }

  lemma RestStarts(e: Store, start: seq<Load>)
    requires |start| == |e.r|
    ensures RestKept(e, start, start)
  {
  }

  /** The test that skips a pair, as the kernel makes it: on gids, or on cells and on slots
      within the cell. */
  predicate Passed(e: Store, p: Potential, a: int, n: int, b: int, l: int)
    requires ValidGrid(e.g) && 0 <= Slot(a, n) < |e.gid| && 0 <= Slot(b, l) < |e.gid|
  {
    if p.law.LennardJones? then
      b < NLocalBoxes(e.g) && e.gid[Slot(b, l)] <= e.gid[Slot(a, n)]
    else
      b < a || (b == a && l <= n)
  }

  lemma PassedIsSkipped(e: Store, p: Potential, a: int, n: int, b: int, l: int)
    requires ValidStore(e) && ValidGrid(e.g) && LocalAtom(e, a, n) && Holds(e, b, l)
    requires 0 <= Slot(a, n) < |e.gid| && 0 <= Slot(b, l) < |e.gid|
    ensures Passed(e, p, a, n, b, l) <==> Skipped(e, p, Slot(a, n), b, Slot(b, l))
  {
    if !p.law.LennardJones? {
      SkippedSlots(e, p, a, n, b, l);
    }
  }

  /** One pair: slot n of cell a with slot l of cell b. */
  method HalfPair(ghost start: seq<Load>, e: Store, p: Potential, a: int, n: int, b: int, l: int, load: array<Load>,
                  energy: real) returns (ePot: real)
    requires Sound(e, p) && LocalAtom(e, a, n) && Holds(e, a, n) && Holds(e, b, l) && ValidStore(e) && Good(p)
    requires 0 <= Slot(a, n) < |e.r| && 0 <= Slot(b, l) < |e.r| && load.Length == |e.r|
    requires 0 <= LocalSlots(e) <= |e.r| && energy == Energy(load[..], LocalSlots(e)) && RestKept(e, start, load[..])
    modifies load
    ensures Dealt(e, p, a, n, b, l, old(load[..]), load[..])
    ensures ePot == Energy(load[..], LocalSlots(e)) && RestKept(e, start, load[..])
  {
    hide *;
    SizesAre(e);
    SoundPair(e, p, a, n, b, l);
    ghost var mid := load[..];
    var i, j := Slot(a, n), Slot(b, l);
    ePot := energy;
    PassedIsSkipped(e, p, a, n, b, l);
    if Passed(e, p, a, n, b, l) {
      PairLeft(e, p, a, n, b, l, mid);
      return;
    }
    var r2 := R2(e, i, j);
    if Beyond(p, r2) {
      PairLeft(e, p, a, n, b, l, mid);
      return;
    }
    ePot := AddPair(e, p, i, b, j, load, energy);
    PairLoadIs(e, p, i, j);
    ghost var c := PairLoad(e, p, i, j);
    ghost var half := mid[i := Plus(mid[i], c)];
    PairVisited(e, p, a, n, b, l, c, mid, load[..]);
    RestUntouched(e, a, n, b, l, start, mid, half, load[..]);
  }

  /** A pair within the cutoff adds to both of its atoms, and its energy to the total
      once for each local one. */
  method AddPair(e: Store, p: Potential, i: int, b: int, j: int, load: array<Load>, energy: real) returns (ePot: real)
    requires ValidGrid(e.g) && Good(p) && load.Length == |e.r| && 0 <= i < LocalSlots(e) <= |e.r|
    requires 0 <= j < |e.r| && i != j
    requires j < LocalSlots(e) <==> b < NLocalBoxes(e.g)
    requires 0.0 < R2(e, i, j) && !Beyond(p, R2(e, i, j)) && energy == Energy(load[..], LocalSlots(e))
    modifies load
    ensures ePot == Energy(load[..], LocalSlots(e))
    ensures load[..] == old(load[..])[i := Plus(old(load[i]), PairLoad(e, p, i, j))]
                                     [j := Plus(old(load[j]), Opposite(PairLoad(e, p, i, j)))]
  {
    hide *;
    PairLoadIs(e, p, i, j);
    ghost var was := load[..];
    var dr, r2 := Difference(e.r[i], e.r[j]), R2(e, i, j);
    var eLocal, c := PairEnergy(p, r2), Contribution(p, Couple(p, i, j), dr, r2);
    load[i] := Plus(load[i], c);
    ghost var half := load[..];
    load[j] := Plus(load[j], Opposite(c));
    Halves(eLocal);
    ContributionEnergy(p, Couple(p, i, j), dr, r2);
    EnergyOfPair(e, was, i, j, c, load[..], half);
    if b < NLocalBoxes(e.g) {
      ePot := energy + eLocal;
    } else {
      ePot := energy + Times(0.5, eLocal);
    }
  }

  /** Slot n of cell a: the loop over the atoms of cell b. */
  method HalfRow(ghost start: seq<Load>, e: Store, p: Potential, a: int, n: int, b: int, load: array<Load>,
                 energy: real) returns (ePot: real)
    requires Sound(e, p) && LocalAtom(e, a, n) && 0 <= b < |e.nAtoms| && load.Length == |e.r|
    requires 0 <= Slot(a, n) < |e.r| && 0 <= LocalSlots(e) <= |e.r|
    requires energy == Energy(load[..], LocalSlots(e)) && RestKept(e, start, load[..])
    modifies load
    ensures RowDone(e, p, a, n, b, e.nAtoms[b], old(load[..]), load[..])
    ensures ePot == Energy(load[..], LocalSlots(e)) && RestKept(e, start, load[..])
  {
    SoundStore(e, p);
    ghost var was := load[..];
    ePot := energy;
    hide *;
    HoldsIs(e, a, n);
    StartRow(e, p, a, n, b, was);
    for l := 0 to e.nAtoms[b]
      invariant RowDone(e, p, a, n, b, l, was, load[..])
      invariant ePot == Energy(load[..], LocalSlots(e)) && RestKept(e, start, load[..])
    {
      HoldsThere(e, b, l);
      SoundPair(e, p, a, n, b, l);
      ghost var mid := load[..];
      ePot := HalfPair(start, e, p, a, n, b, l, load, ePot);
      RowNext(e, p, a, n, b, l, was, mid, load[..]);
    }
  }

  lemma HoldsIs(e: Store, a: int, n: int)
    requires ValidGrid(e.g) && LocalAtom(e, a, n)
    ensures Holds(e, a, n) && 0 <= a < NLocalBoxes(e.g) && a < |e.nAtoms| && 0 <= n < e.nAtoms[a]
  {
  }

  lemma HoldsThere(e: Store, b: int, l: int)
    requires 0 <= b < |e.nAtoms| && 0 <= l < e.nAtoms[b]
    ensures Holds(e, b, l)
  {
  }

  lemma SizesAre(e: Store)
    requires ValidStore(e)
    ensures ValidGrid(e.g) && |e.r| == |e.gid|
  {
  }

  lemma ContributionEnergy(p: Potential, s: real, dr: Triple<real>, r2: real)
    requires Good(p) && r2 > 0.0
    ensures Contribution(p, s, dr, r2).u == Times(0.5, PairEnergy(p, r2))
  {
  }

  // ----- the first n atoms of cell a against cell b

  function CellGain(e: Store, p: Potential, a: int, n: int, b: int, c: int, k: int): Load
    requires ValidStore(e) && Good(p) && 0 <= a < |e.nAtoms| && 0 <= n <= e.nAtoms[a] && 0 <= b < |e.nAtoms|
    requires Holds(e, c, k) && 0 <= Slot(c, k) < |e.r|
  {
    Gain(c == a && k < n, HalfCell(e, p, Slot(c, k), b), c == b, Sum(GivenVals(e, p, Slot(c, k), a), n))
  }

  ghost predicate CellAt(e: Store, p: Potential, a: int, n: int, b: int, was: seq<Load>, now: seq<Load>, c: int, k: int)
    requires ValidStore(e) && Good(p) && 0 <= a < |e.nAtoms| && 0 <= n <= e.nAtoms[a] && 0 <= b < |e.nAtoms|
  {
    Holds(e, c, k) && 0 <= Slot(c, k) < |e.r| && Gained(e, was, now, c, k, CellGain(e, p, a, n, b, c, k))
  }

  ghost predicate RowsDone(e: Store, p: Potential, a: int, n: int, b: int, was: seq<Load>, now: seq<Load>)
    requires ValidStore(e) && Good(p) && 0 <= a < |e.nAtoms| && 0 <= n <= e.nAtoms[a] && 0 <= b < |e.nAtoms|
  {
    && |was| == |now| == |e.r|
    && forall c, k :: LocalAtom(e, c, k) ==> CellAt(e, p, a, n, b, was, now, c, k)
  }

  lemma CellGains(own: bool, here: bool, x: Load, y: Load, given: bool, g: Load, h: Load)
    requires !(own && here) && (here ==> x == y)
    ensures Plus(Gain(own, x, given, g), Gain(here, y, given, h)) == Gain(own || here, x, given, Plus(g, h))
  {
  }

  lemma CellNextAt(e: Store, p: Potential, a: int, n: int, b: int, was: seq<Load>, mid: seq<Load>, now: seq<Load>,
                   c: int, k: int)
    requires ValidStore(e) && Good(p) && Holds(e, a, n) && 0 <= b < |e.nAtoms|
    requires 0 <= Slot(a, n) < |e.r|
    requires CellAt(e, p, a, n, b, was, mid, c, k) && RowAt(e, p, a, n, b, e.nAtoms[b], mid, now, c, k)
    ensures CellAt(e, p, a, n + 1, b, was, now, c, k)
  {
    hide ValidStore, HalfLoad, GivenLoad, Slot, NLocalBoxes, Sum, Plus, Gain, Gained;
    var x, m := Slot(c, k), e.nAtoms[b];
    var given := GivenVals(e, p, x, a);
    SumNext(given, n);
    assert c == b ==> k < m;
    GainedMore(e, was, mid, now, c, k, CellGain(e, p, a, n, b, c, k), RowGain(e, p, a, n, b, m, c, k));
    CellGains(c == a && k < n, c == a && k == n, HalfCell(e, p, x, b), Sum(HalfVals(e, p, Slot(a, n), b), m), c == b,
              Sum(given, n), given[n]);
  }

  lemma CellNext(e: Store, p: Potential, a: int, n: int, b: int, was: seq<Load>, mid: seq<Load>, now: seq<Load>)
    requires ValidStore(e) && Good(p) && 0 <= a < |e.nAtoms| && 0 <= n < e.nAtoms[a] && 0 <= b < |e.nAtoms|
    requires Holds(e, a, n) && 0 <= Slot(a, n) < |e.r|
    requires RowsDone(e, p, a, n, b, was, mid) && RowDone(e, p, a, n, b, e.nAtoms[b], mid, now)
    ensures RowsDone(e, p, a, n + 1, b, was, now)
  {
    hide *;
    SizesAre(e);
    RowsMean(e, p, a, n, b, was, mid);
    RowSizes(e, p, a, n, b, e.nAtoms[b], mid, now);
    forall c, k | LocalAtom(e, c, k)
      ensures CellAt(e, p, a, n + 1, b, was, now, c, k)
    {
      CellNextAt(e, p, a, n, b, was, mid, now, c, k);
    }
    RowsBy(e, p, a, n + 1, b, was, now);
  }

  lemma RowsMean(e: Store, p: Potential, a: int, n: int, b: int, was: seq<Load>, now: seq<Load>)
    requires ValidStore(e) && Good(p) && 0 <= a < |e.nAtoms| && 0 <= n <= e.nAtoms[a] && 0 <= b < |e.nAtoms|
    requires RowsDone(e, p, a, n, b, was, now)
    ensures |was| == |now| == |e.r|
    ensures forall c, k :: LocalAtom(e, c, k) ==> CellAt(e, p, a, n, b, was, now, c, k)
  {
    hide ValidStore, CellAt, LocalAtom;
  }

  lemma RowsBy(e: Store, p: Potential, a: int, n: int, b: int, was: seq<Load>, now: seq<Load>)
    requires ValidStore(e) && Good(p) && 0 <= a < |e.nAtoms| && 0 <= n <= e.nAtoms[a] && 0 <= b < |e.nAtoms|
    requires |was| == |now| == |e.r|
    requires forall c, k :: LocalAtom(e, c, k) ==> CellAt(e, p, a, n, b, was, now, c, k)
    ensures RowsDone(e, p, a, n, b, was, now)
  {
    hide ValidStore, CellAt, LocalAtom;
  }

  lemma StartRows(e: Store, p: Potential, a: int, b: int, was: seq<Load>)
    requires ValidStore(e) && Good(p) && 0 <= a < |e.nAtoms| && 0 <= b < |e.nAtoms| && |was| == |e.r|
    ensures RowsDone(e, p, a, 0, b, was, was)
  {
    hide *;
    SizesAre(e);
    forall c, k | LocalAtom(e, c, k)
      ensures CellAt(e, p, a, 0, b, was, was, c, k)
    {
      HoldsIs(e, c, k);
      StartRowsAt(e, p, a, b, was, c, k);
    }
    RowsBy(e, p, a, 0, b, was, was);
  }

  lemma StartRowsAt(e: Store, p: Potential, a: int, b: int, was: seq<Load>, c: int, k: int)
    requires ValidStore(e) && Good(p) && 0 <= a < |e.nAtoms| && 0 <= b < |e.nAtoms| && |was| == |e.r|
    requires Holds(e, c, k) && 0 <= k
    ensures CellAt(e, p, a, 0, b, was, was, c, k)
  {
    SlotInside(e, c, k);
    hide ValidStore, Slot, Sum, GivenLoad, HalfLoad;
    SumNone(GivenVals(e, p, Slot(c, k), a));
    GainedNothing(e, was, c, k);
  }

  /** The loop over the atoms of cell a. */
  method HalfCells(ghost start: seq<Load>, e: Store, p: Potential, a: int, b: int, load: array<Load>,
                   energy: real) returns (ePot: real)
    requires Sound(e, p) && 0 <= a < NLocalBoxes(e.g) && a < |e.nAtoms| && 0 <= b < |e.nAtoms| && load.Length == |e.r|
    requires 0 <= LocalSlots(e) <= |e.r| && energy == Energy(load[..], LocalSlots(e)) && RestKept(e, start, load[..])
    modifies load
    ensures RowsDone(e, p, a, e.nAtoms[a], b, old(load[..]), load[..])
    ensures ePot == Energy(load[..], LocalSlots(e)) && RestKept(e, start, load[..])
  {
    ghost var was := load[..];
    ePot := energy;
    SoundStore(e, p);
    hide *;
    StartRows(e, p, a, b, was);
    for n := 0 to e.nAtoms[a]
      invariant RowsDone(e, p, a, n, b, was, load[..]) && ePot == Energy(load[..], LocalSlots(e))
      invariant RestKept(e, start, load[..])
    {
      LocalThere(e, a, n);
      ghost var mid := load[..];
      ePot := HalfRow(start, e, p, a, n, b, load, ePot);
      CellNext(e, p, a, n, b, was, mid, load[..]);
    }
  }

  lemma LocalThere(e: Store, a: int, n: int)
    requires ValidStore(e) && ValidGrid(e.g) && 0 <= a < NLocalBoxes(e.g) && a < |e.nAtoms| && 0 <= n < e.nAtoms[a]
    ensures Holds(e, a, n) && LocalAtom(e, a, n) && 0 <= Slot(a, n) < |e.r|
  {
    SlotInside(e, a, n);
  }

  // ----- cell a against the first j listed cells

  /** Cell c is among the first j of the list. */
  ghost predicate Met(list: seq<int>, j: int, c: int)
    requires 0 <= j <= |list|
  {
    exists q :: 0 <= q < j && list[q] == c
  }

  lemma MetNext(e: Store, list: seq<int>, j: int, c: int)
    requires IsList(e, list) && 0 <= j < |list|
    ensures Met(list, j + 1, c) <==> Met(list, j, c) || c == list[j]
    ensures !(Met(list, j, c) && c == list[j])
  {
    if Met(list, j, c) {
      var q :| 0 <= q < j && list[q] == c;
      assert 0 <= q < j + 1 && list[q] == c;
    }
    if c == list[j] {
      assert 0 <= j < j + 1 && list[j] == c;
    }
  }

  /** What slot x gets itself from the first j listed cells. */
  function ListSum(e: Store, p: Potential, x: int, list: seq<int>, j: int): Load
    requires ValidStore(e) && Good(p) && 0 <= x < |e.r| && IsList(e, list) && 0 <= j <= |list|
  {
    Listed(HalfCellVals(e, p, x), list, j)
  }

  lemma ListSumNext(e: Store, p: Potential, x: int, list: seq<int>, j: int)
    requires ValidStore(e) && Good(p) && 0 <= x < |e.r| && IsList(e, list) && 0 <= j < |list|
    requires 0 <= list[j] < |e.nAtoms|
    ensures ListSum(e, p, x, list, j + 1) == Plus(ListSum(e, p, x, list, j), HalfCell(e, p, x, list[j]))
  {
    hide ValidStore, Listed, HalfCell, Plus;
    ListedNext(HalfCellVals(e, p, x), list, j);
  }

  lemma ListSumNone(e: Store, p: Potential, x: int, list: seq<int>)
    requires ValidStore(e) && Good(p) && 0 <= x < |e.r| && IsList(e, list)
    ensures ListSum(e, p, x, list, 0) == NONE
  {
    hide ValidStore, Listed, HalfCell;
    ListedNone(HalfCellVals(e, p, x), list);
  }

  ghost function ListGain(e: Store, p: Potential, a: int, list: seq<int>, j: int, c: int, k: int): Load
    requires ValidStore(e) && Good(p) && 0 <= a < |e.nAtoms| && IsList(e, list) && 0 <= j <= |list|
    requires Holds(e, c, k) && 0 <= Slot(c, k) < |e.r|
  {
    Gain(c == a, ListSum(e, p, Slot(c, k), list, j), Met(list, j, c), GivenCell(e, p, Slot(c, k), a))
  }

  ghost predicate ListAt(e: Store, p: Potential, a: int, list: seq<int>, j: int, was: seq<Load>, now: seq<Load>,
                         c: int, k: int)
    requires ValidStore(e) && Good(p) && 0 <= a < |e.nAtoms| && IsList(e, list) && 0 <= j <= |list|
  {
    Holds(e, c, k) && 0 <= Slot(c, k) < |e.r| && Gained(e, was, now, c, k, ListGain(e, p, a, list, j, c, k))
  }

  ghost predicate CellsDone(e: Store, p: Potential, a: int, list: seq<int>, j: int, was: seq<Load>, now: seq<Load>)
    requires ValidStore(e) && Good(p) && 0 <= a < |e.nAtoms| && IsList(e, list) && 0 <= j <= |list|
  {
    && |was| == |now| == |e.r|
    && forall c, k :: LocalAtom(e, c, k) ==> ListAt(e, p, a, list, j, was, now, c, k)
  }

  lemma ListNextAt(e: Store, p: Potential, a: int, list: seq<int>, j: int, was: seq<Load>, mid: seq<Load>,
                   now: seq<Load>,
                   c: int, k: int)
    requires ValidStore(e) && Good(p) && 0 <= a < |e.nAtoms| && IsList(e, list) && 0 <= j < |list|
    requires ListAt(e, p, a, list, j, was, mid, c, k) && CellAt(e, p, a, e.nAtoms[a], list[j], mid, now, c, k)
    ensures ListAt(e, p, a, list, j + 1, was, now, c, k)
  {
    ListGainNext(e, p, a, list, j, c, k);
    hide ValidStore, Slot, Gained, ListGain, CellGain, IsList, Holds;
    GainedMore(e, was, mid, now, c, k, ListGain(e, p, a, list, j, c, k), CellGain(e, p, a, e.nAtoms[a], list[j], c, k));
  }

  lemma ListGainNext(e: Store, p: Potential, a: int, list: seq<int>, j: int, c: int, k: int)
    requires ValidStore(e) && Good(p) && 0 <= a < |e.nAtoms| && IsList(e, list) && 0 <= j < |list|
    requires Holds(e, c, k) && 0 <= Slot(c, k) < |e.r| && 0 <= list[j] < |e.nAtoms|
    ensures ListGain(e, p, a, list, j + 1, c, k) ==
            Plus(ListGain(e, p, a, list, j, c, k), CellGain(e, p, a, e.nAtoms[a], list[j], c, k))
  {
    hide *;
    var x := Slot(c, k);
    MetNext(e, list, j, c);
    CellGainIs(e, p, a, list[j], c, k);
    ListSumNext(e, p, x, list, j);
    ListGainIs(e, p, a, list, j, c, k);
    ListGainIs(e, p, a, list, j + 1, c, k);
    RowGains(c == a, ListSum(e, p, x, list, j), HalfCell(e, p, x, list[j]), Met(list, j, c), c == list[j],
             GivenCell(e, p, x, a), GivenCell(e, p, x, a));
  }

  lemma ListGainIs(e: Store, p: Potential, a: int, list: seq<int>, j: int, c: int, k: int)
    requires ValidStore(e) && Good(p) && 0 <= a < |e.nAtoms| && IsList(e, list) && 0 <= j <= |list|
    requires Holds(e, c, k) && 0 <= Slot(c, k) < |e.r|
    ensures ListGain(e, p, a, list, j, c, k) ==
            Gain(c == a, ListSum(e, p, Slot(c, k), list, j), Met(list, j, c), GivenCell(e, p, Slot(c, k), a))
  {
    hide ValidStore, Slot, Gain, ListSum, Met, GivenCell, IsList, Holds;
  }

  lemma CellGainIs(e: Store, p: Potential, a: int, b: int, c: int, k: int)
    requires ValidStore(e) && Good(p) && 0 <= a < |e.nAtoms| && 0 <= b < |e.nAtoms|
    requires Holds(e, c, k) && 0 <= Slot(c, k) < |e.r|
    ensures CellGain(e, p, a, e.nAtoms[a], b, c, k) ==
            Gain(c == a, HalfCell(e, p, Slot(c, k), b), c == b, GivenCell(e, p, Slot(c, k), a))
  {
    hide ValidStore, Slot, Gain, HalfCell, Sum;
  }

  lemma ListNext(e: Store, p: Potential, a: int, list: seq<int>, j: int, was: seq<Load>, mid: seq<Load>, now: seq<Load>)
    requires ValidStore(e) && Good(p) && 0 <= a < |e.nAtoms| && IsList(e, list) && 0 <= j < |list|
    requires 0 <= list[j] < |e.nAtoms|
    requires CellsDone(e, p, a, list, j, was, mid) && RowsDone(e, p, a, e.nAtoms[a], list[j], mid, now)
    ensures CellsDone(e, p, a, list, j + 1, was, now)
  {
    hide *;
    SizesAre(e);
    CellsMean(e, p, a, list, j, was, mid);
    RowsMean(e, p, a, e.nAtoms[a], list[j], mid, now);
    forall c, k | LocalAtom(e, c, k)
      ensures ListAt(e, p, a, list, j + 1, was, now, c, k)
    {
      ListNextAt(e, p, a, list, j, was, mid, now, c, k);
    }
    CellsBy(e, p, a, list, j + 1, was, now);
  }

  lemma CellsMean(e: Store, p: Potential, a: int, list: seq<int>, j: int, was: seq<Load>, now: seq<Load>)
    requires ValidStore(e) && Good(p) && 0 <= a < |e.nAtoms| && IsList(e, list) && 0 <= j <= |list|
    requires CellsDone(e, p, a, list, j, was, now)
    ensures |was| == |now| == |e.r|
    ensures forall c, k :: LocalAtom(e, c, k) ==> ListAt(e, p, a, list, j, was, now, c, k)
  {
    hide ValidStore, ListAt, LocalAtom, IsList;
  }

  lemma CellsBy(e: Store, p: Potential, a: int, list: seq<int>, j: int, was: seq<Load>, now: seq<Load>)
    requires ValidStore(e) && Good(p) && 0 <= a < |e.nAtoms| && IsList(e, list) && 0 <= j <= |list|
    requires |was| == |now| == |e.r|
    requires forall c, k :: LocalAtom(e, c, k) ==> ListAt(e, p, a, list, j, was, now, c, k)
    ensures CellsDone(e, p, a, list, j, was, now)
  {
    hide ValidStore, ListAt, LocalAtom, IsList;
  }

  lemma StartCells(e: Store, p: Potential, a: int, list: seq<int>, was: seq<Load>)
    requires ValidStore(e) && Good(p) && 0 <= a < |e.nAtoms| && IsList(e, list) && |was| == |e.r|
    ensures CellsDone(e, p, a, list, 0, was, was)
  {
    hide *;
    SizesAre(e);
    forall c, k | LocalAtom(e, c, k)
      ensures ListAt(e, p, a, list, 0, was, was, c, k)
    {
      HoldsIs(e, c, k);
      StartCellsAt(e, p, a, list, was, c, k);
    }
    CellsBy(e, p, a, list, 0, was, was);
  }

  lemma StartCellsAt(e: Store, p: Potential, a: int, list: seq<int>, was: seq<Load>, c: int, k: int)
    requires ValidStore(e) && Good(p) && 0 <= a < |e.nAtoms| && IsList(e, list) && |was| == |e.r|
    requires Holds(e, c, k)
    ensures ListAt(e, p, a, list, 0, was, was, c, k)
  {
    SlotInside(e, c, k);
    hide ValidStore, Slot, ListSum, GivenCell;
    ListSumNone(e, p, Slot(c, k), list);
    GainedNothing(e, was, c, k);
  }

  /** The loop over the neighbours of cell a. */
  method HalfBox(ghost start: seq<Load>, e: Store, p: Potential, a: int, list: seq<int>, load: array<Load>,
                 energy: real) returns (ePot: real)
    requires Sound(e, p) && 0 <= a < NLocalBoxes(e.g) && a < |e.nAtoms| && IsList(e, list) && load.Length == |e.r|
    requires 0 <= LocalSlots(e) <= |e.r| && energy == Energy(load[..], LocalSlots(e)) && RestKept(e, start, load[..])
    modifies load
    ensures CellsDone(e, p, a, list, |list|, old(load[..]), load[..])
    ensures ePot == Energy(load[..], LocalSlots(e)) && RestKept(e, start, load[..])
  {
    ghost var was := load[..];
    ePot := energy;
    SoundStore(e, p);
    hide *;
    StartCells(e, p, a, list, was);
    for j := 0 to |list|
      invariant CellsDone(e, p, a, list, j, was, load[..]) && ePot == Energy(load[..], LocalSlots(e))
      invariant RestKept(e, start, load[..])
    {
      ListedAt(e, list, j);
      ghost var mid := load[..];
      ePot := HalfCells(start, e, p, a, list[j], load, ePot);
      ListNext(e, p, a, list, j, was, mid, load[..]);
    }
  }

  lemma ListedAt(e: Store, list: seq<int>, j: int)
    requires IsList(e, list) && 0 <= j < |list|
    ensures 0 <= list[j] < |e.nAtoms|
  {
  }

  // ----- the first n cells

  function BoxesSum(e: Store, p: Potential, n: int, c: int, k: int): Load
    requires ValidStore(e) && Good(p) && 0 <= n <= |e.nAtoms| && Holds(e, c, k) && 0 <= Slot(c, k) < |e.r|
  {
    Gain(c < n, Sum(HalfCellVals(e, p, Slot(c, k)), |e.nAtoms|), true, Sum(GivenCellVals(e, p, Slot(c, k)), n))
  }

  ghost predicate BoxesAt(e: Store, p: Potential, n: int, start: seq<Load>, now: seq<Load>, c: int, k: int)
    requires ValidStore(e) && Good(p) && 0 <= n <= |e.nAtoms|
  {
    Holds(e, c, k) && 0 <= Slot(c, k) < |e.r| && Gained(e, start, now, c, k, BoxesSum(e, p, n, c, k))
  }

  ghost predicate HalfDone(e: Store, p: Potential, n: int, start: seq<Load>, now: seq<Load>)
    requires ValidStore(e) && Good(p) && 0 <= n <= |e.nAtoms|
  {
    |start| == |now| == |e.r| && forall c, k :: LocalAtom(e, c, k) ==> BoxesAt(e, p, n, start, now, c, k)
  }

  lemma HalfNextAt(d: Domain, rho: Triple<int>, e: Store, p: Potential, n: int, list: seq<int>,
                   start: seq<Load>, mid: seq<Load>, now: seq<Load>, c: int, k: int)
    requires Located(d, rho, e, p) && ValidStore(e) && 0 <= n < NLocalBoxes(e.g) <= |e.nAtoms| && LocalAtom(e, c, k)
    requires list == NeighborBoxes(e.g, n) && IsList(e, list) && |list| == 27 && Good(p)
    requires BoxesAt(e, p, n, start, mid, c, k) && ListAt(e, p, n, list, 27, mid, now, c, k)
    ensures BoxesAt(e, p, n + 1, start, now, c, k)
  {
    HoldsIs(e, c, k);
    BoxesSumNext(d, rho, e, p, n, list, c, k);
    hide ValidStore, Located, Slot, NLocalBoxes, ListGain, BoxesSum, NeighborBoxes, IsList, LocalAtom, Holds, Gained,
         Good;
    GainedMore(e, start, mid, now, c, k, BoxesSum(e, p, n, c, k), ListGain(e, p, n, list, 27, c, k));
  }

  lemma BoxesSumNext(d: Domain, rho: Triple<int>, e: Store, p: Potential, n: int, list: seq<int>, c: int, k: int)
    requires Located(d, rho, e, p) && ValidStore(e) && 0 <= n < NLocalBoxes(e.g) <= |e.nAtoms| && LocalAtom(e, c, k)
    requires list == NeighborBoxes(e.g, n) && IsList(e, list) && |list| == 27 && Good(p)
    requires Holds(e, c, k) && 0 <= Slot(c, k) < |e.r|
    ensures BoxesSum(e, p, n + 1, c, k) == Plus(BoxesSum(e, p, n, c, k), ListGain(e, p, n, list, 27, c, k))
  {
    var x := Slot(c, k);
    HalfNeighborsSuffice(d, rho, e, p, c, k);
    NeighborsGiven(d, rho, e, p, n, list, c, k);
    var own, given := HalfCellVals(e, p, x), GivenCellVals(e, p, x);
    hide ValidStore, Located, Slot, NLocalBoxes, Sum, Plus, Gain, GivenCell, HalfCell, NeighborBoxes, Met, Listed,
         IsList, LocalAtom, Holds;
    SumNext(given, n);
    BoxGains(c < n, c == n, Sum(own, |own|), ListSum(e, p, x, list, 27), Sum(given, n), Met(list, 27, c), given[n]);
  }

  lemma BoxGains(own: bool, here: bool, x: Load, y: Load, g: Load, met: bool, h: Load)
    requires !(own && here) && (here ==> x == y) && (!met ==> h == NONE)
    ensures Plus(Gain(own, x, true, g), Gain(here, y, met, h)) == Gain(own || here, x, true, Plus(g, h))
  {
  }

  lemma NeighborsGiven(d: Domain, rho: Triple<int>, e: Store, p: Potential, n: int, list: seq<int>, c: int, k: int)
    requires Located(d, rho, e, p) && ValidStore(e) && 0 <= n < NLocalBoxes(e.g) <= |e.nAtoms| && LocalAtom(e, c, k)
    requires list == NeighborBoxes(e.g, n) && |list| == 27 && Good(p) && 0 <= Slot(c, k) < |e.r|
    ensures !Met(list, 27, c) ==> GivenCell(e, p, Slot(c, k), n) == NONE
  {
    HoldsIs(e, c, k);
    LocatedStore(d, rho, e, p);
    hide Located, NeighborBoxes, Slot, GivenCell, NLocalBoxes, NTotalBoxes, ValidStore, LocalAtom, Holds;
    if !Met(list, 27, c) {
      assert c !in list;
      NeighborsMutual(e.g, n, c);
      FarHalfCell(d, rho, e, p, c, k, n);
    }
  }

  lemma HalfNext(d: Domain, rho: Triple<int>, e: Store, p: Potential, n: int, list: seq<int>,
                 start: seq<Load>, mid: seq<Load>, now: seq<Load>)
    requires Located(d, rho, e, p) && ValidStore(e) && 0 <= n < NLocalBoxes(e.g) <= |e.nAtoms|
    requires list == NeighborBoxes(e.g, n) && IsList(e, list) && |list| == 27 && Good(p)
    requires HalfDone(e, p, n, start, mid) && CellsDone(e, p, n, list, 27, mid, now)
    ensures HalfDone(e, p, n + 1, start, now)
  {
    hide *;
    SizesAre(e);
    HalfMeans(e, p, n, start, mid);
    CellsMean(e, p, n, list, 27, mid, now);
    forall c, k | LocalAtom(e, c, k)
      ensures BoxesAt(e, p, n + 1, start, now, c, k)
    {
      HalfNextAt(d, rho, e, p, n, list, start, mid, now, c, k);
    }
    HalfBy(e, p, n + 1, start, now);
  }

  lemma HalfMeans(e: Store, p: Potential, n: int, start: seq<Load>, now: seq<Load>)
    requires ValidStore(e) && Good(p) && 0 <= n <= |e.nAtoms| && HalfDone(e, p, n, start, now)
    ensures |start| == |now| == |e.r| && forall c, k :: LocalAtom(e, c, k) ==> BoxesAt(e, p, n, start, now, c, k)
  {
    hide ValidStore, BoxesAt, LocalAtom;
  }

  lemma HalfBy(e: Store, p: Potential, n: int, start: seq<Load>, now: seq<Load>)
    requires ValidStore(e) && Good(p) && 0 <= n <= |e.nAtoms|
    requires |start| == |now| == |e.r| && forall c, k :: LocalAtom(e, c, k) ==> BoxesAt(e, p, n, start, now, c, k)
    ensures HalfDone(e, p, n, start, now)
  {
    hide ValidStore, BoxesAt, LocalAtom;
  }

  lemma StartHalf(e: Store, p: Potential, start: seq<Load>)
    requires ValidStore(e) && Good(p) && |start| == |e.r|
    ensures HalfDone(e, p, 0, start, start)
  {
    hide *;
    SizesAre(e);
    forall c, k | LocalAtom(e, c, k)
      ensures BoxesAt(e, p, 0, start, start, c, k)
    {
      HoldsIs(e, c, k);
      StartHalfAt(e, p, start, c, k);
    }
    HalfBy(e, p, 0, start, start);
  }

  lemma StartHalfAt(e: Store, p: Potential, start: seq<Load>, c: int, k: int)
    requires ValidStore(e) && Good(p) && |start| == |e.r| && Holds(e, c, k)
    ensures BoxesAt(e, p, 0, start, start, c, k)
  {
    SlotInside(e, c, k);
    hide ValidStore, Slot, Sum, HalfCell, GivenCell, Good;
    SumNone(GivenCellVals(e, p, Slot(c, k)));
    GainedNothing(e, start, c, k);
  }

  lemma HalfAdded(e: Store, p: Potential, start: seq<Load>, now: seq<Load>)
    requires Sound(e, p) && ValidStore(e) && Good(p) && 0 <= NLocalBoxes(e.g) <= |e.nAtoms|
    requires HalfDone(e, p, NLocalBoxes(e.g), start, now) && RestKept(e, start, now)
    ensures Added(e, p, start, now)
  {
    hide Sound, ValidStore, NLocalBoxes, Sum, Plus, Slot, BruteForce, HalfCell, GivenCell, Good;
    SizesAre(e);
    forall c, k | Holds(e, c, k) && c < NLocalBoxes(e.g)
      ensures 0 <= Slot(c, k) < |now| && now[Slot(c, k)] == Plus(start[Slot(c, k)], BruteForce(e, p, Slot(c, k)))
    {
      assert LocalAtom(e, c, k) && BoxesAt(e, p, NLocalBoxes(e.g), start, now, c, k);
      HalvesMakeWhole(e, p, c, k);
    }
  }

  /** The loops over the neighbours and atoms of cell a. */
  method HalfStep(ghost d: Domain, ghost rho: Triple<int>, ghost start: seq<Load>, e: Store, p: Potential, a: int,
                  load: array<Load>, energy: real)
    returns (ePot: real)
    requires Located(d, rho, e, p) && Sound(e, p) && load.Length == |e.r| && ValidStore(e) && Good(p)
    requires 0 <= a < NLocalBoxes(e.g) <= |e.nAtoms| && HalfDone(e, p, a, start, load[..])
    requires 0 <= LocalSlots(e) <= |e.r| && energy == Energy(load[..], LocalSlots(e)) && RestKept(e, start, load[..])
    modifies load
    ensures HalfDone(e, p, a + 1, start, load[..])
    ensures ePot == Energy(load[..], LocalSlots(e)) && RestKept(e, start, load[..])
  {
    SoundStore(e, p);
    hide *;
    var nbrBoxes := GetNeighborBoxes(e.g, a);
    NeighborList(d, rho, e, p, a);
    ghost var mid := load[..];
    ePot := HalfBox(start, e, p, a, nbrBoxes, load, energy);
    HalfNext(d, rho, e, p, a, nbrBoxes, start, mid, load[..]);
  }

  /** The pass. */
  method AddHalfPairs(ghost d: Domain, ghost rho: Triple<int>, e: Store, p: Potential, load: array<Load>, energy: real)
    returns (ePot: real)
    requires Located(d, rho, e, p) && Sound(e, p) && load.Length == |e.r|
    requires 0 <= LocalSlots(e) <= |e.r| && energy == Energy(load[..], LocalSlots(e))
    modifies load
    ensures Added(e, p, old(load[..]), load[..])
    ensures ePot == Energy(load[..], LocalSlots(e))
  {
    SoundStore(e, p);
    ghost var start := load[..];
    hide *;
    StartHalf(e, p, start);
    RestStarts(e, start);
    ePot := energy;
    for a := 0 to NLocalBoxes(e.g)
      invariant HalfDone(e, p, a, start, load[..]) && ePot == Energy(load[..], LocalSlots(e))
      invariant RestKept(e, start, load[..])
    {
      ePot := HalfStep(d, rho, start, e, p, a, load, ePot);
    }
    HalfAdded(e, p, start, load[..]);
  }
}
