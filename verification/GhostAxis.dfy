/** One axis of the ghost-zone exchange: boxes are laid out in a row inside a rank, ranks
    in a row (or a ring) along the axis, and every box carries ghost cells at both ends. */
module GhostAxis {
  import opened Triples

  /** ranks of boxes boxes of dim cells each, with ghosts ghost cells at either end. */
  datatype Layout = Layout(ranks: int, boxes: int, dim: int, ghosts: int, periodic: bool)

  predicate Valid(l: Layout) {
    l.ranks >= 1 && l.boxes >= 1 && l.dim >= 1 && 0 <= l.ghosts <= l.dim
  }

  predicate Step(d: int) {
    -1 <= d <= 1
  }

  predicate InRanks(l: Layout, r: int, b: int) {
    0 <= r < l.ranks && 0 <= b < l.boxes
  }

  // Products are written through Times, so that a proof can choose when the solver sees
  // nonlinear arithmetic.

  function Times(a: int, b: int): int {
    a * b
  }

  lemma TimesAdd(a: int, b: int, c: int)
    ensures Times(a + b, c) == Times(a, c) + Times(b, c)
    ensures Times(c, a + b) == Times(c, a) + Times(c, b)
  {
  }

  lemma TimesSimple(a: int)
    ensures Times(0, a) == Times(a, 0) == 0 && Times(1, a) == Times(a, 1) == a && Times(-1, a) == -a
  {
  }

  lemma TimesAssoc(a: int, b: int, c: int)
    ensures Times(Times(a, b), c) == Times(a, Times(b, c))
  {
  }

  lemma TimesBound(q: int, m: int, r: int, n: int)
    requires 0 <= q < m && 0 <= r < n
    ensures 0 <= Times(q, n) + r < Times(m, n)
  {
    RowMajorBound(q, m, r, n);
  }

  // ----- neighbours

  /** calculate_neighboring_subdomain_index along one axis. */
  function NeighborBox(l: Layout, b: int, d: int): int
    requires Valid(l)
  {
    (b + l.boxes + d) % l.boxes
  }

  /** Whether a step from box b leaves the rank, and to which side. */
  function Leaves(l: Layout, b: int, d: int): int {
    if b + d < 0 then -1 else if b + d >= l.boxes then 1 else 0
  }

  /** The step walks off a domain that is not periodic. */
  predicate OffDomain(l: Layout, r: int, b: int, d: int) {
    !l.periodic && !(0 <= Times(l.boxes, r) + b + d < Times(l.boxes, l.ranks))
  }

  /** calculate_neighboring_subdomain_rank along one axis, inside the domain. */
  function NeighborRank(l: Layout, r: int, b: int, d: int): int
    requires Valid(l)
  {
    (r + Leaves(l, b, d) + l.ranks) % l.ranks
  }

  // ----- positions

  /** The number of cells of a rank along the axis, and of the whole axis. */
  function Span(l: Layout): int {
    Times(l.boxes, l.dim)
  }

  function Cells(l: Layout): int {
    Times(l.ranks, Span(l))
  }

  /** The cell x of a box, counted from its first ghost cell, in the whole domain. */
  function GlobalCell(l: Layout, r: int, b: int, x: int): int {
    Times(Times(r, l.boxes) + b, l.dim) + x - l.ghosts
  }

  lemma GlobalSplit(l: Layout, r: int, b: int, x: int)
    ensures GlobalCell(l, r, b, x) == Times(r, Span(l)) + Times(b, l.dim) + x - l.ghosts
  {
    hide Times;
    TimesAdd(Times(r, l.boxes), b, l.dim);
    TimesAssoc(r, l.boxes, l.dim);
  }

  /** Where the domain keeps a cell of the extended row. */
  function Home(l: Layout, u: int): int
    requires Valid(l)
  {
    CellsPositive(l);
    if l.periodic then u % Cells(l) else u
  }

  lemma CellsPositive(l: Layout)
    requires Valid(l)
    ensures Cells(l) >= 1
  {
    MulMono(1, l.boxes, l.dim);
    MulMono(1, l.ranks, Span(l));
  }

  /** Cells that differ by whole turns of a periodic axis are the same. */
  lemma SameHome(l: Layout, u: int, v: int, k: int)
    requires Valid(l) && u == v + Times(k, Cells(l)) && (l.periodic || k == 0)
    ensures Home(l, u) == Home(l, v)
  {
    CellsPositive(l);
    if l.periodic {
      var n := Cells(l);
      var q, m := v / n, v % n;
      hide Cells;
      assert v == q * n + m;
      assert u == (q + k) * n + m;
      DivModUnique(q + k, m, n);
    }
  }

  // ----- the regions of a box, by direction

  function Length(l: Layout, d: int): int {
    if d == 0 then l.dim else l.ghosts
  }

  /** Where the ghost cells (or, for d == 0, the interior) in direction d start. */
  function GhostStart(l: Layout, d: int): int {
    if d < 0 then 0 else if d == 0 then l.ghosts else l.ghosts + l.dim
  }

  /** Where the interior cells that a neighbour in direction d needs start. */
  function SourceStart(l: Layout, d: int): int {
    if d <= 0 then l.ghosts else l.dim
  }

  /** The direction of the region that cell x of a box lies in. */
  function Side(l: Layout, x: int): int {
    if x < l.ghosts then -1 else if x < l.ghosts + l.dim then 0 else 1
  }

  lemma SideIs(l: Layout, x: int, d: int)
    requires Valid(l) && Step(d) && 0 <= x < l.dim + 2 * l.ghosts
    ensures Step(Side(l, x))
    ensures GhostStart(l, d) <= x < GhostStart(l, d) + Length(l, d) <==> d == Side(l, x)
  {
  }

  lemma SourceInside(l: Layout, d: int, t: int)
    requires Valid(l) && Step(d) && 0 <= t < Length(l, d)
    ensures l.ghosts <= SourceStart(l, d) + t < l.ghosts + l.dim
  {
  }

  // ----- neighbours undo each other, and hold adjacent cells

  lemma NeighborBoxIs(l: Layout, b: int, d: int)
    requires Valid(l) && 0 <= b < l.boxes && Step(d)
    ensures NeighborBox(l, b, d) == b + d - Times(Leaves(l, b, d), l.boxes)
    ensures 0 <= NeighborBox(l, b, d) < l.boxes
  {
    var e := Leaves(l, b, d);
    var c := b + d - e * l.boxes;
    assert b + l.boxes + d == (1 + e) * l.boxes + c;
    DivModUnique(1 + e, c, l.boxes);
  }

  lemma Wraps(l: Layout, r: int, e: int) returns (k: int)
    requires Valid(l) && 0 <= r < l.ranks && Step(e)
    ensures r + e == (r + e + l.ranks) % l.ranks + Times(k, l.ranks)
    ensures 0 <= (r + e + l.ranks) % l.ranks < l.ranks
    ensures 0 <= r + e < l.ranks ==> k == 0
  {
    k := if r + e < 0 then -1 else if r + e >= l.ranks then 1 else 0;
    var s := r + e - k * l.ranks;
    assert r + e + l.ranks == (k + 1) * l.ranks + s;
    DivModUnique(k + 1, s, l.ranks);
  }

  lemma NoWrap(l: Layout, r: int, b: int, d: int)
    requires Valid(l) && InRanks(l, r, b) && Step(d) && !l.periodic
    ensures !OffDomain(l, r, b, d) <==> 0 <= r + Leaves(l, b, d) < l.ranks
  {
    var e := Leaves(l, b, d);
    var c := b + d - e * l.boxes;
    assert l.boxes * r + b + d == (r + e) * l.boxes + c;
    if 0 <= r + e < l.ranks {
      RowMajorBound(r + e, l.ranks, c, l.boxes);
    } else if r + e < 0 {
      MulMono(r + e, -1, l.boxes);
    } else {
      MulMono(l.ranks, r + e, l.boxes);
    }
  }

  lemma LeavesStep(l: Layout, b: int, d: int)
    requires Valid(l) && 0 <= b < l.boxes && Step(d)
    ensures Step(Leaves(l, b, d))
    ensures Leaves(l, b, d) == 0 || Leaves(l, b, d) == d
  {
  }

  /** The neighbour's rank is the next one on the side that the step leaves by, up to
      whole turns. */
  lemma NeighborTurns(l: Layout, r: int, b: int, d: int) returns (k: int)
    requires Valid(l) && InRanks(l, r, b) && Step(d) && !OffDomain(l, r, b, d)
    ensures InRanks(l, NeighborRank(l, r, b, d), NeighborBox(l, b, d))
    ensures r + Leaves(l, b, d) == NeighborRank(l, r, b, d) + Times(k, l.ranks)
    ensures l.periodic || k == 0
  {
    hide Times;
    NeighborBoxIs(l, b, d);
    k := Wraps(l, r, Leaves(l, b, d));
    if !l.periodic {
      NoWrap(l, r, b, d);
    }
  }

  /** The way back leads back. */
  lemma NeighborsUndo(l: Layout, r: int, b: int, d: int)
    requires Valid(l) && InRanks(l, r, b) && Step(d) && !OffDomain(l, r, b, d)
    ensures InRanks(l, NeighborRank(l, r, b, d), NeighborBox(l, b, d))
    ensures !OffDomain(l, NeighborRank(l, r, b, d), NeighborBox(l, b, d), -d)
    ensures NeighborBox(l, NeighborBox(l, b, d), -d) == b
    ensures NeighborRank(l, NeighborRank(l, r, b, d), NeighborBox(l, b, d), -d) == r
    ensures Leaves(l, NeighborBox(l, b, d), -d) == -Leaves(l, b, d)
  {
    var s, c, e := NeighborRank(l, r, b, d), NeighborBox(l, b, d), Leaves(l, b, d);
    var w := NeighborTurns(l, r, b, d);
    NeighborBoxIs(l, b, d);
    LeavesBack(l, b, d);
    NeighborBoxIs(l, c, -d);
    TimesSimple(l.boxes);
    var v := Wraps(l, s, -e);
    RankBack(l, r, s, e, w, v);
    if !l.periodic {
      NoWrap(l, r, b, d);
      NoWrap(l, s, c, -d);
    }
  }

  lemma RankBack(l: Layout, r: int, s: int, e: int, w: int, v: int)
    requires Valid(l) && 0 <= r < l.ranks
    requires r + e == s + Times(w, l.ranks) && s - e == (s - e + l.ranks) % l.ranks + Times(v, l.ranks)
    requires 0 <= (s - e + l.ranks) % l.ranks < l.ranks
    ensures (s - e + l.ranks) % l.ranks == r
  {
    var q := (s - e + l.ranks) % l.ranks;
    assert r == (v + w) * l.ranks + q;
    DivModUnique(v + w, q, l.ranks);
    DivModUnique(0, r, l.ranks);
  }

  lemma LeavesBack(l: Layout, b: int, d: int)
    requires Valid(l) && 0 <= b < l.boxes && Step(d)
    ensures Leaves(l, b + d - Times(Leaves(l, b, d), l.boxes), -d) == -Leaves(l, b, d)
  {
  }

  lemma LengthBack(l: Layout, d: int)
    requires Step(d)
    ensures Length(l, -d) == Length(l, d)
    ensures SourceStart(l, d) == Times(d, l.dim) + GhostStart(l, -d)
  {
  }

  /** Going k turns of the ranks is going k turns of the cells. */
  lemma TurnCells(l: Layout, r: int, e: int, s: int, k: int)
    requires r + e == s + Times(k, l.ranks)
    ensures Times(r, Span(l)) + Times(e, Span(l)) == Times(s, Span(l)) + Times(k, Cells(l))
  {
    hide Times;
    TimesAdd(r, e, Span(l));
    TimesAdd(s, Times(k, l.ranks), Span(l));
    TimesAssoc(k, l.ranks, Span(l));
  }

  /** The source cells of a box are the ghost cells of its neighbour. */
  lemma SourceIsGhost(l: Layout, r: int, b: int, d: int, t: int)
    requires Valid(l) && InRanks(l, r, b) && Step(d) && !OffDomain(l, r, b, d) && 0 <= t < Length(l, d)
    ensures Home(l, GlobalCell(l, r, b, SourceStart(l, d) + t)) ==
            Home(l, GlobalCell(l, NeighborRank(l, r, b, d), NeighborBox(l, b, d), GhostStart(l, -d) + t))
  {
    var s, c, e := NeighborRank(l, r, b, d), NeighborBox(l, b, d), Leaves(l, b, d);
    var k := NeighborTurns(l, r, b, d);
    hide Times, GlobalCell, Home, Cells;
    LengthBack(l, d);
    NeighborBoxIs(l, b, d);
    TurnCells(l, r, e, s, k);
    GlobalSplit(l, r, b, SourceStart(l, d) + t);
    GlobalSplit(l, s, c, GhostStart(l, -d) + t);
    TimesAdd(b, d, l.dim);
    TimesAdd(c, Times(e, l.boxes), l.dim);
    TimesAssoc(e, l.boxes, l.dim);
    SameHome(l, GlobalCell(l, r, b, SourceStart(l, d) + t), GlobalCell(l, s, c, GhostStart(l, -d) + t), k);
  }

  // ----- message buffers

  /** The extent of a message in direction d. */
  function BufferLength(l: Layout, d: int): int {
    if d == 0 then Span(l) else l.ghosts
  }

  /** The global cell that place u of the buffer for direction d holds. */
  function BufferCell(l: Layout, r: int, d: int, u: int): int {
    if d <= 0 then Times(r, Span(l)) + u else Times(r + 1, Span(l)) - l.ghosts + u
  }

  /** The boxes that border a rank in direction d. */
  function FirstBox(l: Layout, d: int): int {
    if d <= 0 then 0 else l.boxes - 1
  }

  function BoxesAcross(l: Layout, d: int): int {
    if d == 0 then l.boxes else 1
  }

  predicate Borders(l: Layout, b: int, d: int) {
    FirstBox(l, d) <= b < FirstBox(l, d) + BoxesAcross(l, d)
  }

  /** Where box b's part of the buffer starts. */
  function PackStart(l: Layout, b: int, d: int): int {
    Times(Length(l, d), b - FirstBox(l, d))
  }

  lemma BordersLeave(l: Layout, b: int, d: int)
    requires Valid(l) && Step(d) && Borders(l, b, d)
    ensures 0 <= b < l.boxes && Leaves(l, b, d) == d
  {
  }

  lemma PackStartIs(l: Layout, b: int, d: int)
    requires Valid(l) && Step(d) && Borders(l, b, d)
    ensures d == 0 ==> PackStart(l, b, d) == Times(b, l.dim)
    ensures d != 0 ==> PackStart(l, b, d) == 0
  {
  }

  /** A box packs its source cells where the buffer keeps them. */
  lemma PackedCell(l: Layout, r: int, b: int, d: int, t: int)
    requires Valid(l) && InRanks(l, r, b) && Step(d) && Borders(l, b, d) && 0 <= t < Length(l, d)
    ensures 0 <= PackStart(l, b, d) + t < BufferLength(l, d)
    ensures BufferCell(l, r, d, PackStart(l, b, d) + t) == GlobalCell(l, r, b, SourceStart(l, d) + t)
  {
    hide Times, GlobalCell, PackStart;
    PackStartIs(l, b, d);
    GlobalSplit(l, r, b, SourceStart(l, d) + t);
    TimesSimple(l.dim);
    TimesSimple(Span(l));
    if d == 0 {
      TimesBound(b, l.boxes, t, l.dim);
    } else if d > 0 {
      TimesAdd(r, 1, Span(l));
      TimesAdd(b, 1, l.dim);
    }
  }

  /** Every place of the buffer is packed by a box. */
  lemma PackedBy(l: Layout, d: int, u: int) returns (b: int, t: int)
    requires Valid(l) && Step(d) && 0 <= u < BufferLength(l, d)
    ensures Borders(l, b, d) && 0 <= t < Length(l, d) && u == PackStart(l, b, d) + t
  {
    if d == 0 {
      b, t := u / l.dim, u % l.dim;
      RowMajorSplit(u, l.boxes, l.dim);
    } else {
      b, t := FirstBox(l, d), u;
    }
    PackStartIs(l, b, d);
  }

  /** Where the unpacking of box b's ghost cells in direction d starts in the buffer of
      the side it leaves the rank by. */
  function UnpackStart(l: Layout, b: int, d: int): int {
    if Leaves(l, b, d) != 0 then 0
    else Times(b, l.dim) + if d < 0 then -l.ghosts else if d > 0 then l.dim else 0
  }

  /** A box unpacks into its ghost cells what the buffer holds for them; the buffer came
      from the rank it leaves to, packed for the opposite direction. */
  lemma UnpackedCell(l: Layout, r: int, b: int, d: int, t: int)
    requires Valid(l) && InRanks(l, r, b) && Step(d) && !OffDomain(l, r, b, d) && 0 <= t < Length(l, d)
    ensures 0 <= UnpackStart(l, b, d) + t < BufferLength(l, -Leaves(l, b, d))
    ensures Home(l, BufferCell(l, NeighborRank(l, r, b, d), -Leaves(l, b, d), UnpackStart(l, b, d) + t)) ==
            Home(l, GlobalCell(l, r, b, GhostStart(l, d) + t))
  {
    var e, s, u := Leaves(l, b, d), NeighborRank(l, r, b, d), UnpackStart(l, b, d) + t;
    var k := NeighborTurns(l, r, b, d);
    hide Times, GlobalCell, Home, Cells, BufferCell;
    UnpackBound(l, b, d, t);
    UnpackTurns(l, r, b, d, t, s, k);
    SameHome(l, GlobalCell(l, r, b, GhostStart(l, d) + t), BufferCell(l, s, -e, u), k);
  }

  lemma UnpackBound(l: Layout, b: int, d: int, t: int)
    requires Valid(l) && 0 <= b < l.boxes && Step(d) && 0 <= t < Length(l, d)
    ensures 0 <= UnpackStart(l, b, d) + t < BufferLength(l, -Leaves(l, b, d))
  {
    hide Times;
    if Leaves(l, b, d) == 0 {
      TimesSimple(l.dim);
      TimesAdd(b - 1, 1, l.dim);
      TimesAdd(b, 1, l.dim);
      if d < 0 {
        TimesBound(b - 1, l.boxes, l.dim - l.ghosts + t, l.dim);
      } else if d == 0 {
        TimesBound(b, l.boxes, t, l.dim);
      } else {
        TimesBound(b + 1, l.boxes, t, l.dim);
      }
    }
  }

  lemma UnpackTurns(l: Layout, r: int, b: int, d: int, t: int, s: int, k: int)
    requires Valid(l) && InRanks(l, r, b) && Step(d) && 0 <= t < Length(l, d)
    requires r + Leaves(l, b, d) == s + Times(k, l.ranks)
    ensures GlobalCell(l, r, b, GhostStart(l, d) + t) ==
            BufferCell(l, s, -Leaves(l, b, d), UnpackStart(l, b, d) + t) + Times(k, Cells(l))
  {
    hide Times, GlobalCell, Cells;
    var e := Leaves(l, b, d);
    GlobalSplit(l, r, b, GhostStart(l, d) + t);
    TurnCells(l, r, e, s, k);
    TimesSimple(Span(l));
    TimesSimple(l.dim);
    TimesAdd(s, 1, Span(l));
    if e == 1 {
      TimesAdd(b, 1, l.dim);
    }
  }

  // ----- coarser levels

  /** n >> level */
  function Halved(n: int, level: nat): int {
    if level == 0 then n else Halved(n, level - 1) / 2
  }

  lemma {:induction false} HalvedMono(n: int, level: nat, last: nat)
    requires level <= last && Halved(n, last) >= 0
    ensures Halved(n, level) >= Halved(n, last)
    decreases last - level
  {
    if level < last {
      HalvedMono(n, level + 1, last);
    }
  }

  /** The axis at a coarser level: the same boxes with halved extents and as many ghost
      cells. */
  function AtLevel(l: Layout, level: nat): Layout {
    Layout(l.ranks, l.boxes, Halved(l.dim, level), l.ghosts, l.periodic)
  }

  /** When the ghost cells fit the boxes of the coarsest level, as create_domain demands,
      every level is a layout of its own. */
  lemma EveryLevelValid(l: Layout, levels: nat, level: nat)
    requires Valid(l) && level < levels && 1 <= Halved(l.dim, levels - 1) && l.ghosts <= Halved(l.dim, levels - 1)
    ensures Valid(AtLevel(l, level))
  {
    HalvedMono(l.dim, level, levels - 1);
  }
}
