/** The copies that make up a ghost-zone exchange: into message buffers, between boxes of
    the rank, and out of message buffers. */
module GhostPlan {
  import opened Triples
  import opened GhostAxis
  import opened BoxLayout
  import opened BufferCopies
  import CL = CellLists

  type Mesh = Triple<Layout>

  predicate ValidMesh(m: Mesh) {
    Valid(m.x) && Valid(m.y) && Valid(m.z)
  }

  /** Directions: one step or none along each axis. */
  predicate Direction(d: Triple<int>) {
    Step(d.x) && Step(d.y) && Step(d.z)
  }

  const STAY := Triple(0, 0, 0)

  function Negated(d: Triple<int>): Triple<int> {
    Triple(-d.x, -d.y, -d.z)
  }

  function Number(d: Triple<int>): int {
    13 + d.x + 3 * d.y + 9 * d.z
  }

  function DirectionOf(n: int): Triple<int> {
    Triple((n / 1) % 3 - 1, (n / 3) % 3 - 1, (n / 9) % 3 - 1)
  }

  /** The base-3 digits of a number. */
  lemma Digits(a: int, b: int, c: int)
    requires 0 <= a < 3 && 0 <= b < 3 && 0 <= c < 3
    ensures (a + 3 * b + 9 * c) % 3 == a
    ensures ((a + 3 * b + 9 * c) / 3) % 3 == b
    ensures ((a + 3 * b + 9 * c) / 9) % 3 == c
  {
    DivModUnique(b + 3 * c, a, 3);
    DivModUnique(c, b, 3);
    DivModUnique(c, a + 3 * b, 9);
  }

  lemma DigitsOf(n: int)
    requires 0 <= n < 27
    ensures n == n % 3 + 3 * ((n / 3) % 3) + 9 * ((n / 9) % 3)
  {
  }

  /** Directions and their numbers determine each other, and opposite directions have
      numbers that add up to 26. */
  lemma NumberRoundTrip(d: Triple<int>, n: int)
    requires Direction(d) && 0 <= n < 27
    ensures 0 <= Number(d) < 27 && DirectionOf(Number(d)) == d
    ensures Direction(DirectionOf(n)) && Number(DirectionOf(n)) == n
    ensures Number(Negated(d)) == 26 - Number(d)
  {
    Digits(d.x + 1, d.y + 1, d.z + 1);
    assert Number(d) == (d.x + 1) + 3 * (d.y + 1) + 9 * (d.z + 1);
    DigitsOf(n);
  }

  const FACES_EDGES_CORNERS: seq<int> :=
    [4, 10, 12, 14, 16, 22, 1, 3, 5, 7, 9, 11, 15, 17, 19, 21, 23, 25, 0, 2, 6, 8, 18, 20, 24, 26, 13]

  /** The k-th direction that the plan looks at. */
  function DirectionAt(k: nat): Triple<int>
    requires k < 26
  {
    DirectionOf(FACES_EDGES_CORNERS[k])
  }

  const PLACES: seq<int> :=
    [18, 6, 19, 7, 0, 8, 20, 9, 21, 10, 1, 11, 2, 26, 3, 12, 4, 13, 22, 14, 23, 15, 5, 16, 24, 17, 25]

  lemma PlaceOf(k: nat)
    requires k < 26
    ensures 0 <= FACES_EDGES_CORNERS[k] < 27 && FACES_EDGES_CORNERS[k] != 13 && PLACES[FACES_EDGES_CORNERS[k]] == k
  {
  }

  lemma PlaceHas(n: int)
    requires 0 <= n < 27 && n != 13
    ensures |PLACES| == 27 && |FACES_EDGES_CORNERS| == 27
    ensures 0 <= PLACES[n] < 26 && FACES_EDGES_CORNERS[PLACES[n]] == n
  {
  }

  /** The plan looks at 26 different directions. */
  lemma DirectionAtIs(k: nat)
    requires k < 26
    ensures Direction(DirectionAt(k)) && DirectionAt(k) != STAY
    ensures Number(DirectionAt(k)) == FACES_EDGES_CORNERS[k]
  {
    PlaceOf(k);
    var n := FACES_EDGES_CORNERS[k];
    NumberRoundTrip(STAY, n);
  }

  lemma DirectionsDiffer(j: nat, k: nat)
    requires j < k < 26
    ensures DirectionAt(j) != DirectionAt(k)
  {
    DirectionAtIs(j);
    DirectionAtIs(k);
    PlaceOf(j);
    PlaceOf(k);
    hide DirectionAt, Number, Direction;
  }

  lemma NotStaying(d: Triple<int>)
    requires Direction(d)
    ensures 0 <= Number(d) < 27 && (Number(d) == 13 <==> d == STAY)
  {
  }

  lemma DirectionWith(k: nat, d: Triple<int>)
    requires k < 26 && Direction(d) && FACES_EDGES_CORNERS[k] == Number(d)
    ensures DirectionAt(k) == d
  {
    NumberRoundTrip(d, 13);
    hide Number, Direction, DirectionOf;
  }

  /** It looks at every direction. */
  lemma EveryDirection(d: Triple<int>) returns (k: nat)
    requires Direction(d) && d != STAY
    ensures k < 26 && DirectionAt(k) == d
  {
    hide *;
    NotStaying(d);
    PlaceHas(Number(d));
    k := PLACES[Number(d)];
    DirectionWith(k, d);
  }

  // ----- ranks and boxes by coordinates

  predicate RankCoord(m: Mesh, r: Triple<int>) {
    0 <= r.x < m.x.ranks && 0 <= r.y < m.y.ranks && 0 <= r.z < m.z.ranks
  }

  predicate BoxCoord(m: Mesh, b: Triple<int>) {
    0 <= b.x < m.x.boxes && 0 <= b.y < m.y.boxes && 0 <= b.z < m.z.boxes
  }

  function RankNumber(m: Mesh, r: Triple<int>): int {
    r.x + Times(r.y, m.x.ranks) + Times(r.z, Times(m.x.ranks, m.y.ranks))
  }

  function BoxNumber(m: Mesh, b: Triple<int>): int {
    b.x + Times(b.y, m.x.boxes) + Times(b.z, Times(m.x.boxes, m.y.boxes))
  }

  function RankShape(m: Mesh): Shape {
    Shape(m.x.ranks, Times(m.x.ranks, m.y.ranks), Times(m.z.ranks, Times(m.x.ranks, m.y.ranks)))
  }

  function BoxShape(m: Mesh): Shape {
    Shape(m.x.boxes, Times(m.x.boxes, m.y.boxes), Times(m.z.boxes, Times(m.x.boxes, m.y.boxes)))
  }

  lemma NumberedRanks(m: Mesh, r: Triple<int>, q: Triple<int>)
    requires ValidMesh(m) && RankCoord(m, r) && RankCoord(m, q)
    ensures 0 <= RankNumber(m, r) < RankShape(m).volume
    ensures RankNumber(m, r) == RankNumber(m, q) ==> r == q
  {
    var e := Triple(m.x.ranks, m.y.ranks, m.z.ranks);
    TimesSwap(m.y.ranks, m.x.ranks);
    hide Times;
    IndexInside(RankShape(m), e, r);
    if RankNumber(m, r) == RankNumber(m, q) {
      IndexInjective(RankShape(m), e, r, q);
    }
  }

  lemma TimesSwap(a: int, b: int)
    ensures Times(a, b) == Times(b, a)
  {
  }

  lemma NumberedBoxes(m: Mesh, b: Triple<int>, c: Triple<int>)
    requires ValidMesh(m) && BoxCoord(m, b) && BoxCoord(m, c)
    ensures 0 <= BoxNumber(m, b) < BoxShape(m).volume
    ensures BoxNumber(m, b) == BoxNumber(m, c) ==> b == c
  {
    var e := Triple(m.x.boxes, m.y.boxes, m.z.boxes);
    TimesSwap(m.y.boxes, m.x.boxes);
    hide Times;
    IndexInside(BoxShape(m), e, b);
    if BoxNumber(m, b) == BoxNumber(m, c) {
      IndexInjective(BoxShape(m), e, b, c);
    }
  }

  // ----- neighbours

  predicate Off(m: Mesh, r: Triple<int>, b: Triple<int>, d: Triple<int>) {
    OffDomain(m.x, r.x, b.x, d.x) || OffDomain(m.y, r.y, b.y, d.y) || OffDomain(m.z, r.z, b.z, d.z)
  }

  function RankOver(m: Mesh, r: Triple<int>, b: Triple<int>, d: Triple<int>): Triple<int>
    requires ValidMesh(m)
  {
    Triple(NeighborRank(m.x, r.x, b.x, d.x), NeighborRank(m.y, r.y, b.y, d.y), NeighborRank(m.z, r.z, b.z, d.z))
  }

  function BoxOver(m: Mesh, b: Triple<int>, d: Triple<int>): Triple<int>
    requires ValidMesh(m)
  {
    Triple(NeighborBox(m.x, b.x, d.x), NeighborBox(m.y, b.y, d.y), NeighborBox(m.z, b.z, d.z))
  }

  /** calculate_neighboring_subdomain_rank */
  function NeighboringRank(m: Mesh, r: Triple<int>, b: Triple<int>, d: Triple<int>): int
    requires ValidMesh(m)
  {
    if Off(m, r, b, d) then -1 else RankNumber(m, RankOver(m, r, b, d))
  }

  /** calculate_neighboring_subdomain_index */
  function NeighboringIndex(m: Mesh, b: Triple<int>, d: Triple<int>): int
    requires ValidMesh(m)
  {
    BoxNumber(m, BoxOver(m, b, d))
  }

  lemma AxisUndo(l: Layout, r: int, b: int, d: int)
    requires Valid(l) && InRanks(l, r, b) && Step(d) && !OffDomain(l, r, b, d)
    ensures InRanks(l, NeighborRank(l, r, b, d), NeighborBox(l, b, d))
    ensures !OffDomain(l, NeighborRank(l, r, b, d), NeighborBox(l, b, d), -d)
    ensures NeighborBox(l, NeighborBox(l, b, d), -d) == b
    ensures NeighborRank(l, NeighborRank(l, r, b, d), NeighborBox(l, b, d), -d) == r
    ensures Leaves(l, NeighborBox(l, b, d), -d) == -Leaves(l, b, d)
  {
    NeighborsUndo(l, r, b, d);
  }

  /** Box b of rank r is the neighbour of its neighbour, in the opposite direction. */
  lemma OverAndBack(m: Mesh, r: Triple<int>, b: Triple<int>, d: Triple<int>)
    requires ValidMesh(m) && RankCoord(m, r) && BoxCoord(m, b) && Direction(d) && !Off(m, r, b, d)
    ensures RankCoord(m, RankOver(m, r, b, d)) && BoxCoord(m, BoxOver(m, b, d))
    ensures !Off(m, RankOver(m, r, b, d), BoxOver(m, b, d), Negated(d))
    ensures BoxOver(m, BoxOver(m, b, d), Negated(d)) == b
    ensures RankOver(m, RankOver(m, r, b, d), BoxOver(m, b, d), Negated(d)) == r
  {
    hide OffDomain, NeighborBox, NeighborRank, Leaves;
    AxisUndo(m.x, r.x, b.x, d.x);
    AxisUndo(m.y, r.y, b.y, d.y);
    AxisUndo(m.z, r.z, b.z, d.z);
  }

  /** The number tells whether the neighbour is on this rank, on another one, or off the
      domain. */
  lemma NeighboringRankTells(m: Mesh, r: Triple<int>, b: Triple<int>, d: Triple<int>)
    requires ValidMesh(m) && RankCoord(m, r) && BoxCoord(m, b) && Direction(d)
    ensures NeighboringRank(m, r, b, d) == -1 <==> Off(m, r, b, d)
    ensures NeighboringRank(m, r, b, d) == RankNumber(m, r) <==> !Off(m, r, b, d) && RankOver(m, r, b, d) == r
  {
    hide Off, RankOver, RankNumber;
    NumberedRanks(m, r, r);
    if !Off(m, r, b, d) {
      OverAndBack(m, r, b, d);
      NumberedRanks(m, RankOver(m, r, b, d), r);
    }
  }

  // ----- the copies of one box in one direction

  function Lengths(m: Mesh, d: Triple<int>): Triple<int> {
    Triple(Length(m.x, d.x), Length(m.y, d.y), Length(m.z, d.z))
  }

  function GhostStarts(m: Mesh, d: Triple<int>): Triple<int> {
    Triple(GhostStart(m.x, d.x), GhostStart(m.y, d.y), GhostStart(m.z, d.z))
  }

  function SourceStarts(m: Mesh, d: Triple<int>): Triple<int> {
    Triple(SourceStart(m.x, d.x), SourceStart(m.y, d.y), SourceStart(m.z, d.z))
  }

  function PackStarts(m: Mesh, b: Triple<int>, d: Triple<int>): Triple<int> {
    Triple(PackStart(m.x, b.x, d.x), PackStart(m.y, b.y, d.y), PackStart(m.z, b.z, d.z))
  }

  function UnpackStarts(m: Mesh, b: Triple<int>, d: Triple<int>): Triple<int> {
    Triple(UnpackStart(m.x, b.x, d.x), UnpackStart(m.y, b.y, d.y), UnpackStart(m.z, b.z, d.z))
  }

  /** The side of the rank that a step from box b leaves by. */
  function LeavesBy(m: Mesh, b: Triple<int>, d: Triple<int>): Triple<int> {
    Triple(Leaves(m.x, b.x, d.x), Leaves(m.y, b.y, d.y), Leaves(m.z, b.z, d.z))
  }

  /** The extent of the message in direction d, and how it is laid out. */
  function BufferExtent(m: Mesh, d: Triple<int>): Triple<int> {
    Triple(BufferLength(m.x, d.x), BufferLength(m.y, d.y), BufferLength(m.z, d.z))
  }

  function BufferShape(m: Mesh, d: Triple<int>): Shape {
    var e := BufferExtent(m, d);
    Shape(e.x, Times(e.y, e.x), Times(e.z, Times(e.y, e.x)))
  }

  datatype Kind = Pack | Local | Unpack

  function CopyFor(kind: Kind, m: Mesh, s: Shape, d: Triple<int>, b: Triple<int>): Copy
    requires ValidMesh(m)
  {
    match kind
    case Pack =>
      Copy(Lengths(m, d), Grid(BoxNumber(m, b)), SourceStarts(m, d), s,
           Buffer(Number(d)), PackStarts(m, b, d), BufferShape(m, d))
    case Local =>
      Copy(Lengths(m, d), Grid(BoxNumber(m, b)), SourceStarts(m, d), s,
           Grid(NeighboringIndex(m, b, d)), GhostStarts(m, Negated(d)), s)
    case Unpack =>
      var e := LeavesBy(m, b, d);
      Copy(Lengths(m, d), Buffer(Number(e)), UnpackStarts(m, b, d), BufferShape(m, e),
           Grid(BoxNumber(m, b)), GhostStarts(m, d), s)
  }

  /** The neighbour in direction d is on another rank: what packing and unpacking are
      for; on the same rank: what local copies are for. */
  predicate Remote(m: Mesh, r: Triple<int>, b: Triple<int>, d: Triple<int>)
    requires ValidMesh(m)
  {
    !Off(m, r, b, d) && RankOver(m, r, b, d) != r
  }

  predicate OnNode(m: Mesh, r: Triple<int>, b: Triple<int>, d: Triple<int>)
    requires ValidMesh(m)
  {
    !Off(m, r, b, d) && RankOver(m, r, b, d) == r
  }

  function Wanted(kind: Kind, m: Mesh, r: Triple<int>, d: Triple<int>, b: Triple<int>): bool
    requires ValidMesh(m)
  {
    if kind == Local then OnNode(m, r, b, d) else Remote(m, r, b, d)
  }

  /** The boxes that are traversed: only those on the side, for packing. */
  function LowBox(kind: Kind, m: Mesh, d: Triple<int>): Triple<int> {
    if kind == Pack then Triple(FirstBox(m.x, d.x), FirstBox(m.y, d.y), FirstBox(m.z, d.z)) else Triple(0, 0, 0)
  }

  function HighBox(kind: Kind, m: Mesh, d: Triple<int>): Triple<int> {
    if kind == Pack then
      Triple(FirstBox(m.x, d.x) + BoxesAcross(m.x, d.x), FirstBox(m.y, d.y) + BoxesAcross(m.y, d.y),
             FirstBox(m.z, d.z) + BoxesAcross(m.z, d.z))
    else
      Triple(m.x.boxes, m.y.boxes, m.z.boxes)
  }

  // ----- the lists

  /** A copy of the plan is known by its direction and its box. */
  datatype Tag = Tag(d: Triple<int>, b: Triple<int>)

  function Flip(t: Triple<int>): Triple<int> {
    Triple(t.z, t.y, t.x)
  }

  /** The boxes in the order the loops visit them, k slowest, as (k, j, i). */
  function Visits(kind: Kind, m: Mesh, d: Triple<int>): seq<Triple<int>> {
    CL.Block(Flip(LowBox(kind, m, d)), Flip(HighBox(kind, m, d)))
  }

  function TagsIn(kind: Kind, m: Mesh, r: Triple<int>, d: Triple<int>, visits: seq<Triple<int>>): seq<Tag>
    requires ValidMesh(m)
  {
    if visits == [] then
      []
    else
      var b := Flip(visits[|visits| - 1]);
      TagsIn(kind, m, r, d, visits[..|visits| - 1]) + if Wanted(kind, m, r, d, b) then [Tag(d, b)] else []
  }

  function TagsUpTo(kind: Kind, m: Mesh, r: Triple<int>, nn: nat): seq<Tag>
    requires ValidMesh(m) && nn <= 26
  {
    if nn == 0 then
      []
    else
      var d := DirectionAt(nn - 1);
      TagsUpTo(kind, m, r, nn - 1) + TagsIn(kind, m, r, d, Visits(kind, m, d))
  }

  function AllTags(kind: Kind, m: Mesh, r: Triple<int>): seq<Tag>
    requires ValidMesh(m)
  {
    TagsUpTo(kind, m, r, 26)
  }

  function CopiesOf(kind: Kind, m: Mesh, s: Shape, tags: seq<Tag>): (copies: seq<Copy>)
    requires ValidMesh(m)
    ensures |copies| == |tags|
    ensures forall q :: 0 <= q < |tags| ==> copies[q] == CopyFor(kind, m, s, tags[q].d, tags[q].b)
  {
    seq(|tags|, q requires 0 <= q < |tags| => CopyFor(kind, m, s, tags[q].d, tags[q].b))
  }

  lemma TagsSnoc(kind: Kind, m: Mesh, r: Triple<int>, d: Triple<int>, visits: seq<Triple<int>>, t: Triple<int>)
    requires ValidMesh(m)
    ensures TagsIn(kind, m, r, d, visits + [t]) ==
            TagsIn(kind, m, r, d, visits) + if Wanted(kind, m, r, d, Flip(t)) then [Tag(d, Flip(t))] else []
  {
    hide Wanted, Flip;
    assert (visits + [t])[..|visits|] == visits;
  }

  lemma {:induction false} TagsInFacts(kind: Kind, m: Mesh, r: Triple<int>, d: Triple<int>, visits: seq<Triple<int>>)
    requires ValidMesh(m) && CL.Distinct(visits)
    ensures forall g :: g in TagsIn(kind, m, r, d, visits) <==>
              g.d == d && Flip(g.b) in visits && Wanted(kind, m, r, d, g.b)
    ensures CL.Distinct(TagsIn(kind, m, r, d, visits))
  {
    if visits != [] {
      var n := |visits| - 1;
      var head, t := visits[..n], visits[n];
      hide Wanted;
      TagsInFacts(kind, m, r, d, head);
      TagsSnoc(kind, m, r, d, head, t);
      assert visits == head + [t];
      assert t !in head;
      assert Flip(Flip(t)) == t;
      CL.DistinctConcat(TagsIn(kind, m, r, d, head), if Wanted(kind, m, r, d, Flip(t)) then [Tag(d, Flip(t))] else []);
    }
  }

  lemma VisitsFacts(kind: Kind, m: Mesh, d: Triple<int>)
    ensures CL.Distinct(Visits(kind, m, d))
    ensures forall b :: Flip(b) in Visits(kind, m, d) <==> InRange(LowBox(kind, m, d), b, HighBox(kind, m, d))
  {
    hide LowBox, HighBox;
    CL.BlockFacts(Flip(LowBox(kind, m, d)), Flip(HighBox(kind, m, d)));
  }

  /** The box is traversed in that direction, and its neighbour there wants the copy. */
  ghost predicate Eligible(kind: Kind, m: Mesh, r: Triple<int>, g: Tag)
    requires ValidMesh(m)
  {
    InRange(LowBox(kind, m, g.d), g.b, HighBox(kind, m, g.d)) && Wanted(kind, m, r, g.d, g.b)
  }

  lemma DirectionTags(kind: Kind, m: Mesh, r: Triple<int>, d: Triple<int>)
    requires ValidMesh(m)
    ensures CL.Distinct(TagsIn(kind, m, r, d, Visits(kind, m, d)))
    ensures forall g :: g in TagsIn(kind, m, r, d, Visits(kind, m, d)) <==> g.d == d && Eligible(kind, m, r, g)
  {
    hide Wanted, LowBox, HighBox, Visits, TagsIn;
    VisitsFacts(kind, m, d);
    TagsInFacts(kind, m, r, d, Visits(kind, m, d));
  }

  ghost predicate Among(nn: nat, d: Triple<int>)
    requires nn <= 26
  {
    exists k :: 0 <= k < nn && DirectionAt(k) == d
  }

  lemma AmongNext(nn: nat, d: Triple<int>)
    requires nn < 26
    ensures Among(nn + 1, d) <==> Among(nn, d) || d == DirectionAt(nn)
    ensures !Among(0, d)
  {
    hide DirectionAt;
    if Among(nn, d) {
      var k :| 0 <= k < nn && DirectionAt(k) == d;
      assert 0 <= k < nn + 1 && DirectionAt(k) == d;
    }
    if d == DirectionAt(nn) {
      assert 0 <= nn < nn + 1 && DirectionAt(nn) == d;
    }
  }

  lemma NotYetAmong(nn: nat)
    requires nn < 26
    ensures !Among(nn, DirectionAt(nn))
  {
    hide DirectionAt;
    if Among(nn, DirectionAt(nn)) {
      var k :| 0 <= k < nn && DirectionAt(k) == DirectionAt(nn);
      DirectionsDiffer(k, nn);
    }
  }

  /** The tags of the first nn directions. */
  function Tags(kind: Kind, m: Mesh, r: Triple<int>, nn: nat): seq<Tag>
    requires ValidMesh(m) && nn <= 26
  {
    TagsUpTo(kind, m, r, nn)
  }

  lemma TagsNext(kind: Kind, m: Mesh, r: Triple<int>, nn: nat)
    requires ValidMesh(m) && nn < 26
    ensures Tags(kind, m, r, nn + 1) ==
            Tags(kind, m, r, nn) + TagsIn(kind, m, r, DirectionAt(nn), Visits(kind, m, DirectionAt(nn)))
  {
    hide Visits, TagsIn, DirectionAt;
  }

  lemma TagsNone(kind: Kind, m: Mesh, r: Triple<int>)
    requires ValidMesh(m)
    ensures Tags(kind, m, r, 0) == []
  {
  }

  lemma {:induction false} TagsHas(kind: Kind, m: Mesh, r: Triple<int>, nn: nat, g: Tag)
    requires ValidMesh(m) && nn <= 26
    ensures g in Tags(kind, m, r, nn) <==> Among(nn, g.d) && Eligible(kind, m, r, g)
  {
    hide *;
    if nn == 0 {
      TagsNone(kind, m, r);
      AmongNext(0, g.d);
    } else {
      TagsNext(kind, m, r, nn - 1);
      AmongNext(nn - 1, g.d);
      DirectionTags(kind, m, r, DirectionAt(nn - 1));
      TagsHas(kind, m, r, nn - 1, g);
    }
  }

  lemma {:induction false} TagsDistinct(kind: Kind, m: Mesh, r: Triple<int>, nn: nat)
    requires ValidMesh(m) && nn <= 26
    ensures CL.Distinct(Tags(kind, m, r, nn))
  {
    if nn == 0 {
      TagsNone(kind, m, r);
    } else {
      hide *;
      var d := DirectionAt(nn - 1);
      TagsNext(kind, m, r, nn - 1);
      NotYetAmong(nn - 1);
      DirectionTags(kind, m, r, d);
      TagsDistinct(kind, m, r, nn - 1);
      var head, tail := Tags(kind, m, r, nn - 1), TagsIn(kind, m, r, d, Visits(kind, m, d));
      forall g | g in head
        ensures g !in tail
      {
        TagsHas(kind, m, r, nn - 1, g);
      }
      CL.DistinctConcat(head, tail);
    }
  }

  lemma AmongAll(d: Triple<int>)
    ensures Among(26, d) <==> Direction(d) && d != STAY
  {
    if Direction(d) && d != STAY {
      var k := EveryDirection(d);
    }
    if Among(26, d) {
      var k :| 0 <= k < 26 && DirectionAt(k) == d;
      DirectionAtIs(k);
    }
  }

  /** The plan has one copy for every box and direction that wants one. */
  lemma AllTagsHas(kind: Kind, m: Mesh, r: Triple<int>, g: Tag)
    requires ValidMesh(m)
    ensures CL.Distinct(AllTags(kind, m, r))
    ensures g in AllTags(kind, m, r) <==> Direction(g.d) && g.d != STAY && Eligible(kind, m, r, g)
  {
    assert AllTags(kind, m, r) == Tags(kind, m, r, 26);
    hide *;
    TagsDistinct(kind, m, r, 26);
    TagsHas(kind, m, r, 26, g);
    AmongAll(g.d);
  }

  // ----- building the plan

  lemma EmptyCopies(kind: Kind, m: Mesh, s: Shape)
    requires ValidMesh(m)
    ensures CopiesOf(kind, m, s, []) == []
  {
  }

  lemma CopiesAdd(kind: Kind, m: Mesh, s: Shape, tags: seq<Tag>, more: seq<Tag>)
    requires ValidMesh(m)
    ensures CopiesOf(kind, m, s, tags + more) == CopiesOf(kind, m, s, tags) + CopiesOf(kind, m, s, more)
  {
    hide CopyFor;
  }

  lemma CopyOfOne(kind: Kind, m: Mesh, s: Shape, g: Tag)
    requires ValidMesh(m)
    ensures CopiesOf(kind, m, s, [g]) == [CopyFor(kind, m, s, g.d, g.b)]
  {
    hide CopyFor;
  }

  /** One more box visited. */
  lemma VisitOne(kind: Kind, m: Mesh, s: Shape, r: Triple<int>, d: Triple<int>, visits: seq<Triple<int>>,
                 t: Triple<int>, b: Triple<int>)
    requires ValidMesh(m) && b == Flip(t)
    ensures CopiesOf(kind, m, s, TagsIn(kind, m, r, d, visits + [t])) ==
            CopiesOf(kind, m, s, TagsIn(kind, m, r, d, visits)) +
              (if Wanted(kind, m, r, d, b) then [CopyFor(kind, m, s, d, b)] else [])
  {
    TagsSnoc(kind, m, r, d, visits, t);
    hide *;
    CopiesAdd(kind, m, s, TagsIn(kind, m, r, d, visits), if Wanted(kind, m, r, d, b) then [Tag(d, b)] else []);
    CopyOfOne(kind, m, s, Tag(d, b));
    EmptyCopies(kind, m, s);
  }

  /** Whether the copy for box b is wanted, from the numbers of the ranks. */
  function WantedByNumber(kind: Kind, m: Mesh, r: Triple<int>, d: Triple<int>, b: Triple<int>): bool
    requires ValidMesh(m)
  {
    var n := NeighboringRank(m, r, b, d);
    if kind == Local then n == RankNumber(m, r) else n != RankNumber(m, r) && n != -1
  }

  lemma WantedIs(kind: Kind, m: Mesh, r: Triple<int>, d: Triple<int>, b: Triple<int>)
    requires ValidMesh(m) && RankCoord(m, r) && BoxCoord(m, b) && Direction(d)
    ensures WantedByNumber(kind, m, r, d, b) == Wanted(kind, m, r, d, b)
  {
    NeighboringRankTells(m, r, b, d);
    hide NeighboringRank, Off, RankOver, RankNumber;
  }

  /** The copies so far are those of the boxes visited, and the boxes still to come are
      the rest. */
  ghost predicate Planned(kind: Kind, m: Mesh, s: Shape, r: Triple<int>, d: Triple<int>, copies: seq<Copy>,
                          visits: seq<Triple<int>>, rest: seq<Triple<int>>)
    requires ValidMesh(m)
  {
    copies == CopiesOf(kind, m, s, TagsIn(kind, m, r, d, visits)) && visits + rest == Visits(kind, m, d)
  }

  lemma NothingPlanned(kind: Kind, m: Mesh, s: Shape, r: Triple<int>, d: Triple<int>)
    requires ValidMesh(m)
    ensures var lo, hi := LowBox(kind, m, d), HighBox(kind, m, d);
            Planned(kind, m, s, r, d, [], [], CL.XRuns(lo.z, hi.z, lo.y, hi.y, lo.x, hi.x))
  {
    hide LowBox, HighBox, CL.XRuns;
  }

  lemma AllPlanned(kind: Kind, m: Mesh, s: Shape, r: Triple<int>, d: Triple<int>, copies: seq<Copy>,
                   visits: seq<Triple<int>>)
    requires ValidMesh(m) && Planned(kind, m, s, r, d, copies, visits, [])
    ensures copies == CopiesOf(kind, m, s, TagsIn(kind, m, r, d, Visits(kind, m, d)))
  {
    hide LowBox, HighBox, TagsIn, CopiesOf, Visits;
    assert visits + [] == visits;
  }

  /** One box: its copy, if it is wanted. */
  method PlanBox(kind: Kind, m: Mesh, s: Shape, r: Triple<int>, d: Triple<int>, b: Triple<int>, copies: seq<Copy>,
                 ghost visits: seq<Triple<int>>, ghost rest: seq<Triple<int>>)
    returns (more: seq<Copy>)
    requires ValidMesh(m) && RankCoord(m, r) && Direction(d) && BoxCoord(m, b)
    requires Planned(kind, m, s, r, d, copies, visits, [Triple(b.z, b.y, b.x)] + rest)
    ensures Planned(kind, m, s, r, d, more, visits + [Triple(b.z, b.y, b.x)], rest)
  {
    hide Wanted, WantedByNumber, CopyFor, TagsIn, CopiesOf, Visits;
    ghost var t := Triple(b.z, b.y, b.x);
    WantedIs(kind, m, r, d, b);
    VisitOne(kind, m, s, r, d, visits, t, b);
    more := copies;
    if WantedByNumber(kind, m, r, d, b) {
      more := copies + [CopyFor(kind, m, s, d, b)];
    }
    assert (visits + [t]) + rest == visits + ([t] + rest);
  }

  lemma XUnroll(x: int, hx: int, ly: int, hy: int, lz: int, hz: int)
    ensures x < hx ==>
              CL.XRuns(x, hx, ly, hy, lz, hz) == CL.YRuns(x, ly, hy, lz, hz) + CL.XRuns(x + 1, hx, ly, hy, lz, hz)
    ensures x >= hx ==> CL.XRuns(x, hx, ly, hy, lz, hz) == []
  {
  }

  lemma YUnroll(x: int, y: int, hy: int, lz: int, hz: int, rest: seq<Triple<int>>)
    ensures y < hy ==>
              CL.YRuns(x, y, hy, lz, hz) + rest == CL.ZRun(x, y, lz, hz) + (CL.YRuns(x, y + 1, hy, lz, hz) + rest)
    ensures y >= hy ==> CL.YRuns(x, y, hy, lz, hz) + rest == rest
  {
    if y < hy {
      var z, t := CL.ZRun(x, y, lz, hz), CL.YRuns(x, y + 1, hy, lz, hz);
      assert (z + t) + rest == z + (t + rest);
    }
  }

  lemma ZUnroll(x: int, y: int, z: int, hz: int, rest: seq<Triple<int>>)
    ensures z < hz ==> CL.ZRun(x, y, z, hz) + rest == [Triple(x, y, z)] + (CL.ZRun(x, y, z + 1, hz) + rest)
    ensures z >= hz ==> CL.ZRun(x, y, z, hz) + rest == rest
  {
    if z < hz {
      var t := CL.ZRun(x, y, z + 1, hz);
      assert ([Triple(x, y, z)] + t) + rest == [Triple(x, y, z)] + (t + rest);
    }
  }

  /** The innermost loop over the boxes. */
  method PlanRow(kind: Kind, m: Mesh, s: Shape, r: Triple<int>, d: Triple<int>, k: int, j: int, lo: int, hi: int,
                 was: seq<Copy>, ghost visited: seq<Triple<int>>, ghost rest: seq<Triple<int>>)
    returns (copies: seq<Copy>, ghost visits: seq<Triple<int>>)
    requires ValidMesh(m) && RankCoord(m, r) && Direction(d) && lo <= hi
    requires forall i :: lo <= i < hi ==> BoxCoord(m, Triple(i, j, k))
    requires Planned(kind, m, s, r, d, was, visited, CL.ZRun(k, j, lo, hi) + rest)
    ensures Planned(kind, m, s, r, d, copies, visits, rest)
  {
    hide *;
    copies, visits := was, visited;
    var i := lo;
    while i < hi
      invariant lo <= i <= hi
      invariant Planned(kind, m, s, r, d, copies, visits, CL.ZRun(k, j, i, hi) + rest)
    {
      ZUnroll(k, j, i, hi, rest);
      copies := PlanBox(kind, m, s, r, d, Triple(i, j, k), copies, visits, CL.ZRun(k, j, i + 1, hi) + rest);
      visits := visits + [Triple(k, j, i)];
      i := i + 1;
    }
    ZUnroll(k, j, i, hi, rest);
  }

  /** The middle loop. */
  method PlanLayer(kind: Kind, m: Mesh, s: Shape, r: Triple<int>, d: Triple<int>, k: int, lo: Triple<int>,
                   hi: Triple<int>, was: seq<Copy>, ghost visited: seq<Triple<int>>, ghost rest: seq<Triple<int>>)
    returns (copies: seq<Copy>, ghost visits: seq<Triple<int>>)
    requires ValidMesh(m) && RankCoord(m, r) && Direction(d) && lo.x <= hi.x && lo.y <= hi.y
    requires forall i, j :: lo.x <= i < hi.x && lo.y <= j < hi.y ==> BoxCoord(m, Triple(i, j, k))
    requires Planned(kind, m, s, r, d, was, visited, CL.YRuns(k, lo.y, hi.y, lo.x, hi.x) + rest)
    ensures Planned(kind, m, s, r, d, copies, visits, rest)
  {
    hide *;
    copies, visits := was, visited;
    var j := lo.y;
    while j < hi.y
      invariant lo.y <= j <= hi.y
      invariant Planned(kind, m, s, r, d, copies, visits, CL.YRuns(k, j, hi.y, lo.x, hi.x) + rest)
    {
      YUnroll(k, j, hi.y, lo.x, hi.x, rest);
      copies, visits := PlanRow(kind, m, s, r, d, k, j, lo.x, hi.x, copies, visits,
                                CL.YRuns(k, j + 1, hi.y, lo.x, hi.x) + rest);
      j := j + 1;
    }
    YUnroll(k, j, hi.y, lo.x, hi.x, rest);
  }

  lemma LayerTraversed(kind: Kind, m: Mesh, d: Triple<int>)
    requires ValidMesh(m) && Direction(d)
    ensures var lo, hi := LowBox(kind, m, d), HighBox(kind, m, d);
            && lo.x <= hi.x && lo.y <= hi.y && lo.z <= hi.z
            && forall i, j, k :: lo.x <= i < hi.x && lo.y <= j < hi.y && lo.z <= k < hi.z ==>
                 BoxCoord(m, Triple(i, j, k))
  {
  }

  /** The loops over the boxes in one direction. */
  method PlanDirection(kind: Kind, m: Mesh, s: Shape, r: Triple<int>, d: Triple<int>) returns (copies: seq<Copy>)
    requires ValidMesh(m) && RankCoord(m, r) && Direction(d)
    ensures copies == CopiesOf(kind, m, s, TagsIn(kind, m, r, d, Visits(kind, m, d)))
  {
    hide *;
    var lo, hi := LowBox(kind, m, d), HighBox(kind, m, d);
    NothingPlanned(kind, m, s, r, d);
    LayerTraversed(kind, m, d);
    copies := [];
    ghost var visits := [];
    var k := lo.z;
    while k < hi.z
      invariant lo.z <= k <= hi.z
      invariant Planned(kind, m, s, r, d, copies, visits, CL.XRuns(k, hi.z, lo.y, hi.y, lo.x, hi.x))
    {
      XUnroll(k, hi.z, lo.y, hi.y, lo.x, hi.x);
      copies, visits := PlanLayer(kind, m, s, r, d, k, lo, hi, copies, visits,
                                  CL.XRuns(k + 1, hi.z, lo.y, hi.y, lo.x, hi.x));
      k := k + 1;
    }
    XUnroll(k, hi.z, lo.y, hi.y, lo.x, hi.x);
    AllPlanned(kind, m, s, r, d, copies, visits);
  }

  /** The part of create_domain that lists the copies of one kind. */
  method BuildPlan(kind: Kind, m: Mesh, s: Shape, r: Triple<int>) returns (copies: seq<Copy>)
    requires ValidMesh(m) && RankCoord(m, r)
    ensures copies == CopiesOf(kind, m, s, AllTags(kind, m, r))
  {
    assert AllTags(kind, m, r) == Tags(kind, m, r, 26);
    hide *;
    TagsNone(kind, m, r);
    EmptyCopies(kind, m, s);
    copies := [];
    for nn := 0 to 26
      invariant copies == CopiesOf(kind, m, s, Tags(kind, m, r, nn))
    {
      DirectionAtIs(nn);
      var found := PlanDirection(kind, m, s, r, DirectionAt(nn));
      TagsNext(kind, m, r, nn);
      CopiesAdd(kind, m, s, Tags(kind, m, r, nn),
                TagsIn(kind, m, r, DirectionAt(nn), Visits(kind, m, DirectionAt(nn))));
      copies := copies + found;
    }
  }
}
