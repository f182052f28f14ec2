/** What the copies of a ghost-zone exchange carry: the value of the globally adjacent
    cell, into every ghost cell that has one, by exactly one copy. */
module GhostValues {
  import opened Triples
  import opened GhostAxis
  import opened BufferCopies
  import opened GhostPlan

  /** The cells of a box with its ghost cells. */
  function Extent(m: Mesh): Triple<int> {
    Triple(m.x.dim + 2 * m.x.ghosts, m.y.dim + 2 * m.y.ghosts, m.z.dim + 2 * m.z.ghosts)
  }

  predicate InBox(m: Mesh, x: Triple<int>) {
    InRange(Triple(0, 0, 0), x, Extent(m))
  }

  /** The direction of the region that a cell lies in: STAY for the interior. */
  function SideOf(m: Mesh, x: Triple<int>): Triple<int> {
    Triple(Side(m.x, x.x), Side(m.y, x.y), Side(m.z, x.z))
  }

  /** The ghost cells of a box in direction d. */
  predicate InRegion(m: Mesh, d: Triple<int>, x: Triple<int>) {
    InRange(GhostStarts(m, d), x, Plus(GhostStarts(m, d), Lengths(m, d)))
  }

  lemma RegionIs(m: Mesh, d: Triple<int>, x: Triple<int>)
    requires ValidMesh(m) && Direction(d) && InBox(m, x)
    ensures Direction(SideOf(m, x))
    ensures InRegion(m, d, x) <==> d == SideOf(m, x)
  {
    hide Side, GhostStart, Length;
    SideIs(m.x, x.x, d.x);
    SideIs(m.y, x.y, d.y);
    SideIs(m.z, x.z, d.z);
  }

  // ----- values

  /** The value of a field at a cell. */
  function Val(field: Triple<int> -> real, c: Triple<int>): real {
    field(c)
  }

  function HomeOf(m: Mesh, u: Triple<int>): Triple<int>
    requires ValidMesh(m)
  {
    Triple(Home(m.x, u.x), Home(m.y, u.y), Home(m.z, u.z))
  }

  /** The cell of the domain that cell x of box b of rank r stands for. */
  function GlobalOf(m: Mesh, r: Triple<int>, b: Triple<int>, x: Triple<int>): Triple<int> {
    Triple(GlobalCell(m.x, r.x, b.x, x.x), GlobalCell(m.y, r.y, b.y, x.y), GlobalCell(m.z, r.z, b.z, x.z))
  }

  function CellValue(m: Mesh, field: Triple<int> -> real, r: Triple<int>, b: Triple<int>, x: Triple<int>): real
    requires ValidMesh(m)
  {
    Val(field, HomeOf(m, GlobalOf(m, r, b, x)))
  }

  /** The value that place u of the message of rank r in direction d carries. */
  function BufferValue(m: Mesh, field: Triple<int> -> real, r: Triple<int>, d: Triple<int>, u: Triple<int>): real
    requires ValidMesh(m)
  {
    Val(field, HomeOf(m, Triple(BufferCell(m.x, r.x, d.x, u.x), BufferCell(m.y, r.y, d.y, u.y),
                                BufferCell(m.z, r.z, d.z, u.z))))
  }

  predicate InLengths(m: Mesh, d: Triple<int>, t: Triple<int>) {
    InRange(Triple(0, 0, 0), t, Lengths(m, d))
  }

  predicate BordersAll(m: Mesh, b: Triple<int>, d: Triple<int>) {
    Borders(m.x, b.x, d.x) && Borders(m.y, b.y, d.y) && Borders(m.z, b.z, d.z)
  }

  /** Packing puts the value of a cell at its place in the message. */
  lemma PackedValue(m: Mesh, field: Triple<int> -> real, r: Triple<int>, b: Triple<int>, d: Triple<int>, t: Triple<int>)
    requires ValidMesh(m) && RankCoord(m, r) && Direction(d) && BordersAll(m, b, d) && InLengths(m, d, t)
    ensures BoxCoord(m, b) && InRange(Triple(0, 0, 0), Plus(PackStarts(m, b, d), t), BufferExtent(m, d))
    ensures BufferValue(m, field, r, d, Plus(PackStarts(m, b, d), t)) ==
            CellValue(m, field, r, b, Plus(SourceStarts(m, d), t))
  {
    BordersLeave(m.x, b.x, d.x);
    BordersLeave(m.y, b.y, d.y);
    BordersLeave(m.z, b.z, d.z);
    hide Borders, Length, PackStart, SourceStart, BufferLength, BufferCell, GlobalCell, Val;
    PackedCell(m.x, r.x, b.x, d.x, t.x);
    PackedCell(m.y, r.y, b.y, d.y, t.y);
    PackedCell(m.z, r.z, b.z, d.z, t.z);
  }

  /** Unpacking takes from the message, packed by the neighbouring rank for the opposite
      direction, the value that belongs in the ghost cell. */
  lemma UnpackedValue(m: Mesh, field: Triple<int> -> real, r: Triple<int>, b: Triple<int>, d: Triple<int>,
                      t: Triple<int>)
    requires ValidMesh(m) && RankCoord(m, r) && BoxCoord(m, b) && Direction(d) && !Off(m, r, b, d) && InLengths(m, d, t)
    ensures InRange(Triple(0, 0, 0), Plus(UnpackStarts(m, b, d), t), BufferExtent(m, Negated(LeavesBy(m, b, d))))
    ensures BufferValue(m, field, RankOver(m, r, b, d), Negated(LeavesBy(m, b, d)), Plus(UnpackStarts(m, b, d), t)) ==
            CellValue(m, field, r, b, Plus(GhostStarts(m, d), t))
  {
    hide OffDomain, Length, UnpackStart, GhostStart, BufferLength, BufferCell, GlobalCell, Val, Leaves, NeighborRank,
         Home;
    UnpackedCell(m.x, r.x, b.x, d.x, t.x);
    UnpackedCell(m.y, r.y, b.y, d.y, t.y);
    UnpackedCell(m.z, r.z, b.z, d.z, t.z);
  }

  /** A local copy takes a cell to the ghost cell of the neighbour that stands for it. */
  lemma LocalValue(m: Mesh, field: Triple<int> -> real, r: Triple<int>, b: Triple<int>, d: Triple<int>, t: Triple<int>)
    requires ValidMesh(m) && RankCoord(m, r) && BoxCoord(m, b) && Direction(d) && OnNode(m, r, b, d)
    requires InLengths(m, d, t)
    ensures CellValue(m, field, r, b, Plus(SourceStarts(m, d), t)) ==
            CellValue(m, field, r, BoxOver(m, b, d), Plus(GhostStarts(m, Negated(d)), t))
  {
    hide OffDomain, Length, SourceStart, GhostStart, GlobalCell, Val, NeighborRank, NeighborBox, Home;
    SourceIsGhost(m.x, r.x, b.x, d.x, t.x);
    SourceIsGhost(m.y, r.y, b.y, d.y, t.y);
    SourceIsGhost(m.z, r.z, b.z, d.z, t.z);
  }

  // ----- which copies write which ghost cells

  /** The copy with this tag writes cell x of box b. */
  predicate Writes(kind: Kind, m: Mesh, g: Tag, b: Triple<int>, x: Triple<int>)
    requires ValidMesh(m)
  {
    match kind
    case Pack => false
    case Local => BoxOver(m, g.b, g.d) == b && InRegion(m, Negated(g.d), x)
    case Unpack => g.b == b && InRegion(m, g.d, x)
  }

  /** The tag of the copy that fills a ghost cell, and which list it is on. */
  function WriterKind(m: Mesh, r: Triple<int>, b: Triple<int>, d: Triple<int>): Kind
    requires ValidMesh(m)
  {
    if RankOver(m, r, b, d) == r then Local else Unpack
  }

  function Writer(m: Mesh, r: Triple<int>, b: Triple<int>, d: Triple<int>): Tag
    requires ValidMesh(m)
  {
    if RankOver(m, r, b, d) == r then Tag(Negated(d), BoxOver(m, b, d)) else Tag(d, b)
  }

  lemma EligibleIs(kind: Kind, m: Mesh, r: Triple<int>, g: Tag)
    requires ValidMesh(m) && kind != Pack
    ensures Eligible(kind, m, r, g) <==> BoxCoord(m, g.b) && Wanted(kind, m, r, g.d, g.b)
  {
    hide Wanted;
  }

  lemma NegatedTwice(d: Triple<int>)
    ensures Negated(Negated(d)) == d && (Negated(d) == STAY <==> d == STAY)
    ensures Direction(d) ==> Direction(Negated(d))
  {
  }

  /** The writer of a ghost cell is in the plan. */
  lemma WriterPlanned(m: Mesh, r: Triple<int>, b: Triple<int>, x: Triple<int>)
    requires ValidMesh(m) && RankCoord(m, r) && BoxCoord(m, b) && InBox(m, x)
    requires SideOf(m, x) != STAY && !Off(m, r, b, SideOf(m, x))
    ensures var d := SideOf(m, x); var kind, g := WriterKind(m, r, b, d), Writer(m, r, b, d);
            g in AllTags(kind, m, r) && Writes(kind, m, g, b, x)
  {
    var d := SideOf(m, x);
    var kind, g := WriterKind(m, r, b, d), Writer(m, r, b, d);
    RegionIs(m, STAY, x);
    RegionIs(m, d, x);
    hide SideOf, InRegion, Eligible, AllTags, Off, RankOver, BoxOver;
    NegatedTwice(d);
    OverAndBack(m, r, b, d);
    EligibleIs(kind, m, r, g);
    AllTagsHas(kind, m, r, g);
  }

  /** Whatever copy of the plan writes a cell is that one: interior cells and ghost cells
      without a neighbour are never written. */
  lemma OnlyWriter(m: Mesh, r: Triple<int>, b: Triple<int>, x: Triple<int>, kind: Kind, g: Tag)
    requires ValidMesh(m) && RankCoord(m, r) && BoxCoord(m, b) && InBox(m, x)
    requires g in AllTags(kind, m, r) && Writes(kind, m, g, b, x)
    ensures var d := SideOf(m, x);
            d != STAY && !Off(m, r, b, d) && kind == WriterKind(m, r, b, d) && g == Writer(m, r, b, d)
  {
    var d := SideOf(m, x);
    AllTagsHas(kind, m, r, g);
    NegatedTwice(g.d);
    EligibleIs(kind, m, r, g);
    RegionIs(m, g.d, x);
    RegionIs(m, Negated(g.d), x);
    hide SideOf, InRegion, Eligible, AllTags, Off, RankOver, BoxOver;
    if kind == Local {
      OverAndBack(m, r, g.b, g.d);
    }
  }

  /** Every ghost cell with a neighbour is written exactly once: by one place of one of
      the lists. */
  lemma WrittenExactlyOnce(m: Mesh, r: Triple<int>, b: Triple<int>, x: Triple<int>) returns (kind: Kind, q: nat)
    requires ValidMesh(m) && RankCoord(m, r) && BoxCoord(m, b) && InBox(m, x)
    requires SideOf(m, x) != STAY && !Off(m, r, b, SideOf(m, x))
    ensures q < |AllTags(kind, m, r)| && Writes(kind, m, AllTags(kind, m, r)[q], b, x)
    ensures forall k, p: nat :: p < |AllTags(k, m, r)| && Writes(k, m, AllTags(k, m, r)[p], b, x) ==>
              k == kind && p == q
  {
    var d := SideOf(m, x);
    kind := WriterKind(m, r, b, d);
    var g := Writer(m, r, b, d);
    WriterPlanned(m, r, b, x);
    hide SideOf, Writes, AllTags, Off, WriterKind, Writer;
    q :| q < |AllTags(kind, m, r)| && AllTags(kind, m, r)[q] == g;
    AllTagsHas(kind, m, r, g);
    forall k, p: nat | p < |AllTags(k, m, r)| && Writes(k, m, AllTags(k, m, r)[p], b, x)
      ensures k == kind && p == q
    {
      OnlyWriter(m, r, b, x, k, AllTags(k, m, r)[p]);
    }
  }
}
