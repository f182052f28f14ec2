/** Running a ghost-zone exchange on all ranks: pack, deliver, copy locally, unpack. */
module GhostExchange {
  import opened Triples
  import opened GhostAxis
  import opened BoxLayout
  import opened BufferCopies
  import opened GhostPlan
  import opened GhostValues

  type Values = seq<real>

  ghost predicate BoxHolds(m: Mesh, s: Shape, field: Triple<int> -> real, r: Triple<int>, b: Triple<int>,
                           grid: Values, x: Triple<int>)
    requires ValidMesh(m)
  {
    0 <= Index(s, x) < |grid| && grid[Index(s, x)] == CellValue(m, field, r, b, x)
  }

  ghost predicate BufferHolds(m: Mesh, field: Triple<int> -> real, r: Triple<int>, d: Triple<int>, buffer: Values,
                              u: Triple<int>)
    requires ValidMesh(m)
  {
    var i := Index(BufferShape(m, d), u);
    0 <= i < |buffer| && buffer[i] == BufferValue(m, field, r, d, u)
  }

  // ----- the copies stay inside what they read and write

  lemma BufferFits(m: Mesh, d: Triple<int>)
    requires ValidMesh(m)
    ensures Fits(BufferShape(m, d), BufferExtent(m, d))
  {
    hide Times, BufferLength;
  }

  lemma SourceInBox(m: Mesh, d: Triple<int>, t: Triple<int>)
    requires ValidMesh(m) && Direction(d) && InLengths(m, d, t)
    ensures InBox(m, Plus(SourceStarts(m, d), t)) && SideOf(m, Plus(SourceStarts(m, d), t)) == STAY
  {
    SourceInside(m.x, d.x, t.x);
    SourceInside(m.y, d.y, t.y);
    SourceInside(m.z, d.z, t.z);
    hide SourceStart, Length;
  }

  lemma GhostInBox(m: Mesh, d: Triple<int>, t: Triple<int>)
    requires ValidMesh(m) && Direction(d) && InLengths(m, d, t)
    ensures InBox(m, Plus(GhostStarts(m, d), t)) && InRegion(m, d, Plus(GhostStarts(m, d), t))
    ensures InLengths(m, Negated(d), t)
  {
  }

  lemma LengthsPositive(m: Mesh, d: Triple<int>)
    requires ValidMesh(m)
    ensures Lengths(m, d).x >= 0 && Lengths(m, d).y >= 0 && Lengths(m, d).z >= 0
    ensures Direction(d) ==> Lengths(m, Negated(d)) == Lengths(m, d)
  {
  }

  lemma PackInside(m: Mesh, s: Shape, r: Triple<int>, d: Triple<int>, b: Triple<int>)
    requires ValidMesh(m) && RankCoord(m, r) && Direction(d) && BordersAll(m, b, d) && Fits(s, Extent(m))
    ensures Inside(CopyFor(Pack, m, s, d, b), Extent(m), BufferExtent(m, d))
  {
    var c := CopyFor(Pack, m, s, d, b);
    LengthsPositive(m, d);
    BufferFits(m, d);
    hide Lengths, SourceStarts, PackStarts, BufferExtent, BufferShape, Fits, Plus, BordersAll, CellValue,
         BufferValue, Extent;
    forall t | InBlock(c, t)
      ensures InRange(Triple(0, 0, 0), Plus(c.read, t), Extent(m))
      ensures InRange(Triple(0, 0, 0), Plus(c.write, t), BufferExtent(m, d))
    {
      SourceInBox(m, d, t);
      PackedValue(m, _ => 0.0, r, b, d, t);
    }
  }

  lemma LocalInside(m: Mesh, s: Shape, d: Triple<int>, b: Triple<int>)
    requires ValidMesh(m) && Direction(d) && Fits(s, Extent(m))
    ensures Inside(CopyFor(Local, m, s, d, b), Extent(m), Extent(m))
  {
    var c := CopyFor(Local, m, s, d, b);
    LengthsPositive(m, d);
    NegatedTwice(d);
    hide Lengths, SourceStarts, GhostStarts, Fits, Plus, Extent, Negated, NeighboringIndex, BoxNumber, Direction;
    forall t | InBlock(c, t)
      ensures InRange(Triple(0, 0, 0), Plus(c.read, t), Extent(m))
      ensures InRange(Triple(0, 0, 0), Plus(c.write, t), Extent(m))
    {
      SourceInBox(m, d, t);
      GhostInBox(m, Negated(d), t);
    }
  }

  lemma UnpackInside(m: Mesh, s: Shape, r: Triple<int>, d: Triple<int>, b: Triple<int>)
    requires ValidMesh(m) && RankCoord(m, r) && BoxCoord(m, b) && Direction(d) && !Off(m, r, b, d) && Fits(s, Extent(m))
    ensures Inside(CopyFor(Unpack, m, s, d, b), BufferExtent(m, LeavesBy(m, b, d)), Extent(m))
  {
    var c := CopyFor(Unpack, m, s, d, b);
    var e := LeavesBy(m, b, d);
    LengthsPositive(m, d);
    BufferFits(m, e);
    BufferBack(m, e);
    hide Lengths, GhostStarts, UnpackStarts, BufferExtent, BufferShape, Fits, Plus, Off, LeavesBy, Extent, CellValue,
         BufferValue,
      BoxNumber, Negated, Direction;
    forall t | InBlock(c, t)
      ensures InRange(Triple(0, 0, 0), Plus(c.read, t), BufferExtent(m, e))
      ensures InRange(Triple(0, 0, 0), Plus(c.write, t), Extent(m))
    {
      UnpackedValue(m, _ => 0.0, r, b, d, t);
      GhostInBox(m, d, t);
    }
  }

  /** A message is as large as the one that comes back. */
  lemma BufferBack(m: Mesh, d: Triple<int>)
    ensures BufferExtent(m, Negated(d)) == BufferExtent(m, d)
    ensures BufferShape(m, Negated(d)) == BufferShape(m, d)
  {
    hide Times;
  }

  // ----- what one copy does

  /** A place of the grid that is no target keeps its value. */
  lemma Untouched(c: Copy, re: Triple<int>, we: Triple<int>, src: Values, was: Values, now: Values, u: Triple<int>)
    requires Inside(c, re, we) && Copied(c, src, was, now) && InRange(Triple(0, 0, 0), u, we)
    requires !InRange(c.write, u, Plus(c.write, c.dim))
    ensures 0 <= Index(c.writeShape, u) < |now| == |was| && now[Index(c.writeShape, u)] == was[Index(c.writeShape, u)]
  {
    hide Index, Fits;
    var p := Index(c.writeShape, u);
    IndexInside(c.writeShape, we, u);
    forall t
      ensures !Hits(c, t, c.dim.z, 0, 0, p)
    {
      if InBlock(c, t) && Target(c, t) == p {
        IndexInjective(c.writeShape, we, Plus(c.write, t), u);
      }
    }
  }

  lemma Touched(c: Copy, re: Triple<int>, we: Triple<int>, src: Values, was: Values, now: Values, u: Triple<int>)
    requires Inside(c, re, we) && Copied(c, src, was, now) && InRange(c.write, u, Plus(c.write, c.dim))
    ensures var t := Triple(u.x - c.write.x, u.y - c.write.y, u.z - c.write.z);
            && InBlock(c, t) && u == Plus(c.write, t) && CellCopied(c, src, now, t)
  {
    var t := Triple(u.x - c.write.x, u.y - c.write.y, u.z - c.write.z);
    assert InBlock(c, t) && Passed(t, c.dim.z, 0, 0);
    hide Index, Fits;
  }

  /** Every cell of the interior of box b holds its value. */
  ghost predicate InteriorHolds(m: Mesh, s: Shape, field: Triple<int> -> real, r: Triple<int>, b: Triple<int>,
                                grid: Values)
    requires ValidMesh(m)
  {
    && |grid| == s.volume
    && forall x :: InBox(m, x) && SideOf(m, x) == STAY ==> BoxHolds(m, s, field, r, b, grid, x)
  }

  lemma InteriorAt(m: Mesh, s: Shape, field: Triple<int> -> real, r: Triple<int>, b: Triple<int>, grid: Values,
                   x: Triple<int>)
    requires ValidMesh(m) && InteriorHolds(m, s, field, r, b, grid) && InBox(m, x) && SideOf(m, x) == STAY
    ensures BoxHolds(m, s, field, r, b, grid, x)
  {
    hide BoxHolds, InBox, SideOf;
  }

  /** The part of a message that one box packs. */
  predicate InPart(m: Mesh, g: Tag, u: Triple<int>) {
    InRange(PackStarts(m, g.b, g.d), u, Plus(PackStarts(m, g.b, g.d), Lengths(m, g.d)))
  }

  lemma PackCopyWrites(m: Mesh, s: Shape, field: Triple<int> -> real, r: Triple<int>, g: Tag, grid: Values, was: Values,
                       now: Values, u: Triple<int>)
    requires ValidMesh(m) && RankCoord(m, r) && Direction(g.d) && BordersAll(m, g.b, g.d) && Fits(s, Extent(m))
    requires InteriorHolds(m, s, field, r, g.b, grid) && InRange(Triple(0, 0, 0), u, BufferExtent(m, g.d))
    requires Copied(CopyFor(Pack, m, s, g.d, g.b), grid, was, now)
    ensures InPart(m, g, u) ==> BufferHolds(m, field, r, g.d, now, u)
    ensures !InPart(m, g, u) ==>
              var i := Index(BufferShape(m, g.d), u);
              0 <= i < |now| == |was| && now[i] == was[i]
  {
    var c := CopyFor(Pack, m, s, g.d, g.b);
    PackInside(m, s, r, g.d, g.b);
    hide Copied, Inside, Fits, InteriorHolds, BufferValue, CellValue, BordersAll, BufferExtent, BufferShape,
         SourceStarts,
      PackStarts, Lengths, Index, InBox, SideOf, BoxNumber, Number, Direction;
    if InPart(m, g, u) {
      Touched(c, Extent(m), BufferExtent(m, g.d), grid, was, now, u);
      var t := Triple(u.x - c.write.x, u.y - c.write.y, u.z - c.write.z);
      SourceInBox(m, g.d, t);
      InteriorAt(m, s, field, r, g.b, grid, Plus(SourceStarts(m, g.d), t));
      PackedValue(m, field, r, g.b, g.d, t);
    } else {
      Untouched(c, Extent(m), BufferExtent(m, g.d), grid, was, now, u);
    }
  }

  /** A local copy between boxes of rank r. */
  lemma LocalCopyWrites(m: Mesh, s: Shape, field: Triple<int> -> real, r: Triple<int>, g: Tag, grid: Values,
                        was: Values,
                        now: Values, x: Triple<int>)
    requires ValidMesh(m) && RankCoord(m, r) && Direction(g.d) && BoxCoord(m, g.b) && OnNode(m, r, g.b, g.d)
    requires Fits(s, Extent(m)) && InteriorHolds(m, s, field, r, g.b, grid) && InBox(m, x)
    requires Copied(CopyFor(Local, m, s, g.d, g.b), grid, was, now)
    ensures InRegion(m, Negated(g.d), x) ==> BoxHolds(m, s, field, r, BoxOver(m, g.b, g.d), now, x)
    ensures !InRegion(m, Negated(g.d), x) ==> 0 <= Index(s, x) < |now| == |was| && now[Index(s, x)] == was[Index(s, x)]
  {
    var c := CopyFor(Local, m, s, g.d, g.b);
    LocalInside(m, s, g.d, g.b);
    LengthsPositive(m, g.d);
    hide Copied, Inside, Fits, InteriorHolds, CellValue, SourceStarts, GhostStarts, Lengths, Index, SideOf, BoxNumber,
      Direction, OnNode, BoxOver, NeighboringIndex, Negated;
    if InRegion(m, Negated(g.d), x) {
      Touched(c, Extent(m), Extent(m), grid, was, now, x);
      var t := Triple(x.x - c.write.x, x.y - c.write.y, x.z - c.write.z);
      SourceInBox(m, g.d, t);
      InteriorAt(m, s, field, r, g.b, grid, Plus(SourceStarts(m, g.d), t));
      LocalValue(m, field, r, g.b, g.d, t);
    } else {
      Untouched(c, Extent(m), Extent(m), grid, was, now, x);
    }
  }

  /** The message that has arrived for direction e holds what the rank there packed. */
  ghost predicate MessageHolds(m: Mesh, field: Triple<int> -> real, sender: Triple<int>, e: Triple<int>, buffer: Values)
    requires ValidMesh(m)
  {
    && |buffer| == BufferShape(m, e).volume
    && forall u :: InRange(Triple(0, 0, 0), u, BufferExtent(m, e)) ==>
         BufferHolds(m, field, sender, Negated(e), buffer, u)
  }

  lemma MessageAt(m: Mesh, field: Triple<int> -> real, sender: Triple<int>, e: Triple<int>, buffer: Values,
                  u: Triple<int>)
    requires ValidMesh(m) && MessageHolds(m, field, sender, e, buffer)
    requires InRange(Triple(0, 0, 0), u, BufferExtent(m, e))
    ensures BufferHolds(m, field, sender, Negated(e), buffer, u)
  {
    hide BufferHolds, BufferExtent, BufferShape;
  }

  lemma UnpackCopyWrites(m: Mesh, s: Shape, field: Triple<int> -> real, r: Triple<int>, g: Tag, buffer: Values,
                         was: Values,
                         now: Values, x: Triple<int>)
    requires ValidMesh(m) && RankCoord(m, r) && Direction(g.d) && BoxCoord(m, g.b) && !Off(m, r, g.b, g.d)
    requires Fits(s, Extent(m)) && InBox(m, x)
    requires MessageHolds(m, field, RankOver(m, r, g.b, g.d), LeavesBy(m, g.b, g.d), buffer)
    requires Copied(CopyFor(Unpack, m, s, g.d, g.b), buffer, was, now)
    ensures InRegion(m, g.d, x) ==> BoxHolds(m, s, field, r, g.b, now, x)
    ensures !InRegion(m, g.d, x) ==> 0 <= Index(s, x) < |now| == |was| && now[Index(s, x)] == was[Index(s, x)]
  {
    var c := CopyFor(Unpack, m, s, g.d, g.b);
    var e := LeavesBy(m, g.b, g.d);
    UnpackInside(m, s, r, g.d, g.b);
    BufferBack(m, e);
    hide Copied, Inside, Fits, MessageHolds, CellValue, BufferValue, UnpackStarts, GhostStarts, Lengths, Index, SideOf,
      BoxNumber, Direction, Off, RankOver, LeavesBy, Negated, BufferExtent, BufferShape, Number;
    if InRegion(m, g.d, x) {
      Touched(c, BufferExtent(m, e), Extent(m), buffer, was, now, x);
      var t := Triple(x.x - c.write.x, x.y - c.write.y, x.z - c.write.z);
      UnpackedValue(m, field, r, g.b, g.d, t);
      MessageAt(m, field, RankOver(m, r, g.b, g.d), e, buffer, Plus(UnpackStarts(m, g.b, g.d), t));
    } else {
      Untouched(c, BufferExtent(m, e), Extent(m), buffer, was, now, x);
    }
  }

  // ----- running one copy

  /** A box that is its own neighbour is read where it is not written. */
  lemma LocalApart(m: Mesh, s: Shape, d: Triple<int>, b: Triple<int>)
    requires ValidMesh(m) && Direction(d) && d != STAY && Fits(s, Extent(m))
    ensures Apart(CopyFor(Local, m, s, d, b))
  {
    var c := CopyFor(Local, m, s, d, b);
    NegatedTwice(d);
    LengthsPositive(m, d);
    hide Lengths, SourceStarts, GhostStarts, Fits, Plus, Extent, Negated, NeighboringIndex, BoxNumber, Direction,
         SideOf,
      InRegion, Index;
    forall t, u | InBlock(c, t) && InBlock(c, u)
      ensures Source(c, t) != Target(c, u)
    {
      var x, y := Plus(SourceStarts(m, d), t), Plus(GhostStarts(m, Negated(d)), u);
      SourceInBox(m, d, t);
      GhostInBox(m, Negated(d), u);
      RegionIs(m, Negated(d), y);
      if Index(s, x) == Index(s, y) {
        IndexInjective(s, Extent(m), x, y);
      }
    }
  }

  /** A copy between two arrays, or within one. */
  method ApplyCopy(c: Copy, src: Values, was: Values, same: bool, ghost re: Triple<int>, ghost we: Triple<int>)
    returns (now: Values)
    requires Inside(c, re, we) && |src| == c.readShape.volume && |was| == c.writeShape.volume
    requires same ==> Apart(c) && src == was
    ensures Copied(c, src, was, now)
  {
    hide Inside, Apart, Copied;
    var write := new real[|was|](i requires 0 <= i < |was| => was[i]);
    assert write[..] == was;
    if same {
      DoBufferCopy(c, write, write, re, we);
    } else {
      var read := new real[|src|](i requires 0 <= i < |src| => src[i]);
      assert read[..] == src;
      DoBufferCopy(c, read, write, re, we);
    }
    now := write[..];
  }

  // ----- packing all messages of a rank

  /** The grids of a rank hold the field in their interiors. */
  ghost predicate InteriorsHold(m: Mesh, s: Shape, field: Triple<int> -> real, r: Triple<int>, grids: seq<Values>)
    requires ValidMesh(m)
  {
    && |grids| == BoxShape(m).volume
    && forall b :: BoxCoord(m, b) ==>
         0 <= BoxNumber(m, b) < |grids| && InteriorHolds(m, s, field, r, b, grids[BoxNumber(m, b)])
  }

  lemma InteriorOf(m: Mesh, s: Shape, field: Triple<int> -> real, r: Triple<int>, grids: seq<Values>, b: Triple<int>)
    requires ValidMesh(m) && InteriorsHold(m, s, field, r, grids) && BoxCoord(m, b)
    ensures 0 <= BoxNumber(m, b) < |grids| && InteriorHolds(m, s, field, r, b, grids[BoxNumber(m, b)])
    ensures |grids[BoxNumber(m, b)]| == s.volume
  {
    hide BoxCoord, BoxNumber, BoxHolds, InBox, SideOf;
  }

  /** There is a buffer of the right size for every direction. */
  ghost predicate BuffersSized(m: Mesh, buffers: seq<Values>) {
    && |buffers| == 27
    && forall d :: Direction(d) ==> 0 <= Number(d) < 27 && |buffers[Number(d)]| == BufferShape(m, d).volume
  }

  lemma BufferSize(m: Mesh, buffers: seq<Values>, d: Triple<int>)
    requires BuffersSized(m, buffers) && Direction(d)
    ensures 0 <= Number(d) < 27 == |buffers| && |buffers[Number(d)]| == BufferShape(m, d).volume
  {
    hide Direction, Number, BufferShape;
  }

  /** The part of one box is in the message. */
  ghost predicate PartHolds(m: Mesh, field: Triple<int> -> real, r: Triple<int>, g: Tag, buffers: seq<Values>)
    requires ValidMesh(m) && |buffers| == 27
  {
    && 0 <= Number(g.d) < 27
    && forall u :: InRange(Triple(0, 0, 0), u, BufferExtent(m, g.d)) && InPart(m, g, u) ==>
         BufferHolds(m, field, r, g.d, buffers[Number(g.d)], u)
  }

  lemma PartAt(m: Mesh, field: Triple<int> -> real, r: Triple<int>, g: Tag, buffers: seq<Values>, u: Triple<int>)
    requires ValidMesh(m) && |buffers| == 27 && PartHolds(m, field, r, g, buffers)
    requires InRange(Triple(0, 0, 0), u, BufferExtent(m, g.d)) && InPart(m, g, u)
    ensures 0 <= Number(g.d) < 27 && BufferHolds(m, field, r, g.d, buffers[Number(g.d)], u)
  {
    hide Number, BufferExtent, InPart, BufferHolds;
  }

  /** What every tag of the packing plan says. */
  lemma PackTag(m: Mesh, r: Triple<int>, g: Tag)
    requires ValidMesh(m) && RankCoord(m, r) && g in AllTags(Pack, m, r)
    ensures Direction(g.d) && g.d != STAY && BordersAll(m, g.b, g.d) && BoxCoord(m, g.b) && Remote(m, r, g.b, g.d)
  {
    hide AllTags, Remote;
    AllTagsHas(Pack, m, r, g);
    BordersLeave(m.x, g.b.x, g.d.x);
    BordersLeave(m.y, g.b.y, g.d.y);
    BordersLeave(m.z, g.b.z, g.d.z);
  }

  /** Packing one more part keeps the parts that are there. */
  lemma PackKeeps(m: Mesh, s: Shape, field: Triple<int> -> real, r: Triple<int>, h: Tag, grid: Values,
                  was: seq<Values>, now: Values, g: Tag)
    requires ValidMesh(m) && RankCoord(m, r) && Fits(s, Extent(m))
    requires h in AllTags(Pack, m, r) && g in AllTags(Pack, m, r) && BuffersSized(m, was)
    requires InteriorHolds(m, s, field, r, h.b, grid)
    requires 0 <= Number(h.d) < 27 && Copied(CopyFor(Pack, m, s, h.d, h.b), grid, was[Number(h.d)], now)
    requires g == h || PartHolds(m, field, r, g, was)
    ensures PartHolds(m, field, r, g, was[Number(h.d) := now])
  {
    var buffers := was[Number(h.d) := now];
    PackTag(m, r, h);
    PackTag(m, r, g);
    NumberRoundTrip(h.d, 0);
    NumberRoundTrip(g.d, 0);
    hide InteriorHolds, BufferHolds, AllTags, Direction, Number, InPart, BufferExtent, Fits, Copied, BordersAll, Remote,
         Extent,
      BufferShape;
    forall u | InRange(Triple(0, 0, 0), u, BufferExtent(m, g.d)) && InPart(m, g, u)
      ensures BufferHolds(m, field, r, g.d, buffers[Number(g.d)], u)
    {
      if g.d == h.d {
        PackCopyWrites(m, s, field, r, h, grid, was[Number(h.d)], now, u);
        if !InPart(m, h, u) {
          PartAt(m, field, r, g, was, u);
          SameHolds(m, field, r, g.d, was[Number(h.d)], now, u);
        }
      } else {
        PartAt(m, field, r, g, was, u);
      }
    }
  }

  lemma SameHolds(m: Mesh, field: Triple<int> -> real, r: Triple<int>, d: Triple<int>, was: Values, now: Values,
                  u: Triple<int>)
    requires ValidMesh(m) && BufferHolds(m, field, r, d, was, u)
    requires var i := Index(BufferShape(m, d), u); 0 <= i < |now| == |was| && now[i] == was[i]
    ensures BufferHolds(m, field, r, d, now, u)
  {
    hide Index, BufferShape, BufferValue;
  }

  /** The copies with Pack tags, one after another. */
  method RunPack(m: Mesh, s: Shape, ghost field: Triple<int> -> real, r: Triple<int>, plan: seq<Copy>,
                 grids: seq<Values>, buffers: seq<Values>)
    returns (out: seq<Values>)
    requires ValidMesh(m) && RankCoord(m, r) && Fits(s, Extent(m))
    requires plan == CopiesOf(Pack, m, s, AllTags(Pack, m, r))
    requires InteriorsHold(m, s, field, r, grids) && BuffersSized(m, buffers)
    ensures BuffersSized(m, out)
    ensures forall g :: g in AllTags(Pack, m, r) ==> PartHolds(m, field, r, g, out)
  {
    ghost var tags := AllTags(Pack, m, r);
    hide InteriorsHold, InteriorHolds, PartHolds, BuffersSized, AllTags, Inside, Copied, Direction, Number, BoxNumber,
         Remote,
      BordersAll, Fits, Extent, BufferShape, BufferExtent, BoxCoord, Lengths, SourceStarts, PackStarts;
    out := buffers;
    BuffersAre27(m, out);
    for q := 0 to |plan|
      invariant BuffersSized(m, out) && |out| == 27
      invariant forall p :: 0 <= p < q ==> PartHolds(m, field, r, tags[p], out)
    {
      ghost var h := tags[q];
      PackTag(m, r, h);
      var c := plan[q];
      InteriorOf(m, s, field, r, grids, h.b);
      BufferSize(m, out, h.d);
      PackInside(m, s, r, h.d, h.b);
      var now := ApplyCopy(c, grids[c.from.box], out[c.to.n], false, Extent(m), BufferExtent(m, h.d));
      ghost var was := out;
      forall p | 0 <= p < q + 1
        ensures PartHolds(m, field, r, tags[p], was[Number(h.d) := now])
      {
        PackKeeps(m, s, field, r, h, grids[BoxNumber(m, h.b)], was, now, tags[p]);
      }
      SizedStill(m, s, h, grids[BoxNumber(m, h.b)], was, now);
      out := out[c.to.n := now];
    }
  }

  lemma BuffersAre27(m: Mesh, buffers: seq<Values>)
    requires BuffersSized(m, buffers)
    ensures |buffers| == 27
  {
  }

  lemma SizedStill(m: Mesh, s: Shape, h: Tag, grid: Values, was: seq<Values>, now: Values)
    requires ValidMesh(m) && BuffersSized(m, was) && Direction(h.d) && 0 <= Number(h.d) < 27
    requires Copied(CopyFor(Pack, m, s, h.d, h.b), grid, was[Number(h.d)], now)
    ensures BuffersSized(m, was[Number(h.d) := now])
  {
    BufferSize(m, was, h.d);
    assert |now| == |was[Number(h.d)]|;
    hide Direction, BufferShape, Number, BufferExtent;
  }

  // ----- messages between ranks

  /** rank_of_neighbor: the rank next to r in direction e, and whether there is one. */
  function RankNextTo(m: Mesh, r: Triple<int>, e: Triple<int>): Triple<int>
    requires ValidMesh(m)
  {
    Triple((r.x + e.x + m.x.ranks) % m.x.ranks, (r.y + e.y + m.y.ranks) % m.y.ranks,
           (r.z + e.z + m.z.ranks) % m.z.ranks)
  }

  predicate BeyondAxis(l: Layout, r: int, e: int) {
    !l.periodic && !(0 <= r + e < l.ranks)
  }

  predicate Beyond(m: Mesh, r: Triple<int>, e: Triple<int>) {
    BeyondAxis(m.x, r.x, e.x) || BeyondAxis(m.y, r.y, e.y) || BeyondAxis(m.z, r.z, e.z)
  }

  /** Rank r exchanges a message in direction e. */
  predicate HasMessage(m: Mesh, r: Triple<int>, e: Triple<int>)
    requires ValidMesh(m)
  {
    !Beyond(m, r, e) && RankNextTo(m, r, e) != r
  }

  lemma AxisNextTo(l: Layout, r: int, b: int, d: int)
    requires Valid(l) && InRanks(l, r, b) && Step(d)
    ensures OffDomain(l, r, b, d) <==> BeyondAxis(l, r, Leaves(l, b, d))
    ensures NeighborRank(l, r, b, d) == (r + Leaves(l, b, d) + l.ranks) % l.ranks
    ensures Step(Leaves(l, b, d))
  {
    LeavesStep(l, b, d);
    if !l.periodic {
      NoWrap(l, r, b, d);
    }
    hide Times;
  }

  /** A box's neighbour is on the rank next to its own, on the side that the step leaves
      by. */
  lemma OverIsNextTo(m: Mesh, r: Triple<int>, b: Triple<int>, d: Triple<int>)
    requires ValidMesh(m) && RankCoord(m, r) && BoxCoord(m, b) && Direction(d)
    ensures Direction(LeavesBy(m, b, d))
    ensures RankOver(m, r, b, d) == RankNextTo(m, r, LeavesBy(m, b, d))
    ensures Off(m, r, b, d) <==> Beyond(m, r, LeavesBy(m, b, d))
    ensures Remote(m, r, b, d) <==> HasMessage(m, r, LeavesBy(m, b, d))
  {
    hide OffDomain, BeyondAxis, NeighborRank, Leaves;
    AxisNextTo(m.x, r.x, b.x, d.x);
    AxisNextTo(m.y, r.y, b.y, d.y);
    AxisNextTo(m.z, r.z, b.z, d.z);
  }

  lemma BorderLeavesBy(m: Mesh, b: Triple<int>, d: Triple<int>)
    requires ValidMesh(m) && Direction(d) && BordersAll(m, b, d)
    ensures BoxCoord(m, b) && LeavesBy(m, b, d) == d
  {
    BordersLeave(m.x, b.x, d.x);
    BordersLeave(m.y, b.y, d.y);
    BordersLeave(m.z, b.z, d.z);
  }

  /** Every place of a message is packed by a box. */
  lemma MessageCovered(m: Mesh, r: Triple<int>, d: Triple<int>, u: Triple<int>) returns (g: Tag)
    requires ValidMesh(m) && RankCoord(m, r) && Direction(d) && d != STAY && HasMessage(m, r, d)
    requires InRange(Triple(0, 0, 0), u, BufferExtent(m, d))
    ensures g in AllTags(Pack, m, r) && g.d == d && InPart(m, g, u)
  {
    hide AllTags, Length, PackStart, BufferLength, HasMessage, Remote;
    var bi, ti := PackedBy(m.x, d.x, u.x);
    var bj, tj := PackedBy(m.y, d.y, u.y);
    var bk, tk := PackedBy(m.z, d.z, u.z);
    g := Tag(d, Triple(bi, bj, bk));
    BorderLeavesBy(m, g.b, d);
    OverIsNextTo(m, r, g.b, d);
    AllTagsHas(Pack, m, r, g);
  }

  /** The message that r sends in direction d is complete after packing. */
  lemma MessageComplete(m: Mesh, field: Triple<int> -> real, r: Triple<int>, d: Triple<int>, out: seq<Values>)
    requires ValidMesh(m) && RankCoord(m, r) && Direction(d) && d != STAY && HasMessage(m, r, d)
    requires BuffersSized(m, out) && |out| == 27 && 0 <= Number(d) < 27
    requires forall g :: g in AllTags(Pack, m, r) ==> PartHolds(m, field, r, g, out)
    ensures |out[Number(d)]| == BufferShape(m, d).volume
    ensures forall u :: InRange(Triple(0, 0, 0), u, BufferExtent(m, d)) ==>
              BufferHolds(m, field, r, d, out[Number(d)], u)
  {
    BufferSize(m, out, d);
    hide AllTags, PartHolds, HasMessage, BufferHolds, Direction, InPart, BufferExtent, Number, BuffersSized,
         BufferShape;
    forall u | InRange(Triple(0, 0, 0), u, BufferExtent(m, d))
      ensures BufferHolds(m, field, r, d, out[Number(d)], u)
    {
      var g := MessageCovered(m, r, d, u);
      PartAt(m, field, r, g, out, u);
    }
  }

  lemma AxisBack(l: Layout, r: int, e: int)
    requires Valid(l) && 0 <= r < l.ranks && Step(e) && !BeyondAxis(l, r, e)
    ensures 0 <= (r + e + l.ranks) % l.ranks < l.ranks
    ensures !BeyondAxis(l, (r + e + l.ranks) % l.ranks, -e)
    ensures ((r + e + l.ranks) % l.ranks - e + l.ranks) % l.ranks == r
  {
    var s := (r + e + l.ranks) % l.ranks;
    var w := Wraps(l, r, e);
    var v := Wraps(l, s, -e);
    RankBack(l, r, s, e, w, v);
    TimesSimple(l.ranks);
  }

  /** Messages go both ways. */
  lemma NextToAndBack(m: Mesh, r: Triple<int>, e: Triple<int>)
    requires ValidMesh(m) && RankCoord(m, r) && Direction(e) && HasMessage(m, r, e)
    ensures RankCoord(m, RankNextTo(m, r, e)) && RankNextTo(m, RankNextTo(m, r, e), Negated(e)) == r
    ensures HasMessage(m, RankNextTo(m, r, e), Negated(e)) && e != STAY && Negated(e) != STAY
  {
    NextToStay(m, r, e);
    hide BeyondAxis;
    AxisBack(m.x, r.x, e.x);
    AxisBack(m.y, r.y, e.y);
    AxisBack(m.z, r.z, e.z);
  }

  lemma NextToStay(m: Mesh, r: Triple<int>, e: Triple<int>)
    requires ValidMesh(m) && RankCoord(m, r) && HasMessage(m, r, e)
    ensures e != STAY
  {
    DivModUnique(1, r.x, m.x.ranks);
    DivModUnique(1, r.y, m.y.ranks);
    DivModUnique(1, r.z, m.z.ranks);
  }

  // ----- filling the ghost cells of a rank

  /** One cell of one box. */
  ghost predicate CellHolds(m: Mesh, s: Shape, field: Triple<int> -> real, r: Triple<int>, grids: seq<Values>,
                            b: Triple<int>, x: Triple<int>)
    requires ValidMesh(m)
  {
    0 <= BoxNumber(m, b) < |grids| && BoxHolds(m, s, field, r, b, grids[BoxNumber(m, b)], x)
  }

  ghost predicate CellKept(m: Mesh, s: Shape, was: seq<Values>, now: seq<Values>, b: Triple<int>, x: Triple<int>) {
    var n, i := BoxNumber(m, b), Index(s, x);
    0 <= n < |was| == |now| && 0 <= i < |was[n]| == |now[n]| && now[n][i] == was[n][i]
  }

  /** What the copies with the first q tags have done: every cell one of them writes
      holds its value, every other cell is as it was. */
  ghost predicate Done(kind: Kind, m: Mesh, s: Shape, field: Triple<int> -> real, r: Triple<int>, tags: seq<Tag>,
                       q: nat,
                       was: seq<Values>, now: seq<Values>)
    requires ValidMesh(m) && q <= |tags|
  {
    && SameSizes(was, now)
    && forall b, x :: BoxCoord(m, b) && InBox(m, x) ==> DoneAt(kind, m, s, field, r, tags, q, was, now, b, x)
  }

  ghost predicate DoneAt(kind: Kind, m: Mesh, s: Shape, field: Triple<int> -> real, r: Triple<int>, tags: seq<Tag>,
                         q: nat,
                         was: seq<Values>, now: seq<Values>, b: Triple<int>, x: Triple<int>)
    requires ValidMesh(m) && q <= |tags|
  {
    if exists p :: 0 <= p < q && Writes(kind, m, tags[p], b, x) then
      CellHolds(m, s, field, r, now, b, x)
    else
      CellKept(m, s, was, now, b, x)
  }

  ghost predicate SameSizes(was: seq<Values>, now: seq<Values>) {
    |was| == |now| && forall n :: 0 <= n < |was| ==> |was[n]| == |now[n]|
  }

  /** The effect of the copy with tag h. */
  ghost predicate StepDone(kind: Kind, m: Mesh, s: Shape, field: Triple<int> -> real, r: Triple<int>, h: Tag,
                           was: seq<Values>, now: seq<Values>)
    requires ValidMesh(m)
  {
    && SameSizes(was, now)
    && forall b, x :: BoxCoord(m, b) && InBox(m, x) ==> StepAt(kind, m, s, field, r, h, was, now, b, x)
  }

  ghost predicate StepAt(kind: Kind, m: Mesh, s: Shape, field: Triple<int> -> real, r: Triple<int>, h: Tag,
                         was: seq<Values>, now: seq<Values>, b: Triple<int>, x: Triple<int>)
    requires ValidMesh(m)
  {
    if Writes(kind, m, h, b, x) then CellHolds(m, s, field, r, now, b, x) else CellKept(m, s, was, now, b, x)
  }

  lemma HoldsKept(m: Mesh, s: Shape, field: Triple<int> -> real, r: Triple<int>, was: seq<Values>, now: seq<Values>,
                  b: Triple<int>, x: Triple<int>)
    requires ValidMesh(m) && CellKept(m, s, was, now, b, x)
    ensures CellHolds(m, s, field, r, was, b, x) ==> CellHolds(m, s, field, r, now, b, x)
  {
    hide BoxNumber, Index, CellValue;
  }

  lemma DoneStep(kind: Kind, m: Mesh, s: Shape, field: Triple<int> -> real, r: Triple<int>, tags: seq<Tag>, q: nat,
                 was: seq<Values>, mid: seq<Values>, now: seq<Values>)
    requires ValidMesh(m) && q < |tags| && Done(kind, m, s, field, r, tags, q, was, mid)
    requires StepDone(kind, m, s, field, r, tags[q], mid, now)
    ensures Done(kind, m, s, field, r, tags, q + 1, was, now)
  {
    hide BoxCoord, InBox, Writes, CellHolds, CellKept, DoneAt, StepAt;
    forall b, x | BoxCoord(m, b) && InBox(m, x)
      ensures DoneAt(kind, m, s, field, r, tags, q + 1, was, now, b, x)
    {
      assert DoneAt(kind, m, s, field, r, tags, q, was, mid, b, x);
      assert StepAt(kind, m, s, field, r, tags[q], mid, now, b, x);
      DoneStepAt(kind, m, s, field, r, tags, q, was, mid, now, b, x);
    }
  }

  lemma DoneStepAt(kind: Kind, m: Mesh, s: Shape, field: Triple<int> -> real, r: Triple<int>, tags: seq<Tag>, q: nat,
                   was: seq<Values>, mid: seq<Values>, now: seq<Values>, b: Triple<int>, x: Triple<int>)
    requires ValidMesh(m) && q < |tags| && DoneAt(kind, m, s, field, r, tags, q, was, mid, b, x)
    requires StepAt(kind, m, s, field, r, tags[q], mid, now, b, x)
    ensures DoneAt(kind, m, s, field, r, tags, q + 1, was, now, b, x)
  {
    hide BoxCoord, InBox, Writes, CellHolds, BoxNumber, Index;
    if Writes(kind, m, tags[q], b, x) {
      assert 0 <= q < q + 1 && Writes(kind, m, tags[q], b, x);
    } else {
      HoldsKept(m, s, field, r, mid, now, b, x);
      if exists p :: 0 <= p < q && Writes(kind, m, tags[p], b, x) {
        var p :| 0 <= p < q && Writes(kind, m, tags[p], b, x);
        assert 0 <= p < q + 1 && Writes(kind, m, tags[p], b, x);
      }
    }
  }

  /** What every tag of the other two plans says. */
  lemma FillTag(kind: Kind, m: Mesh, r: Triple<int>, g: Tag)
    requires ValidMesh(m) && RankCoord(m, r) && kind != Pack && g in AllTags(kind, m, r)
    ensures Direction(g.d) && g.d != STAY && BoxCoord(m, g.b) && Wanted(kind, m, r, g.d, g.b) && !Off(m, r, g.b, g.d)
    ensures BoxCoord(m, BoxOver(m, g.b, g.d))
  {
    hide AllTags, RankOver, BoxOver, Off;
    AllTagsHas(kind, m, r, g);
    EligibleIs(kind, m, r, g);
    OverAndBack(m, r, g.b, g.d);
  }

  lemma GridSize(m: Mesh, s: Shape, field: Triple<int> -> real, r: Triple<int>, grids: seq<Values>)
    requires ValidMesh(m) && InteriorsHold(m, s, field, r, grids)
    ensures |grids| == BoxShape(m).volume
  {
  }

  lemma KeptInside(m: Mesh, s: Shape, was: seq<Values>, now: seq<Values>, b: Triple<int>, x: Triple<int>)
    requires ValidMesh(m) && Fits(s, Extent(m)) && BoxCoord(m, b) && InBox(m, x) && SameSizes(was, now)
    requires |was| == BoxShape(m).volume && 0 <= BoxNumber(m, b) < |was|
    requires |was[BoxNumber(m, b)]| == s.volume && was[BoxNumber(m, b)] == now[BoxNumber(m, b)]
    ensures CellKept(m, s, was, now, b, x)
  {
    hide Index, BoxNumber, Fits, Extent;
    IndexInside(s, Extent(m), x);
  }

  /** A local copy has the effect that its tag says. */
  lemma LocalStep(m: Mesh, s: Shape, field: Triple<int> -> real, r: Triple<int>, h: Tag, was: seq<Values>, grid: Values)
    requires ValidMesh(m) && RankCoord(m, r) && Fits(s, Extent(m)) && h in AllTags(Local, m, r)
    requires InteriorsHold(m, s, field, r, was)
    requires 0 <= BoxNumber(m, h.b) < |was| && 0 <= NeighboringIndex(m, h.b, h.d) < |was|
    requires Copied(CopyFor(Local, m, s, h.d, h.b), was[BoxNumber(m, h.b)], was[NeighboringIndex(m, h.b, h.d)], grid)
    ensures StepDone(Local, m, s, field, r, h, was, was[NeighboringIndex(m, h.b, h.d) := grid])
  {
    var n := NeighboringIndex(m, h.b, h.d);
    var now := was[n := grid];
    FillTag(Local, m, r, h);
    assert n == BoxNumber(m, BoxOver(m, h.b, h.d));
    CopiedSize(CopyFor(Local, m, s, h.d, h.b), was[BoxNumber(m, h.b)], was[n], grid);
    GridSize(m, s, field, r, was);
    InteriorOf(m, s, field, r, was, h.b);
    hide InteriorsHold, InteriorHolds, AllTags, Copied, BoxNumber, NeighboringIndex, BoxOver, RankOver, Off, Direction,
         InRegion,
      Fits, Extent, BoxShape, Index, CellValue, BoxCoord, InBox, Negated;
    forall b, x | BoxCoord(m, b) && InBox(m, x)
      ensures StepAt(Local, m, s, field, r, h, was, now, b, x)
    {
      InteriorOf(m, s, field, r, was, b);
      NumberedBoxes(m, b, BoxOver(m, h.b, h.d));
      if b == BoxOver(m, h.b, h.d) {
        LocalCopyWrites(m, s, field, r, h, was[BoxNumber(m, h.b)], was[n], grid, x);
      } else {
        KeptInside(m, s, was, now, b, x);
      }
    }
  }

  lemma CopiedSize(c: Copy, src: Values, was: Values, now: Values)
    requires Copied(c, src, was, now)
    ensures |now| == |was|
  {
  }

  lemma MessageFor(m: Mesh, r: Triple<int>, g: Tag)
    requires ValidMesh(m) && RankCoord(m, r) && g in AllTags(Unpack, m, r)
    ensures Direction(g.d) && BoxCoord(m, g.b) && !Off(m, r, g.b, g.d)
    ensures Direction(LeavesBy(m, g.b, g.d)) && HasMessage(m, r, LeavesBy(m, g.b, g.d))
    ensures RankOver(m, r, g.b, g.d) == RankNextTo(m, r, LeavesBy(m, g.b, g.d))
  {
    hide AllTags, RankOver, Off, LeavesBy, RankNextTo, HasMessage, Direction;
    FillTag(Unpack, m, r, g);
    OverIsNextTo(m, r, g.b, g.d);
  }

  /** Unpacking has the effect that its tag says. */
  lemma UnpackStep(m: Mesh, s: Shape, field: Triple<int> -> real, r: Triple<int>, h: Tag, buffer: Values,
                   was: seq<Values>, grid: Values)
    requires ValidMesh(m) && RankCoord(m, r) && Fits(s, Extent(m)) && h in AllTags(Unpack, m, r)
    requires InteriorsHold(m, s, field, r, was) && 0 <= BoxNumber(m, h.b) < |was|
    requires MessageHolds(m, field, RankOver(m, r, h.b, h.d), LeavesBy(m, h.b, h.d), buffer)
    requires Copied(CopyFor(Unpack, m, s, h.d, h.b), buffer, was[BoxNumber(m, h.b)], grid)
    ensures StepDone(Unpack, m, s, field, r, h, was, was[BoxNumber(m, h.b) := grid])
  {
    var n := BoxNumber(m, h.b);
    var now := was[n := grid];
    FillTag(Unpack, m, r, h);
    CopiedSize(CopyFor(Unpack, m, s, h.d, h.b), buffer, was[n], grid);
    GridSize(m, s, field, r, was);
    hide InteriorsHold, InteriorHolds, AllTags, Copied, BoxNumber, BoxOver, RankOver, Off, Direction, InRegion,
         MessageHolds,
      Fits, Extent, BoxShape, Index, CellValue, BoxCoord, InBox, LeavesBy;
    forall b, x | BoxCoord(m, b) && InBox(m, x)
      ensures StepAt(Unpack, m, s, field, r, h, was, now, b, x)
    {
      InteriorOf(m, s, field, r, was, b);
      NumberedBoxes(m, b, h.b);
      if b == h.b {
        UnpackCopyWrites(m, s, field, r, h, buffer, was[n], grid, x);
      } else {
        KeptInside(m, s, was, now, b, x);
      }
    }
  }

  /** Interiors are never written. */
  lemma InteriorsStay(kind: Kind, m: Mesh, s: Shape, field: Triple<int> -> real, r: Triple<int>, q: nat,
                      was: seq<Values>, now: seq<Values>)
    requires ValidMesh(m) && RankCoord(m, r) && kind != Pack && q <= |AllTags(kind, m, r)|
    requires InteriorsHold(m, s, field, r, was) && Done(kind, m, s, field, r, AllTags(kind, m, r), q, was, now)
    ensures InteriorsHold(m, s, field, r, now)
  {
    hide AllTags, BoxNumber, CellValue, Index, BoxShape, Writes, Done, InteriorsHold, BoxCoord, InBox, SideOf;
    GridSize(m, s, field, r, was);
    DoneSizes(kind, m, s, field, r, AllTags(kind, m, r), q, was, now);
    forall b | BoxCoord(m, b)
      ensures 0 <= BoxNumber(m, b) < |now| && InteriorHolds(m, s, field, r, b, now[BoxNumber(m, b)])
    {
      InteriorOf(m, s, field, r, was, b);
      forall x | InBox(m, x) && SideOf(m, x) == STAY
        ensures BoxHolds(m, s, field, r, b, now[BoxNumber(m, b)], x)
      {
        InteriorAt(m, s, field, r, b, was[BoxNumber(m, b)], x);
        UnwrittenKept(kind, m, s, field, r, q, was, now, b, x);
      }
    }
    InteriorsFrom(m, s, field, r, now);
  }

  lemma InteriorsFrom(m: Mesh, s: Shape, field: Triple<int> -> real, r: Triple<int>, grids: seq<Values>)
    requires ValidMesh(m) && |grids| == BoxShape(m).volume
    requires forall b :: BoxCoord(m, b) ==>
               0 <= BoxNumber(m, b) < |grids| && InteriorHolds(m, s, field, r, b, grids[BoxNumber(m, b)])
    ensures InteriorsHold(m, s, field, r, grids)
  {
    hide BoxCoord, BoxNumber, InteriorHolds, BoxShape;
  }

  lemma DoneSizes(kind: Kind, m: Mesh, s: Shape, field: Triple<int> -> real, r: Triple<int>, tags: seq<Tag>, q: nat,
                  was: seq<Values>, now: seq<Values>)
    requires ValidMesh(m) && q <= |tags| && Done(kind, m, s, field, r, tags, q, was, now)
    ensures SameSizes(was, now)
  {
    hide BoxCoord, InBox, DoneAt, SameSizes;
  }

  /** A cell of the interior, or next to the edge of the domain, is never written. */
  lemma UnwrittenKept(kind: Kind, m: Mesh, s: Shape, field: Triple<int> -> real, r: Triple<int>, q: nat,
                      was: seq<Values>, now: seq<Values>, b: Triple<int>, x: Triple<int>)
    requires ValidMesh(m) && RankCoord(m, r) && q <= |AllTags(kind, m, r)| && BoxCoord(m, b) && InBox(m, x)
    requires Done(kind, m, s, field, r, AllTags(kind, m, r), q, was, now)
    requires SideOf(m, x) == STAY || Off(m, r, b, SideOf(m, x)) || kind != WriterKind(m, r, b, SideOf(m, x))
    ensures CellKept(m, s, was, now, b, x)
  {
    hide AllTags, Writes, CellKept, CellHolds, BoxCoord, InBox, SideOf, Off, WriterKind;
    var tags := AllTags(kind, m, r);
    assert DoneAt(kind, m, s, field, r, tags, q, was, now, b, x);
    if exists p :: 0 <= p < q && Writes(kind, m, tags[p], b, x) {
      var p :| 0 <= p < q && Writes(kind, m, tags[p], b, x);
      OnlyWriter(m, r, b, x, kind, tags[p]);
    }
  }

  /** A cell that the plan writes holds its value when all copies are done. */
  lemma WrittenHolds(kind: Kind, m: Mesh, s: Shape, field: Triple<int> -> real, r: Triple<int>, was: seq<Values>,
                     now: seq<Values>, b: Triple<int>, x: Triple<int>)
    requires ValidMesh(m) && RankCoord(m, r) && BoxCoord(m, b) && InBox(m, x)
    requires Done(kind, m, s, field, r, AllTags(kind, m, r), |AllTags(kind, m, r)|, was, now)
    requires SideOf(m, x) != STAY && !Off(m, r, b, SideOf(m, x)) && kind == WriterKind(m, r, b, SideOf(m, x))
    ensures CellHolds(m, s, field, r, now, b, x)
  {
    hide AllTags, Writes, CellKept, CellHolds, BoxCoord, InBox, SideOf, Off, WriterKind, Writer;
    var tags := AllTags(kind, m, r);
    var g := Writer(m, r, b, SideOf(m, x));
    WriterPlanned(m, r, b, x);
    var p :| 0 <= p < |tags| && tags[p] == g;
    assert Writes(kind, m, tags[p], b, x);
    assert DoneAt(kind, m, s, field, r, tags, |tags|, was, now, b, x);
  }

  lemma NothingDone(kind: Kind, m: Mesh, s: Shape, field: Triple<int> -> real, r: Triple<int>, tags: seq<Tag>,
                    was: seq<Values>)
    requires ValidMesh(m) && RankCoord(m, r) && Fits(s, Extent(m)) && InteriorsHold(m, s, field, r, was)
    ensures Done(kind, m, s, field, r, tags, 0, was, was)
  {
    GridSize(m, s, field, r, was);
    hide Writes, CellKept, CellHolds, BoxCoord, InBox, InteriorsHold, Fits, Extent, BoxShape, BoxNumber, InteriorHolds;
    forall b, x | BoxCoord(m, b) && InBox(m, x)
      ensures DoneAt(kind, m, s, field, r, tags, 0, was, was, b, x)
    {
      InteriorOf(m, s, field, r, was, b);
      KeptInside(m, s, was, was, b, x);
    }
  }

  /** The copies between boxes of the rank. */
  method RunLocal(m: Mesh, s: Shape, ghost field: Triple<int> -> real, r: Triple<int>, plan: seq<Copy>,
                  grids: seq<Values>)
    returns (out: seq<Values>)
    requires ValidMesh(m) && RankCoord(m, r) && Fits(s, Extent(m))
    requires plan == CopiesOf(Local, m, s, AllTags(Local, m, r)) && InteriorsHold(m, s, field, r, grids)
    ensures Done(Local, m, s, field, r, AllTags(Local, m, r), |AllTags(Local, m, r)|, grids, out)
    ensures InteriorsHold(m, s, field, r, out)
  {
    ghost var tags := AllTags(Local, m, r);
    hide InteriorsHold, InteriorHolds, AllTags, Inside, Apart, Copied, Direction, BoxNumber, Wanted, Off, BoxOver, Done,
      StepDone, Fits, Extent, BoxShape, BoxCoord, Lengths, SourceStarts, GhostStarts, Negated;
    out := grids;
    NothingDone(Local, m, s, field, r, tags, grids);
    for q := 0 to |plan|
      invariant Done(Local, m, s, field, r, tags, q, grids, out) && InteriorsHold(m, s, field, r, out)
    {
      ghost var h := tags[q];
      FillTag(Local, m, r, h);
      InteriorOf(m, s, field, r, out, h.b);
      InteriorOf(m, s, field, r, out, BoxOver(m, h.b, h.d));
      LocalInside(m, s, h.d, h.b);
      LocalApart(m, s, h.d, h.b);
      var c := plan[q];
      var i, j := c.from.box, c.to.box;
      var now := ApplyCopy(c, out[i], out[j], i == j, Extent(m), Extent(m));
      LocalStep(m, s, field, r, h, out, now);
      ghost var mid := out;
      out := out[j := now];
      DoneStep(Local, m, s, field, r, tags, q, grids, mid, out);
      InteriorsStay(Local, m, s, field, r, q + 1, grids, out);
    }
  }

  /** All messages that the rank waits for have arrived. */
  ghost predicate MessagesHold(m: Mesh, field: Triple<int> -> real, r: Triple<int>, recv: seq<Values>)
    requires ValidMesh(m)
  {
    && |recv| == 27
    && forall e :: Direction(e) && HasMessage(m, r, e) ==>
         0 <= Number(e) < 27 && MessageHolds(m, field, RankNextTo(m, r, e), e, recv[Number(e)])
  }

  lemma MessageOf(m: Mesh, field: Triple<int> -> real, r: Triple<int>, recv: seq<Values>, e: Triple<int>)
    requires ValidMesh(m) && MessagesHold(m, field, r, recv) && Direction(e) && HasMessage(m, r, e)
    ensures |recv| == 27 && 0 <= Number(e) < 27 && MessageHolds(m, field, RankNextTo(m, r, e), e, recv[Number(e)])
    ensures |recv[Number(e)]| == BufferShape(m, e).volume
  {
    hide Direction, HasMessage, RankNextTo, Number, BufferHolds, BufferShape;
  }

  /** The copies out of the messages. */
  method RunUnpack(m: Mesh, s: Shape, ghost field: Triple<int> -> real, r: Triple<int>, plan: seq<Copy>,
                   recv: seq<Values>, grids: seq<Values>)
    returns (out: seq<Values>)
    requires ValidMesh(m) && RankCoord(m, r) && Fits(s, Extent(m))
    requires plan == CopiesOf(Unpack, m, s, AllTags(Unpack, m, r)) && InteriorsHold(m, s, field, r, grids)
    requires MessagesHold(m, field, r, recv)
    ensures Done(Unpack, m, s, field, r, AllTags(Unpack, m, r), |AllTags(Unpack, m, r)|, grids, out)
  {
    ghost var tags := AllTags(Unpack, m, r);
    hide InteriorsHold, InteriorHolds, AllTags, Inside, Copied, Direction, BoxNumber, Off, BoxOver, Done, MessagesHold,
      MessageHolds, HasMessage, RankNextTo, RankOver, LeavesBy, Number,
      StepDone, Fits, Extent, BoxShape, BoxCoord, Lengths, UnpackStarts, GhostStarts, BufferShape, BufferExtent;
    out := grids;
    NothingDone(Unpack, m, s, field, r, tags, grids);
    for q := 0 to |plan|
      invariant Done(Unpack, m, s, field, r, tags, q, grids, out) && InteriorsHold(m, s, field, r, out)
    {
      ghost var h := tags[q];
      MessageFor(m, r, h);
      MessageOf(m, field, r, recv, LeavesBy(m, h.b, h.d));
      InteriorOf(m, s, field, r, out, h.b);
      UnpackInside(m, s, r, h.d, h.b);
      var c := plan[q];
      var n, j := c.from.n, c.to.box;
      var now := ApplyCopy(c, recv[n], out[j], false, BufferExtent(m, LeavesBy(m, h.b, h.d)), Extent(m));
      UnpackStep(m, s, field, r, h, recv[n], out, now);
      ghost var mid := out;
      out := out[j := now];
      DoneStep(Unpack, m, s, field, r, tags, q, grids, mid, out);
      InteriorsStay(Unpack, m, s, field, r, q + 1, grids, out);
    }
  }

  // ----- all ranks

  /** What the exchange leaves in cell x of box b: the value of the field, wherever there
      is a box for it; what was there, at the edge of the domain. */
  ghost predicate Exchanged(m: Mesh, s: Shape, field: Triple<int> -> real, r: Triple<int>, was: seq<Values>,
                            now: seq<Values>, b: Triple<int>, x: Triple<int>)
    requires ValidMesh(m)
  {
    if SideOf(m, x) == STAY || !Off(m, r, b, SideOf(m, x)) then
      CellHolds(m, s, field, r, now, b, x)
    else
      CellKept(m, s, was, now, b, x)
  }

  lemma KeptTwice(m: Mesh, s: Shape, was: seq<Values>, mid: seq<Values>, now: seq<Values>, b: Triple<int>,
                  x: Triple<int>)
    requires CellKept(m, s, was, mid, b, x) && CellKept(m, s, mid, now, b, x)
    ensures CellKept(m, s, was, now, b, x)
  {
    hide BoxNumber, Index;
  }

  lemma InteriorCell(m: Mesh, s: Shape, field: Triple<int> -> real, r: Triple<int>, grids: seq<Values>, b: Triple<int>,
                     x: Triple<int>)
    requires ValidMesh(m) && InteriorsHold(m, s, field, r, grids) && BoxCoord(m, b) && InBox(m, x)
    requires SideOf(m, x) == STAY
    ensures CellHolds(m, s, field, r, grids, b, x)
  {
    InteriorOf(m, s, field, r, grids, b);
    hide InteriorsHold, InteriorHolds, BoxCoord, InBox, SideOf, BoxNumber, BoxHolds;
    InteriorAt(m, s, field, r, b, grids[BoxNumber(m, b)], x);
  }

  /** Local copies and unpacking together fill every cell there is a value for. */
  lemma BothFill(m: Mesh, s: Shape, field: Triple<int> -> real, r: Triple<int>, was: seq<Values>, mid: seq<Values>,
                 now: seq<Values>, b: Triple<int>, x: Triple<int>)
    requires ValidMesh(m) && RankCoord(m, r) && BoxCoord(m, b) && InBox(m, x) && InteriorsHold(m, s, field, r, was)
    requires Done(Local, m, s, field, r, AllTags(Local, m, r), |AllTags(Local, m, r)|, was, mid)
    requires Done(Unpack, m, s, field, r, AllTags(Unpack, m, r), |AllTags(Unpack, m, r)|, mid, now)
    ensures Exchanged(m, s, field, r, was, now, b, x)
  {
    var d := SideOf(m, x);
    var kind := WriterKind(m, r, b, d);
    hide AllTags, InteriorsHold, Done, CellKept, CellHolds, SideOf, Off, BoxCoord, InBox, RankOver;
    var l, u := |AllTags(Local, m, r)|, |AllTags(Unpack, m, r)|;
    if d == STAY || Off(m, r, b, d) {
      UnwrittenKept(Local, m, s, field, r, l, was, mid, b, x);
      UnwrittenKept(Unpack, m, s, field, r, u, mid, now, b, x);
      KeptTwice(m, s, was, mid, now, b, x);
      if d == STAY {
        InteriorCell(m, s, field, r, was, b, x);
        HoldsKept(m, s, field, r, was, now, b, x);
      }
    } else if kind == Local {
      WrittenHolds(Local, m, s, field, r, was, mid, b, x);
      UnwrittenKept(Unpack, m, s, field, r, u, mid, now, b, x);
      HoldsKept(m, s, field, r, mid, now, b, x);
    } else {
      WrittenHolds(Unpack, m, s, field, r, mid, now, b, x);
    }
  }

  /** Ranks by number, laid out in x, then y, then z. */
  function RankAt(m: Mesh, n: int): Triple<int>
    requires ValidMesh(m)
  {
    Triple(n % m.x.ranks, (n / m.x.ranks) % m.y.ranks, (n / m.x.ranks) / m.y.ranks)
  }

  lemma RankAtIs(m: Mesh, n: int)
    requires ValidMesh(m) && 0 <= n < RankShape(m).volume
    ensures RankCoord(m, RankAt(m, n)) && RankNumber(m, RankAt(m, n)) == n
  {
    var rx, ry, rz := m.x.ranks, m.y.ranks, m.z.ranks;
    assert rz * (rx * ry) == rx * ry * rz;
    MixedRadixSplit(n, rx, ry, rz);
    var r := RankAt(m, n);
    assert r.x + rx * (r.y + ry * r.z) == r.x + r.y * rx + r.z * (rx * ry);
  }

  lemma RankOfNumber(m: Mesh, r: Triple<int>)
    requires ValidMesh(m) && RankCoord(m, r)
    ensures 0 <= RankNumber(m, r) < RankShape(m).volume && RankAt(m, RankNumber(m, r)) == r
  {
    NumberedRanks(m, r, r);
    RankAtIs(m, RankNumber(m, r));
    NumberedRanks(m, RankAt(m, RankNumber(m, r)), r);
    hide RankNumber, RankAt, RankShape;
  }

  function VolumeOf(m: Mesh, n: int): int {
    BufferShape(m, DirectionOf(n)).volume
  }

  lemma VolumePositive(m: Mesh, n: int)
    requires ValidMesh(m)
    ensures VolumeOf(m, n) >= 0
  {
    var e := BufferExtent(m, DirectionOf(n));
    assert e.x >= 0 && e.y >= 0 && e.z >= 0 by {
      MulMono(0, m.x.boxes, m.x.dim);
      MulMono(0, m.y.boxes, m.y.dim);
      MulMono(0, m.z.boxes, m.z.dim);
    }
    MulMono(0, e.y, e.x);
    MulMono(0, e.z, e.y * e.x);
  }

  /** Buffers for all directions, cleared. */
  method NewBuffers(m: Mesh) returns (buffers: seq<Values>)
    requires ValidMesh(m)
    ensures BuffersSized(m, buffers)
  {
    hide VolumeOf, ValidMesh;
    buffers := [];
    for n := 0 to 27
      invariant |buffers| == n && forall k :: 0 <= k < n ==> |buffers[k]| == VolumeOf(m, k)
    {
      VolumePositive(m, n);
      buffers := buffers + [seq(VolumeOf(m, n), _ => 0.0)];
    }
    SizedByNumber(m, buffers);
  }

  lemma SizedByNumber(m: Mesh, buffers: seq<Values>)
    requires |buffers| == 27 && forall k :: 0 <= k < 27 ==> |buffers[k]| == VolumeOf(m, k)
    ensures BuffersSized(m, buffers)
  {
    hide BufferShape, Direction, Number, DirectionOf;
    forall d | Direction(d)
      ensures 0 <= Number(d) < 27 && |buffers[Number(d)]| == BufferShape(m, d).volume
    {
      NumberRoundTrip(d, 0);
    }
  }

  /** The messages of rank r are packed. */
  ghost predicate Sent(m: Mesh, field: Triple<int> -> real, r: Triple<int>, send: seq<Values>)
    requires ValidMesh(m)
  {
    && BuffersSized(m, send) && |send| == 27
    && forall g :: g in AllTags(Pack, m, r) ==> PartHolds(m, field, r, g, send)
  }

  ghost predicate AllSent(m: Mesh, field: Triple<int> -> real, sends: seq<seq<Values>>, n: nat)
    requires ValidMesh(m)
  {
    n <= |sends| && forall k :: 0 <= k < n ==> Sent(m, field, RankAt(m, k), sends[k])
  }

  /** The grids of every rank hold the field in their interiors. */
  ghost predicate WorldHolds(m: Mesh, s: Shape, field: Triple<int> -> real, world: seq<seq<Values>>)
    requires ValidMesh(m)
  {
    && |world| == RankShape(m).volume
    && forall n :: 0 <= n < |world| ==> InteriorsHold(m, s, field, RankAt(m, n), world[n])
  }

  /** What arrives for direction e: what the rank there sent in the opposite one. */
  method Deliver(m: Mesh, ghost field: Triple<int> -> real, r: Triple<int>, sends: seq<seq<Values>>)
    returns (recv: seq<Values>)
    requires ValidMesh(m) && RankCoord(m, r) && |sends| == RankShape(m).volume && AllSent(m, field, sends, |sends|)
    ensures MessagesHold(m, field, r, recv)
  {
    hide AllSent, Sent, BuffersSized, MessageHolds, HasMessage, RankNextTo, RankNumber, RankShape, Direction,
         DirectionOf, ValidMesh;
    recv := NewBuffers(m);
    BuffersAre27(m, recv);
    for n := 0 to 27
      invariant |recv| == 27
      invariant forall k :: 0 <= k < n ==> Arrived(m, field, r, k, recv[k])
    {
      var e := DirectionOf(26 - n);
      DirectionByNumber(n);
      if HasMessage(m, r, DirectionOf(n)) {
        ghost var d := DirectionOf(n);
        NextToAndBack(m, r, d);
        RankOfNumber(m, RankNextTo(m, r, d));
        var k := RankNumber(m, RankNextTo(m, r, DirectionOf(n)));
        OppositeNumber(n);
        AskSent(m, field, sends, k);
        recv := recv[n := sends[k][26 - n]];
        DeliveredBy(m, field, r, n, sends[k]);
      }
      assert Arrived(m, field, r, n, recv[n]);
    }
    AllArrived(m, field, r, recv);
  }

  ghost predicate Arrived(m: Mesh, field: Triple<int> -> real, r: Triple<int>, n: int, buffer: Values)
    requires ValidMesh(m)
  {
    HasMessage(m, r, DirectionOf(n)) ==>
      MessageHolds(m, field, RankNextTo(m, r, DirectionOf(n)), DirectionOf(n), buffer)
  }

  lemma AskSent(m: Mesh, field: Triple<int> -> real, sends: seq<seq<Values>>, k: int)
    requires ValidMesh(m) && AllSent(m, field, sends, |sends|) && 0 <= k < |sends|
    ensures Sent(m, field, RankAt(m, k), sends[k]) && |sends[k]| == 27
  {
    hide BuffersSized, RankAt, AllTags, PartHolds;
  }

  lemma OppositeNumber(n: int)
    requires 0 <= n < 27
    ensures Negated(DirectionOf(n)) == DirectionOf(26 - n)
  {
    var d := DirectionOf(n);
    NumberRoundTrip(d, n);
    NegatedTwice(d);
    NumberRoundTrip(Negated(d), 26 - n);
    hide DirectionOf, Number, Direction;
  }

  lemma DirectionByNumber(n: int)
    requires 0 <= n < 27
    ensures Direction(DirectionOf(n)) && Number(DirectionOf(n)) == n
    ensures Direction(Negated(DirectionOf(n))) && Number(Negated(DirectionOf(n))) == 26 - n
  {
    NumberRoundTrip(STAY, n);
    NegatedTwice(DirectionOf(n));
    NumberRoundTrip(DirectionOf(n), n);
  }

  /** A message packed for the opposite direction is the message that is waited for. */
  lemma MessageBack(m: Mesh, field: Triple<int> -> real, q: Triple<int>, e: Triple<int>, buffer: Values)
    requires ValidMesh(m) && |buffer| == BufferShape(m, Negated(e)).volume
    requires forall u :: InRange(Triple(0, 0, 0), u, BufferExtent(m, Negated(e))) ==>
               BufferHolds(m, field, q, Negated(e), buffer, u)
    ensures MessageHolds(m, field, q, e, buffer)
  {
    BufferBack(m, e);
    hide BufferShape, BufferExtent, BufferHolds, Negated;
  }

  lemma DeliveredBy(m: Mesh, field: Triple<int> -> real, r: Triple<int>, n: int, send: seq<Values>)
    requires ValidMesh(m) && RankCoord(m, r) && 0 <= n < 27 && HasMessage(m, r, DirectionOf(n))
    requires Sent(m, field, RankNextTo(m, r, DirectionOf(n)), send) && |send| == 27
    ensures MessageHolds(m, field, RankNextTo(m, r, DirectionOf(n)), DirectionOf(n), send[26 - n])
  {
    DirectionByNumber(n);
    SentParts(m, field, RankNextTo(m, r, DirectionOf(n)), send);
    hide *;
    var e := DirectionOf(n);
    NextToAndBack(m, r, e);
    MessageComplete(m, field, RankNextTo(m, r, e), Negated(e), send);
    MessageBack(m, field, RankNextTo(m, r, e), e, send[26 - n]);
  }

  lemma SentParts(m: Mesh, field: Triple<int> -> real, r: Triple<int>, send: seq<Values>)
    requires ValidMesh(m) && Sent(m, field, r, send)
    ensures BuffersSized(m, send) && |send| == 27
    ensures forall g :: g in AllTags(Pack, m, r) ==> PartHolds(m, field, r, g, send)
  {
    hide BuffersSized, AllTags, PartHolds;
  }

  lemma AllArrived(m: Mesh, field: Triple<int> -> real, r: Triple<int>, recv: seq<Values>)
    requires ValidMesh(m) && |recv| == 27 && forall k :: 0 <= k < 27 ==> Arrived(m, field, r, k, recv[k])
    ensures MessagesHold(m, field, r, recv)
  {
    hide HasMessage, RankNextTo, DirectionOf, Number, Direction, MessageHolds, ValidMesh;
    forall e | Direction(e) && HasMessage(m, r, e)
      ensures 0 <= Number(e) < 27 && MessageHolds(m, field, RankNextTo(m, r, e), e, recv[Number(e)])
    {
      NumberRoundTrip(e, 0);
      assert Arrived(m, field, r, Number(e), recv[Number(e)]);
    }
  }

  /** One cell of one rank, by the rank's number. */
  ghost predicate ExchangedOn(m: Mesh, s: Shape, field: Triple<int> -> real, n: int, was: seq<Values>, now: seq<Values>)
    requires ValidMesh(m)
  {
    forall b, x :: BoxCoord(m, b) && InBox(m, x) ==> Exchanged(m, s, field, RankAt(m, n), was, now, b, x)
  }

  /** create_domain's plan and exchange_boundary, with all of faces, edges and corners, on
      all ranks. */
  method ExchangeBoundary(m: Mesh, s: Shape, ghost field: Triple<int> -> real, world: seq<seq<Values>>)
    returns (out: seq<seq<Values>>)
    requires ValidMesh(m) && Fits(s, Extent(m)) && WorldHolds(m, s, field, world)
    ensures |out| == |world| == RankShape(m).volume
    ensures forall n :: 0 <= n < |out| ==> ExchangedOn(m, s, field, n, world[n], out[n])
  {
    hide WorldHolds, AllSent, Sent, BuffersSized, InteriorsHold, MessagesHold, Done, RankAt, RankCoord, Fits, Extent,
         AllTags,
      ExchangedOn, RankShape, ValidMesh;
    WorldSize(m, s, field, world);
    var sends := [];
    NoneSent(m, field);
    for n := 0 to |world|
      invariant |sends| == n && AllSent(m, field, sends, n)
    {
      RankAtIs(m, n);
      WorldAt(m, s, field, world, n);
      var r := RankAt(m, n);
      var plan := BuildPlan(Pack, m, s, r);
      var buffers := NewBuffers(m);
      var send := RunPack(m, s, field, r, plan, world[n], buffers);
      SentMore(m, field, sends, send);
      sends := sends + [send];
    }
    out := [];
    for n := 0 to |world|
      invariant |out| == n && forall k :: 0 <= k < n ==> ExchangedOn(m, s, field, k, world[k], out[k])
    {
      RankAtIs(m, n);
      WorldAt(m, s, field, world, n);
      var r := RankAt(m, n);
      var recv := Deliver(m, field, r, sends);
      var localPlan := BuildPlan(Local, m, s, r);
      var mid := RunLocal(m, s, field, r, localPlan, world[n]);
      var unpackPlan := BuildPlan(Unpack, m, s, r);
      var now := RunUnpack(m, s, field, r, unpackPlan, recv, mid);
      ExchangedBy(m, s, field, n, world[n], mid, now);
      out := out + [now];
    }
  }

  lemma WorldSize(m: Mesh, s: Shape, field: Triple<int> -> real, world: seq<seq<Values>>)
    requires ValidMesh(m) && WorldHolds(m, s, field, world)
    ensures |world| == RankShape(m).volume
  {
  }

  lemma WorldAt(m: Mesh, s: Shape, field: Triple<int> -> real, world: seq<seq<Values>>, n: int)
    requires ValidMesh(m) && WorldHolds(m, s, field, world) && 0 <= n < |world|
    ensures InteriorsHold(m, s, field, RankAt(m, n), world[n])
  {
    hide InteriorsHold, RankAt;
  }

  lemma NoneSent(m: Mesh, field: Triple<int> -> real)
    requires ValidMesh(m)
    ensures AllSent(m, field, [], 0)
  {
  }

  lemma SentMore(m: Mesh, field: Triple<int> -> real, sends: seq<seq<Values>>, send: seq<Values>)
    requires ValidMesh(m) && AllSent(m, field, sends, |sends|) && BuffersSized(m, send)
    requires |send| == 27 ==> forall g :: g in AllTags(Pack, m, RankAt(m, |sends|)) ==>
               PartHolds(m, field, RankAt(m, |sends|), g, send)
    ensures AllSent(m, field, sends + [send], |sends| + 1)
  {
    BuffersAre27(m, send);
    hide BuffersSized, RankAt, AllTags, PartHolds;
    forall k | 0 <= k < |sends| + 1
      ensures Sent(m, field, RankAt(m, k), (sends + [send])[k])
    {
      if k < |sends| {
        assert Sent(m, field, RankAt(m, k), sends[k]);
      }
    }
  }

  lemma ExchangedBy(m: Mesh, s: Shape, field: Triple<int> -> real, n: int, was: seq<Values>, mid: seq<Values>,
                    now: seq<Values>)
    requires ValidMesh(m) && RankCoord(m, RankAt(m, n)) && InteriorsHold(m, s, field, RankAt(m, n), was)
    requires var r := RankAt(m, n);
             && Done(Local, m, s, field, r, AllTags(Local, m, r), |AllTags(Local, m, r)|, was, mid)
             && Done(Unpack, m, s, field, r, AllTags(Unpack, m, r), |AllTags(Unpack, m, r)|, mid, now)
    ensures ExchangedOn(m, s, field, n, was, now)
  {
    hide InteriorsHold, Done, AllTags, RankAt, RankCoord, Exchanged, BoxCoord, InBox;
    forall b, x | BoxCoord(m, b) && InBox(m, x)
      ensures Exchanged(m, s, field, RankAt(m, n), was, now, b, x)
    {
      BothFill(m, s, field, RankAt(m, n), was, mid, now, b, x);
    }
  }
}
