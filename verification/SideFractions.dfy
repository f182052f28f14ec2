/** The areas of sides and zones, and the share of each side in its zone, chunk by chunk. */
module SideFractions {
  import opened MeshChunks
  import opened MeshSides
  import opened HydroTotals

  datatype Double2 = Double2(x: real, y: real)

  function Minus(v: Double2, w: Double2): Double2 {
    Double2(v.x - w.x, v.y - w.y)
  }

  function Cross(v: Double2, w: Double2): real {
    v.x * w.y - v.y * w.x
  }

  /** The points and the zone of a side exist. */
  predicate HasEnds(side: Side, nump: nat, numz: nat) {
    side.p1 < nump && side.p2 < nump && side.z < numz
  }

  /** The triangle of a side and the centre of its zone. */
  function SideArea(px: seq<Double2>, zx: seq<Double2>, side: Side): real
    requires HasEnds(side, |px|, |zx|)
  {
    0.5 * Cross(Minus(px[side.p2], px[side.p1]), Minus(zx[side.z], px[side.p1]))
  }

  /** That triangle turned around the axis. */
  function SideVolume(px: seq<Double2>, zx: seq<Double2>, side: Side): real
    requires HasEnds(side, |px|, |zx|)
  {
    (1.0 / 3.0) * SideArea(px, zx, side) * (px[side.p1].x + px[side.p2].x + zx[side.z].x)
  }

  ghost predicate AllHaveEnds(maps: seq<Side>, nump: nat, numz: nat) {
    forall s :: 0 <= s < |maps| ==> HasEnds(maps[s], nump, numz)
  }

  ghost function SideAreas(maps: seq<Side>, px: seq<Double2>, zx: seq<Double2>): (a: seq<real>)
    requires AllHaveEnds(maps, |px|, |zx|)
    ensures |a| == |maps|
  {
    seq(|maps|, s requires 0 <= s < |maps| => SideArea(px, zx, maps[s]))
  }

  ghost function SideVolumes(maps: seq<Side>, px: seq<Double2>, zx: seq<Double2>): (a: seq<real>)
    requires AllHaveEnds(maps, |px|, |zx|)
    ensures |a| == |maps|
  {
    seq(|maps|, s requires 0 <= s < |maps| => SideVolume(px, zx, maps[s]))
  }

  lemma SideIs(maps: seq<Side>, px: seq<Double2>, zx: seq<Double2>, s: nat)
    requires AllHaveEnds(maps, |px|, |zx|) && s < |maps|
    ensures HasEnds(maps[s], |px|, |zx|)
    ensures SideAreas(maps, px, zx)[s] == SideArea(px, zx, maps[s])
    ensures SideVolumes(maps, px, zx)[s] == SideVolume(px, zx, maps[s])
  {
    hide SideArea, SideVolume, HasEnds;
  }

  // ----- what the sides before s add to their zones

  /** s, or the nearest side boundary of zone z. */
  ghost function Upto(size: seq<nat>, z: nat, s: nat): (t: nat)
    requires z < |size|
    ensures t == Start(size, z) || t <= s
  {
    var lo := Start(size, z);
    if s < lo then lo else if s > lo + size[z] then lo + size[z] else s
  }

  lemma UptoFits(size: seq<nat>, z: nat, s: nat)
    requires z < |size|
    ensures Start(size, z) <= Upto(size, z, s) <= Start(size, z) + size[z] <= Start(size, |size|)
  {
    StartNext(size, z);
    StartsInOrder(size, z + 1, |size|);
    hide Start;
  }

  /** What the sides before s contribute to zone z. */
  ghost function Part(size: seq<nat>, v: seq<real>, z: nat, s: nat): real
    requires z < |size| && |v| == Start(size, |size|)
  {
    UptoFits(size, z, s);
    SumTo(v, Upto(size, z, s)) - SumTo(v, Start(size, z))
  }

  lemma PartNext(size: seq<nat>, v: seq<real>, z: nat, s: nat)
    requires InZone(size, z, s) && |v| == Start(size, |size|)
    ensures s < |v| && Part(size, v, z, s + 1) == Part(size, v, z, s) + v[s]
  {
    StartNext(size, z);
    UptoFits(size, z, s);
    hide Start, SumTo;
    SumNext(v, s);
  }

  lemma PartSame(size: seq<nat>, v: seq<real>, z: nat, y: nat, s: nat)
    requires InZone(size, z, s) && y < |size| && y != z && |v| == Start(size, |size|)
    ensures Part(size, v, y, s + 1) == Part(size, v, y, s)
  {
    StartNext(size, z);
    StartNext(size, y);
    if y < z {
      StartsInOrder(size, y + 1, z);
    } else {
      StartsInOrder(size, z + 1, y);
    }
    hide Start, SumTo;
    assert Upto(size, y, s + 1) == Upto(size, y, s);
  }

  lemma PartNone(size: seq<nat>, v: seq<real>, z: nat, s: nat)
    requires z < |size| && |v| == Start(size, |size|) && s <= Start(size, z)
    ensures Part(size, v, z, s) == 0.0
  {
    hide Start, SumTo;
  }

  /** The whole of zone z. */
  lemma PartAll(size: seq<nat>, v: seq<real>, z: nat, s: nat)
    requires z < |size| && |v| == Start(size, |size|) && Start(size, z) + size[z] <= s
    ensures Start(size, z) + size[z] <= |v|
    ensures Part(size, v, z, s) == SumTo(v, Start(size, z) + size[z]) - SumTo(v, Start(size, z))
  {
    UptoFits(size, z, s);
    hide Start, SumTo;
  }

  /** The zones in [lo, hi) hold what the sides before s contribute. */
  ghost predicate PartsAre(size: seq<nat>, v: seq<real>, zv: seq<real>, lo: nat, hi: nat, s: nat)
  {
    && |v| == Start(size, |size|) && |zv| == |size| && hi <= |size|
    && forall z :: lo <= z < hi ==> zv[z] == Part(size, v, z, s)
  }

  lemma PartsNext(size: seq<nat>, v: seq<real>, before: seq<real>, after: seq<real>, lo: nat, hi: nat, z: nat, s: nat)
    requires PartsAre(size, v, before, lo, hi, s) && InZone(size, z, s) && lo <= z < hi && |after| == |before|
    requires s < |v| && z < |before| && after == before[z := before[z] + v[s]]
    ensures PartsAre(size, v, after, lo, hi, s + 1)
  {
    hide Start, Part, InZone;
    forall y | lo <= y < hi
      ensures after[y] == Part(size, v, y, s + 1)
    {
      if y == z {
        PartNext(size, v, z, s);
      } else {
        PartSame(size, v, z, y, s);
      }
    }
  }

  lemma PartsStart(size: seq<nat>, v: seq<real>, zv: seq<real>, lo: nat, hi: nat)
    requires |v| == Start(size, |size|) && |zv| == |size| && lo <= hi <= |size|
    requires forall z :: lo <= z < hi ==> zv[z] == 0.0
    ensures PartsAre(size, v, zv, lo, hi, Start(size, lo))
  {
    hide Start, Part;
    forall z | lo <= z < hi
      ensures zv[z] == Part(size, v, z, Start(size, lo))
    {
      StartsInOrder(size, lo, z);
      PartNone(size, v, z, Start(size, lo));
    }
  }

  // ----- one chunk

  /** The sides of a mesh with points px and zone centres zx. */
  ghost predicate Sided(start: seq<nat>, size: seq<nat>, nodes: seq<nat>, maps: seq<Side>, px: seq<Double2>,
                        zx: seq<Double2>) {
    && Layout(start, size, |nodes|) && Mapped(size, nodes, maps) && |zx| == |size|
    && AllHaveEnds(maps, |px|, |zx|)
  }

  lemma SidedMeans(start: seq<nat>, size: seq<nat>, nodes: seq<nat>, maps: seq<Side>, px: seq<Double2>,
                   zx: seq<Double2>)
    requires Sided(start, size, nodes, maps, px, zx)
    ensures AllHaveEnds(maps, |px|, |zx|) && |zx| == |size| && |maps| == Start(size, |size|)
    ensures Layout(start, size, |nodes|) && Mapped(size, nodes, maps)
    ensures |SideAreas(maps, px, zx)| == |SideVolumes(maps, px, zx)| == |maps|
  {
    hide Layout, Start, MappedAt, HasEnds;
  }

  /** Chunks that split no zone begin and end where zones do. */
  lemma WholeIsStart(start: seq<nat>, size: seq<nat>, nodes: seq<nat>, maps: seq<Side>, s: nat)
    requires Layout(start, size, |nodes|) && Mapped(size, nodes, maps) && s < |maps| && Whole(ZonesOf(maps), s)
    ensures maps[s].z < |size| && s == Start(size, maps[s].z)
  {
    SideZone(start, size, nodes, maps, s);
    InZoneMeans(size, maps[s].z, s);
    hide Start, Layout, Mapped, InZone;
    if s > Start(size, maps[s].z) {
      InZoneIf(size, maps[s].z, s - 1);
      MappedZone(start, size, nodes, maps, maps[s].z, s - 1);
    }
  }

  /** The zones that calcVols finds for a chunk of whole zones are those of its sides. */
  lemma ChunkZones(start: seq<nat>, size: seq<nat>, nodes: seq<nat>, maps: seq<Side>, lo: nat, hi: nat)
    requires Layout(start, size, |nodes|) && Mapped(size, nodes, maps) && lo < hi <= |maps|
    requires Whole(ZonesOf(maps), lo) && Whole(ZonesOf(maps), hi)
    ensures var zlo, zhi := maps[lo].z, if hi < |maps| then maps[hi].z else |size|;
            zlo < zhi <= |size| && lo == Start(size, zlo) && hi == Start(size, zhi)
  {
    MappedTotal(size, nodes, maps);
    hide Layout, Mapped, Start, Whole;
    WholeIsStart(start, size, nodes, maps, lo);
    if hi < |maps| {
      WholeIsStart(start, size, nodes, maps, hi);
      if maps[hi].z <= maps[lo].z {
        StartsInOrder(size, maps[hi].z, maps[lo].z);
      }
    }
  }

  lemma SideInChunk(start: seq<nat>, size: seq<nat>, nodes: seq<nat>, maps: seq<Side>, zlo: nat, zhi: nat, s: nat)
    requires Layout(start, size, |nodes|) && Mapped(size, nodes, maps) && zlo <= zhi <= |size|
    requires Start(size, zlo) <= s < Start(size, zhi)
    ensures s < |maps| && InZone(size, maps[s].z, s) && zlo <= maps[s].z < zhi
  {
    hide *;
    MappedTotal(size, nodes, maps);
    StartsInOrder(size, zhi, |size|);
    SideZone(start, size, nodes, maps, s);
    var z := maps[s].z;
    InZoneMeans(size, z, s);
    if z < zlo {
      StartsInOrder(size, z + 1, zlo);
    } else if z >= zhi {
      StartsInOrder(size, zhi, z);
    }
  }

  /** The values of the sides in [slo, s) are in place, and the zones in [zlo, zhi) hold
      what the sides before s contribute. */
  ghost predicate InPlace(size: seq<nat>, v: seq<real>, sv: seq<real>, zv: seq<real>, slo: nat, zlo: nat, zhi: nat,
                          s: nat) {
    && |sv| == |v| && PartsAre(size, v, zv, zlo, zhi, s)
    && forall t :: slo <= t < s && t < |sv| ==> sv[t] == v[t]
  }

  lemma InPlaceNext(size: seq<nat>, v: seq<real>, sv: seq<real>, zv: seq<real>, sv': seq<real>, zv': seq<real>,
                    slo: nat, zlo: nat, zhi: nat, z: nat, s: nat)
    requires InPlace(size, v, sv, zv, slo, zlo, zhi, s) && InZone(size, z, s) && zlo <= z < zhi
    requires s < |v| && |sv| == |v| && z < |zv| && sv' == sv[s := v[s]] && zv' == zv[z := zv[z] + v[s]]
    ensures InPlace(size, v, sv', zv', slo, zlo, zhi, s + 1)
  {
    hide Start, Part, InZone, PartsAre;
    PartsNext(size, v, zv, zv', zlo, zhi, z, s);
  }

  lemma InPlaceStart(size: seq<nat>, v: seq<real>, sv: seq<real>, zv: seq<real>, zlo: nat, zhi: nat)
    requires |v| == |sv| == Start(size, |size|) && |zv| == |size| && zlo <= zhi <= |size|
    requires forall z :: zlo <= z < zhi ==> zv[z] == 0.0
    ensures InPlace(size, v, sv, zv, Start(size, zlo), zlo, zhi, Start(size, zlo))
  {
    hide Start, PartsAre;
    PartsStart(size, v, zv, zlo, zhi);
  }

  /** How many of the values in [lo, hi) are not positive. */
  ghost function Bad(v: seq<real>, lo: nat, hi: nat): nat
    requires lo <= hi <= |v|
    decreases hi
  {
    if lo == hi then 0 else Bad(v, lo, hi - 1) + if v[hi - 1] <= 0.0 then 1 else 0
  }

  lemma BadNone(v: seq<real>, lo: nat)
    requires lo <= |v|
    ensures Bad(v, lo, lo) == 0
  {
  }

  lemma BadNext(v: seq<real>, lo: nat, s: nat)
    requires lo <= s < |v|
    ensures Bad(v, lo, s + 1) == Bad(v, lo, s) + if v[s] <= 0.0 then 1 else 0
  {
  }

  /** Nothing outside [lo, hi) has changed. */
  ghost predicate Outside(before: seq<real>, after: seq<real>, lo: nat, hi: nat) {
    |before| == |after| && forall i :: 0 <= i < |before| && !(lo <= i < hi) ==> after[i] == before[i]
  }

  /** The numbers of one process's sides and zones. */
  ghost predicate Sizes(sarea: array<real>, svol: array<real>, zarea: array<real>, zvol: array<real>, nums: nat,
                        numz: nat) {
    && sarea.Length == svol.Length == nums && zarea.Length == zvol.Length == numz
    && sarea != svol && sarea != zarea && sarea != zvol && svol != zarea && svol != zvol && zarea != zvol
  }

  /** One side's area or volume, added to its zone. */
  method AddSide(ghost size: seq<nat>, ghost v: seq<real>, x: real, sv: array<real>, zv: array<real>,
                 ghost sfirst: nat, ghost slast: nat, ghost zfirst: nat, ghost zlast: nat, z: nat, s: nat)
    requires sv != zv && s < sv.Length == |v| && z < zv.Length && sfirst <= s < slast && zfirst <= z < zlast
    requires InPlace(size, v, sv[..], zv[..], sfirst, zfirst, zlast, s) && InZone(size, z, s) && x == v[s]
    modifies sv, zv
    ensures InPlace(size, v, sv[..], zv[..], sfirst, zfirst, zlast, s + 1)
    ensures Outside(old(sv[..]), sv[..], sfirst, slast) && Outside(old(zv[..]), zv[..], zfirst, zlast)
  {
    sv[s] := x;
    zv[z] := zv[z] + x;
    assert sv[..] == old(sv[..])[s := x];
    assert zv[..] == old(zv[..])[z := old(zv[..])[z] + x];
    hide InPlace, InZone;
    InPlaceNext(size, v, old(sv[..]), old(zv[..]), sv[..], zv[..], sfirst, zfirst, zlast, z, s);
  }

  lemma OutsideMore(a: seq<real>, b: seq<real>, c: seq<real>, lo: nat, hi: nat)
    requires Outside(a, b, lo, hi) && Outside(b, c, lo, hi)
    ensures Outside(a, c, lo, hi)
  {
  }

  method Clear(v: array<real>, first: nat, last: nat)
    requires first <= last <= v.Length
    modifies v
    ensures forall i :: first <= i < last ==> v[..][i] == 0.0
    ensures Outside(old(v[..]), v[..], first, last)
  {
    forall i | first <= i < last {
      v[i] := 0.0;
    }
  }

  lemma OutsideNone(a: seq<real>, lo: nat, hi: nat)
    ensures Outside(a, a, lo, hi)
  {
  }

  lemma SizesMean(sarea: array<real>, svol: array<real>, zarea: array<real>, zvol: array<real>, nums: nat, numz: nat)
    requires Sizes(sarea, svol, zarea, zvol, nums, numz)
    ensures sarea.Length == svol.Length == nums && zarea.Length == zvol.Length == numz
    ensures sarea != svol && sarea != zarea && sarea != zvol && svol != zarea && svol != zvol && zarea != zvol
  {
  }

  /** What the four arrays hold. */
  datatype Fields = Fields(sarea: seq<real>, svol: seq<real>, zarea: seq<real>, zvol: seq<real>)

  ghost function FieldsOf(sarea: array<real>, svol: array<real>, zarea: array<real>, zvol: array<real>): Fields
    reads sarea, svol, zarea, zvol
  {
    Fields(sarea[..], svol[..], zarea[..], zvol[..])
  }

  /** Areas a and volumes v are in place, up to side s. */
  ghost predicate BothInPlace(size: seq<nat>, a: seq<real>, v: seq<real>, f: Fields, zfirst: nat, zlast: nat, s: nat)
  {
    && zfirst <= |size|
    && InPlace(size, a, f.sarea, f.zarea, Start(size, zfirst), zfirst, zlast, s)
    && InPlace(size, v, f.svol, f.zvol, Start(size, zfirst), zfirst, zlast, s)
  }

  /** Nothing has changed outside the sides [sfirst, slast) and the zones [zfirst, zlast). */
  ghost predicate Kept(before: Fields, after: Fields, sfirst: nat, slast: nat, zfirst: nat, zlast: nat) {
    && Outside(before.sarea, after.sarea, sfirst, slast) && Outside(before.svol, after.svol, sfirst, slast)
    && Outside(before.zarea, after.zarea, zfirst, zlast) && Outside(before.zvol, after.zvol, zfirst, zlast)
  }

  lemma KeptMore(f: Fields, g: Fields, h: Fields, sfirst: nat, slast: nat, zfirst: nat, zlast: nat)
    requires Kept(f, g, sfirst, slast, zfirst, zlast) && Kept(g, h, sfirst, slast, zfirst, zlast)
    ensures Kept(f, h, sfirst, slast, zfirst, zlast)
  {
    OutsideMore(f.sarea, g.sarea, h.sarea, sfirst, slast);
    OutsideMore(f.svol, g.svol, h.svol, sfirst, slast);
    OutsideMore(f.zarea, g.zarea, h.zarea, zfirst, zlast);
    OutsideMore(f.zvol, g.zvol, h.zvol, zfirst, zlast);
    hide Outside;
  }

  /** The zones of the chunk start at zero. */
  method StartChunk(ghost size: seq<nat>, ghost a: seq<real>, ghost v: seq<real>, sarea: array<real>,
                    svol: array<real>, zarea: array<real>, zvol: array<real>, zfirst: nat, zlast: nat,
                    ghost slast: nat)
    requires Sizes(sarea, svol, zarea, zvol, |a|, |size|) && |a| == |v| == Start(size, |size|)
    requires zfirst <= zlast <= |size|
    modifies zarea, zvol
    ensures BothInPlace(size, a, v, FieldsOf(sarea, svol, zarea, zvol), zfirst, zlast, Start(size, zfirst))
    ensures Kept(old(FieldsOf(sarea, svol, zarea, zvol)), FieldsOf(sarea, svol, zarea, zvol), Start(size, zfirst),
                 slast,
                 zfirst, zlast)
  {
    hide Start, InPlace, Outside;
    OutsideNone(sarea[..], Start(size, zfirst), slast);
    OutsideNone(svol[..], Start(size, zfirst), slast);
    Clear(zvol, zfirst, zlast);
    Clear(zarea, zfirst, zlast);
    InPlaceStart(size, a, sarea[..], zarea[..], zfirst, zlast);
    InPlaceStart(size, v, svol[..], zvol[..], zfirst, zlast);
  }

  /** The body of the loop, without the count. */
  method SideTurn(ghost start: seq<nat>, ghost size: seq<nat>, ghost nodes: seq<nat>, maps: seq<Side>,
                  px: seq<Double2>, zx: seq<Double2>, sarea: array<real>, svol: array<real>, zarea: array<real>,
                  zvol: array<real>, ghost slast: nat, ghost zfirst: nat, ghost zlast: nat, s: nat)
    returns (sv: real)
    requires Sided(start, size, nodes, maps, px, zx) && AllHaveEnds(maps, |px|, |zx|)
    requires Sizes(sarea, svol, zarea, zvol, |maps|, |size|) && zfirst <= zlast <= |size|
    requires slast == Start(size, zlast) && Start(size, zfirst) <= s < slast
    requires BothInPlace(size, SideAreas(maps, px, zx), SideVolumes(maps, px, zx), FieldsOf(sarea, svol, zarea, zvol),
                         zfirst, zlast, s)
    modifies sarea, svol, zarea, zvol
    ensures BothInPlace(size, SideAreas(maps, px, zx), SideVolumes(maps, px, zx), FieldsOf(sarea, svol, zarea, zvol),
                        zfirst, zlast, s + 1)
    ensures s < |maps| == |SideVolumes(maps, px, zx)| && sv == SideVolumes(maps, px, zx)[s]
    ensures Kept(old(FieldsOf(sarea, svol, zarea, zvol)), FieldsOf(sarea, svol, zarea, zvol), Start(size, zfirst),
                 slast, zfirst, zlast)
  {
    hide Sided, AllHaveEnds, Start, InPlace, Outside, SideArea, SideVolume, SideAreas, SideVolumes, InZone;
    SidedMeans(start, size, nodes, maps, px, zx);
    hide Layout, Mapped;
    SideInChunk(start, size, nodes, maps, zfirst, zlast, s);
    SideIs(maps, px, zx, s);
    InZoneMeans(size, maps[s].z, s);
    var sa := SideArea(px, zx, maps[s]);
    sv := SideVolume(px, zx, maps[s]);
    ghost var a, v, sfirst := SideAreas(maps, px, zx), SideVolumes(maps, px, zx), Start(size, zfirst);
    AddSide(size, a, sa, sarea, zarea, sfirst, slast, zfirst, zlast, maps[s].z, s);
    AddSide(size, v, sv, svol, zvol, sfirst, slast, zfirst, zlast, maps[s].z, s);
  }

  /** calcVols on one chunk of whole zones: areas and volumes of sides, their sums over
      zones, and how many sides have no positive volume. */
  method CalcVols(ghost start: seq<nat>, ghost size: seq<nat>, ghost nodes: seq<nat>, maps: seq<Side>, numz: nat,
                  px: seq<Double2>, zx: seq<Double2>, sarea: array<real>, svol: array<real>, zarea: array<real>,
                  zvol: array<real>, sfirst: nat, slast: nat)
    returns (count: nat, ghost zfirst: nat, ghost zlast: nat)
    requires Sided(start, size, nodes, maps, px, zx) && numz == |size| && AllHaveEnds(maps, |px|, |zx|)
    requires Sizes(sarea, svol, zarea, zvol, |maps|, numz)
    requires sfirst < slast <= |maps| && Whole(ZonesOf(maps), sfirst) && Whole(ZonesOf(maps), slast)
    modifies sarea, svol, zarea, zvol
    ensures zfirst < zlast <= |size| && sfirst == Start(size, zfirst) && slast == Start(size, zlast)
    ensures BothInPlace(size, SideAreas(maps, px, zx), SideVolumes(maps, px, zx), FieldsOf(sarea, svol, zarea, zvol),
                        zfirst, zlast, slast)
    ensures |maps| == |SideVolumes(maps, px, zx)| && count == Bad(SideVolumes(maps, px, zx), sfirst, slast)
    ensures Kept(old(FieldsOf(sarea, svol, zarea, zvol)), FieldsOf(sarea, svol, zarea, zvol), sfirst, slast, zfirst,
                 zlast)
  {
    hide *;
    SidedMeans(start, size, nodes, maps, px, zx);
    ChunkZones(start, size, nodes, maps, sfirst, slast);
    ghost var a, v, was := SideAreas(maps, px, zx), SideVolumes(maps, px, zx), FieldsOf(sarea, svol, zarea, zvol);
    var zf := maps[sfirst].z;
    var zl := if slast < |maps| then maps[slast].z else numz;
    zfirst, zlast := zf, zl;
    StartChunk(size, a, v, sarea, svol, zarea, zvol, zf, zl, slast);
    count := 0;
    BadNone(v, sfirst);
    var s := sfirst;
    while s < slast
      invariant sfirst <= s <= slast
      invariant BothInPlace(size, a, v, FieldsOf(sarea, svol, zarea, zvol), zfirst, zlast, s)
      invariant count == Bad(v, sfirst, s)
      invariant Kept(was, FieldsOf(sarea, svol, zarea, zvol), sfirst, slast, zfirst, zlast)
    {
      ghost var f := FieldsOf(sarea, svol, zarea, zvol);
      var sv := SideTurn(start, size, nodes, maps, px, zx, sarea, svol, zarea, zvol, slast, zfirst, zlast, s);
      KeptMore(was, f, FieldsOf(sarea, svol, zarea, zvol), sfirst, slast, zfirst, zlast);
      BadNext(v, sfirst, s);
      if sv <= 0.0 {
        count := count + 1;
      }
      s := s + 1;
    }
  }

  // ----- fractions

  /** The shares of the sides in [lo, hi) are in place. */
  ghost predicate FracsAre(maps: seq<Side>, sarea: seq<real>, zarea: seq<real>, smf: seq<real>, lo: nat, hi: nat) {
    && |maps| == |sarea| == |smf| && hi <= |maps|
    && forall s :: lo <= s < hi ==>
         maps[s].z < |zarea| && zarea[maps[s].z] != 0.0 && smf[s] == Share(sarea[s], zarea[maps[s].z])
  }

  /** calcSideFracs on one chunk. */
  method CalcSideFracs(maps: seq<Side>, sarea: array<real>, zarea: array<real>, smf: array<real>, sfirst: nat,
                       slast: nat)
    requires |maps| == sarea.Length == smf.Length && sfirst <= slast <= |maps| && smf != sarea && smf != zarea
    requires forall s :: sfirst <= s < slast ==> maps[s].z < zarea.Length && zarea[maps[s].z] != 0.0
    modifies smf
    ensures FracsAre(maps, sarea[..], zarea[..], smf[..], sfirst, slast)
    ensures Outside(old(smf[..]), smf[..], sfirst, slast)
  {
    hide Share;
    for s := sfirst to slast
      invariant FracsAre(maps, sarea[..], zarea[..], smf[..], sfirst, s)
      invariant Outside(old(smf[..]), smf[..], sfirst, slast)
    {
      var z := maps[s].z;
      smf[s] := Share(sarea[s], zarea[z]);
    }
  }

  /** The area of a zone: what its sides add up to. */
  ghost function ZoneArea(size: seq<nat>, a: seq<real>, z: nat): real
    requires z < |size| && |a| == Start(size, |size|)
  {
    Part(size, a, z, Start(size, z) + size[z])
  }

  lemma ZoneAreaIs(size: seq<nat>, a: seq<real>, z: nat, s: nat)
    requires z < |size| && |a| == Start(size, |size|) && Start(size, z) + size[z] <= s
    ensures Start(size, z) + size[z] <= |a|
    ensures Part(size, a, z, s) == ZoneArea(size, a, z) ==
            SumTo(a, Start(size, z) + size[z]) - SumTo(a, Start(size, z))
  {
    PartAll(size, a, z, s);
    PartAll(size, a, z, Start(size, z) + size[z]);
    hide Start, Part, SumTo;
  }

  /** Every zone has an area. */
  ghost predicate HaveAreas(size: seq<nat>, a: seq<real>) {
    |a| == Start(size, |size|) && forall z :: 0 <= z < |size| ==> ZoneArea(size, a, z) != 0.0
  }

  /** After calcVols the zones of the chunk hold their areas. */
  lemma AreasOfChunk(size: seq<nat>, a: seq<real>, sarea: seq<real>, zarea: seq<real>, slo: nat, zfirst: nat,
                     zlast: nat,
                     z: nat)
    requires zfirst <= z < zlast <= |size|
    requires InPlace(size, a, sarea, zarea, slo, zfirst, zlast, Start(size, zlast))
    ensures z < |zarea| == |size| && |a| == |sarea| == Start(size, |size|) && Start(size, z) + size[z] <= |a|
    ensures zarea[z] == ZoneArea(size, a, z) == SumTo(a, Start(size, z) + size[z]) - SumTo(a, Start(size, z))
  {
    StartNext(size, z);
    StartsInOrder(size, z + 1, zlast);
    hide Start, SumTo, Part, ZoneArea;
    ZoneAreaIs(size, a, z, Start(size, zlast));
  }

  /** The shares of the zones before z are in place. */
  ghost predicate SharesTo(size: seq<nat>, a: seq<real>, zarea: seq<real>, smf: seq<real>, z: nat) {
    && |size| == |zarea| && |a| == |smf| && z <= |size|
    && forall y :: 0 <= y < z ==> Shares(size, a, zarea, smf, y)
  }

  lemma SharesOfChunk(start: seq<nat>, size: seq<nat>, nodes: seq<nat>, maps: seq<Side>, a: seq<real>, sarea: seq<real>,
                      zarea: seq<real>, smf: seq<real>, zfirst: nat, zlast: nat, z: nat)
    requires Layout(start, size, |nodes|) && Mapped(size, nodes, maps) && zfirst <= z < zlast <= |size|
    requires InPlace(size, a, sarea, zarea, Start(size, zfirst), zfirst, zlast, Start(size, zlast))
    requires FracsAre(maps, sarea, zarea, smf, Start(size, zfirst), Start(size, zlast)) && HaveAreas(size, a)
    ensures |size| == |zarea| && |a| == |smf| && Shares(size, a, zarea, smf, z)
  {
    AreasOfChunk(size, a, sarea, zarea, Start(size, zfirst), zfirst, zlast, z);
    StartsInOrder(size, zfirst, z);
    StartNext(size, z);
    StartsInOrder(size, z + 1, zlast);
    hide Start, SumTo, PartsAre, ZoneArea, Share, Layout, Mapped;
    forall s | Start(size, z) <= s < Start(size, z) + size[z]
      ensures smf[s] == Share(a[s], zarea[z])
    {
      MappedZone(start, size, nodes, maps, z, s);
    }
  }

  /** Later chunks leave the shares of earlier zones alone. */
  lemma SharesStay(size: seq<nat>, a: seq<real>, zarea: seq<real>, smf: seq<real>, zarea': seq<real>, smf': seq<real>,
                   zfirst: nat, zlast: nat, slast: nat, y: nat)
    requires y < zfirst <= |size| == |zarea| && |a| == |smf| && Shares(size, a, zarea, smf, y)
    requires Outside(zarea, zarea', zfirst, zlast) && Outside(smf, smf', Start(size, zfirst), slast)
    ensures |size| == |zarea'| && |a| == |smf'| && Shares(size, a, zarea', smf', y)
  {
    StartNext(size, y);
    StartsInOrder(size, y + 1, zfirst);
    hide Start, SumTo, Share;
  }

  lemma SharesMore(start: seq<nat>, size: seq<nat>, nodes: seq<nat>, maps: seq<Side>, a: seq<real>,
                   zarea: seq<real>, smf: seq<real>, sarea': seq<real>, zarea': seq<real>, smf': seq<real>,
                   zfirst: nat, zlast: nat)
    requires Layout(start, size, |nodes|) && Mapped(size, nodes, maps) && zfirst <= zlast <= |size|
    requires SharesTo(size, a, zarea, smf, zfirst) && HaveAreas(size, a)
    requires InPlace(size, a, sarea', zarea', Start(size, zfirst), zfirst, zlast, Start(size, zlast))
    requires FracsAre(maps, sarea', zarea', smf', Start(size, zfirst), Start(size, zlast))
    requires Outside(zarea, zarea', zfirst, zlast)
    requires Outside(smf, smf', Start(size, zfirst), Start(size, zlast))
    ensures SharesTo(size, a, zarea', smf', zlast)
  {
    hide Layout, Mapped, InPlace, FracsAre, HaveAreas, Shares, Start;
    OutsideSize(zarea, zarea', zfirst, zlast);
    OutsideSize(smf, smf', Start(size, zfirst), Start(size, zlast));
    forall y | 0 <= y < zlast
      ensures Shares(size, a, zarea', smf', y)
    {
      if y < zfirst {
        SharesStay(size, a, zarea, smf, zarea', smf', zfirst, zlast, Start(size, zlast), y);
      } else {
        SharesOfChunk(start, size, nodes, maps, a, sarea', zarea', smf', zfirst, zlast, y);
      }
    }
  }

  lemma OutsideSize(before: seq<real>, after: seq<real>, lo: nat, hi: nat)
    requires Outside(before, after, lo, hi)
    ensures |before| == |after|
  {
  }

  lemma {:induction false} BadSplit(v: seq<real>, lo: nat, mid: nat, hi: nat)
    requires lo <= mid <= hi <= |v|
    ensures Bad(v, lo, hi) == Bad(v, lo, mid) + Bad(v, mid, hi)
    decreases hi
  {
    if mid < hi {
      BadSplit(v, lo, mid, hi - 1);
    }
  }

  /** The chunks end where the next ones begin, and split no zone. */
  lemma ChunkIs(maps: seq<Side>, numz: nat, chunksize: nat, sfirst: seq<nat>, slast: seq<nat>, zfirst: seq<nat>,
                zlast: seq<nat>, k: nat)
    requires SideChunks(ZonesOf(maps), numz, chunksize, sfirst, slast, zfirst, zlast) && k < |sfirst|
    ensures |sfirst| == |slast| && sfirst[k] < slast[k] <= |maps| && sfirst[k] == ChunkStart(slast, k)
    ensures Whole(ZonesOf(maps), sfirst[k]) && Whole(ZonesOf(maps), slast[k])
  {
    hide Whole;
  }

  /** Where chunk k begins: behind the ones before it. */
  ghost function ChunkStart(slast: seq<nat>, k: nat): nat
    requires k <= |slast|
  {
    if k == 0 then 0 else slast[k - 1]
  }

  lemma ChunksEnd(maps: seq<Side>, numz: nat, chunksize: nat, sfirst: seq<nat>, slast: seq<nat>, zfirst: seq<nat>,
                  zlast: seq<nat>)
    requires SideChunks(ZonesOf(maps), numz, chunksize, sfirst, slast, zfirst, zlast)
    ensures |sfirst| == |slast| && ChunkStart(slast, |slast|) == |maps|
  {
    hide GoodChunks;
  }

  /** Up to zone z: shares, areas of sides, and the count of bad sides. */
  ghost predicate Initialized(size: seq<nat>, a: seq<real>, v: seq<real>, f: Fields, smf: seq<real>, z: nat, bad: nat)
  {
    && SharesTo(size, a, f.zarea, smf, z) && z <= |size| && |a| == |v| == |f.sarea| == Start(size, |size|)
    && Start(size, z) <= |a|
    && (forall s :: 0 <= s < Start(size, z) ==> f.sarea[s] == a[s])
    && bad == Bad(v, 0, Start(size, z))
  }

  lemma InitializedMore(start: seq<nat>, size: seq<nat>, nodes: seq<nat>, maps: seq<Side>, a: seq<real>, v: seq<real>,
                        f: Fields, g: Fields, smf: seq<real>, smf': seq<real>, zfirst: nat, zlast: nat, bad: nat,
                        count: nat)
    requires Layout(start, size, |nodes|) && Mapped(size, nodes, maps) && zfirst <= zlast <= |size|
    requires Initialized(size, a, v, f, smf, zfirst, bad) && HaveAreas(size, a)
    requires BothInPlace(size, a, v, g, zfirst, zlast, Start(size, zlast))
    requires Kept(f, g, Start(size, zfirst), Start(size, zlast), zfirst, zlast)
    requires FracsAre(maps, g.sarea, g.zarea, smf', Start(size, zfirst), Start(size, zlast))
    requires Outside(smf, smf', Start(size, zfirst), Start(size, zlast))
    requires Start(size, zfirst) <= Start(size, zlast) <= |v| &&
             count == Bad(v, Start(size, zfirst), Start(size, zlast))
    ensures Initialized(size, a, v, g, smf', zlast, bad + count)
  {
    hide Layout, Mapped, FracsAre, HaveAreas, Start, SharesTo, PartsAre, Bad;
    SharesMore(start, size, nodes, maps, a, f.zarea, smf, g.sarea, g.zarea, smf', zfirst, zlast);
    BadSplit(v, 0, Start(size, zfirst), Start(size, zlast));
  }

  lemma InitializedStart(size: seq<nat>, a: seq<real>, v: seq<real>, f: Fields, smf: seq<real>)
    requires |a| == |v| == |f.sarea| == |smf| == Start(size, |size|) && |f.zarea| == |size|
    ensures Start(size, 0) == 0 && Initialized(size, a, v, f, smf, 0, 0)
  {
    StartZero(size);
    hide Start, Shares;
    BadNone(v, 0);
  }

  /** Nothing is left to do. */
  lemma InitializedAll(size: seq<nat>, a: seq<real>, v: seq<real>, f: Fields, smf: seq<real>, z: nat, bad: nat)
    requires z <= |size| && Initialized(size, a, v, f, smf, z, bad) && Start(size, z) == Start(size, |size|)
    requires forall y :: 0 <= y < |size| ==> size[y] > 0
    ensures f.sarea == a && AllShares(size, a, f.zarea, smf) && bad == Bad(v, 0, |v|)
  {
    hide Start, Shares, Bad;
    if z < |size| {
      StartNext(size, z);
      StartsInOrder(size, z + 1, |size|);
    }
  }

  lemma LayoutSizes(start: seq<nat>, size: seq<nat>, nums: nat)
    requires Layout(start, size, nums)
    ensures forall y :: 0 <= y < |size| ==> size[y] > 0
  {
    hide Start;
  }

  /** The zones of a chunk have areas, so its fractions can be taken. */
  lemma CanDivide(start: seq<nat>, size: seq<nat>, nodes: seq<nat>, maps: seq<Side>, a: seq<real>, v: seq<real>,
                  f: Fields, zfirst: nat, zlast: nat, s: nat)
    requires Layout(start, size, |nodes|) && Mapped(size, nodes, maps) && zfirst <= zlast <= |size|
    requires HaveAreas(size, a) && BothInPlace(size, a, v, f, zfirst, zlast, Start(size, zlast))
    requires Start(size, zfirst) <= s < Start(size, zlast)
    ensures s < |maps| && maps[s].z < |f.zarea| && f.zarea[maps[s].z] != 0.0
  {
    SideInChunk(start, size, nodes, maps, zfirst, zlast, s);
    AreasOfChunk(size, a, f.sarea, f.zarea, Start(size, zfirst), zfirst, zlast, maps[s].z);
    hide Layout, Mapped, InPlace, Start, SumTo, ZoneArea, InZone;
  }

  // ----- what the check for bad sides is good for

  lemma {:induction false} NotBad(v: seq<real>, lo: nat, hi: nat, s: nat)
    requires lo <= s < hi <= |v| && Bad(v, lo, hi) == 0
    ensures v[s] > 0.0
    decreases hi
  {
    if s < hi - 1 {
      NotBad(v, lo, hi - 1, s);
    }
  }

  lemma NegativeProduct(a: real, x: real)
    requires a <= 0.0 && x >= 0.0
    ensures a * x <= 0.0
  {
  }

  lemma VolumeSign(area: real, x: real)
    ensures area <= 0.0 && x >= 0.0 ==> (1.0 / 3.0) * area * x <= 0.0
  {
    if area <= 0.0 && x >= 0.0 {
      NegativeProduct((1.0 / 3.0) * area, x);
    }
  }

  lemma {:induction false} PositiveSum(v: seq<real>, lo: nat, n: nat)
    requires lo + n <= |v| && n > 0 && forall s :: lo <= s < lo + n ==> v[s] > 0.0
    ensures SumTo(v, lo + n) - SumTo(v, lo) > 0.0
  {
    hide SumTo;
    SumNext(v, lo + n - 1);
    if n > 1 {
      PositiveSum(v, lo, n - 1);
    }
  }

  /** On a mesh that lies on one side of the axis, and in which no side is bad, every zone
      has an area. */
  lemma GoodSidesHaveAreas(start: seq<nat>, size: seq<nat>, nodes: seq<nat>, maps: seq<Side>, px: seq<Double2>,
                           zx: seq<Double2>)
    requires Sided(start, size, nodes, maps, px, zx) && AllHaveEnds(maps, |px|, |zx|)
    requires (forall p :: 0 <= p < |px| ==> px[p].x >= 0.0) && (forall z :: 0 <= z < |zx| ==> zx[z].x >= 0.0)
    requires Bad(SideVolumes(maps, px, zx), 0, |maps|) == 0
    ensures HaveAreas(size, SideAreas(maps, px, zx))
  {
    SidedMeans(start, size, nodes, maps, px, zx);
    var a, v := SideAreas(maps, px, zx), SideVolumes(maps, px, zx);
    forall s | 0 <= s < |maps|
      ensures a[s] > 0.0
    {
      NotBad(v, 0, |maps|, s);
      SideIs(maps, px, zx, s);
      GoodSide(px, zx, maps[s]);
    }
    hide Sided, AllHaveEnds, Mapped, Start, SideAreas, SideVolumes, ZoneArea, SumTo, Bad;
    LayoutSizes(start, size, |nodes|);
    forall z | 0 <= z < |size|
      ensures ZoneArea(size, a, z) != 0.0
    {
      ZoneAreaIs(size, a, z, Start(size, z) + size[z]);
      PositiveSum(a, Start(size, z), size[z]);
    }
  }

  lemma GoodSide(px: seq<Double2>, zx: seq<Double2>, side: Side)
    requires HasEnds(side, |px|, |zx|) && SideVolume(px, zx, side) > 0.0
    requires px[side.p1].x >= 0.0 && px[side.p2].x >= 0.0 && zx[side.z].x >= 0.0
    ensures SideArea(px, zx, side) > 0.0
  {
    hide SideArea;
    VolumeSign(SideArea(px, zx, side), px[side.p1].x + px[side.p2].x + zx[side.z].x);
  }

  /** One chunk: areas, then fractions. */
  method InitChunkFractions(ghost start: seq<nat>, ghost size: seq<nat>, ghost nodes: seq<nat>, maps: seq<Side>,
                            numz: nat, px: seq<Double2>, zx: seq<Double2>, sarea: array<real>, svol: array<real>,
                            zarea: array<real>, zvol: array<real>, smf: array<real>, sfirst: nat, slast: nat,
                            ghost z: nat, ghost bad: nat)
    returns (count: nat, ghost zlast: nat)
    requires Sided(start, size, nodes, maps, px, zx) && numz == |size| && AllHaveEnds(maps, |px|, |zx|)
    requires Sizes(sarea, svol, zarea, zvol, |maps|, numz) && smf.Length == |maps|
    requires smf != sarea && smf != svol && smf != zarea && smf != zvol
    requires sfirst < slast <= |maps| && Whole(ZonesOf(maps), sfirst) && Whole(ZonesOf(maps), slast)
    requires z <= |size| && sfirst == Start(size, z) && HaveAreas(size, SideAreas(maps, px, zx))
    requires Initialized(size, SideAreas(maps, px, zx), SideVolumes(maps, px, zx), FieldsOf(sarea, svol, zarea, zvol),
                         smf[..], z, bad)
    modifies sarea, svol, zarea, zvol, smf
    ensures zlast <= |size| && slast == Start(size, zlast)
    ensures Initialized(size, SideAreas(maps, px, zx), SideVolumes(maps, px, zx), FieldsOf(sarea, svol, zarea, zvol),
                        smf[..], zlast, bad + count)
  {
    hide *;
    SidedMeans(start, size, nodes, maps, px, zx);
    SizesMean(sarea, svol, zarea, zvol, |maps|, numz);
    ghost var a, v, f, m := SideAreas(maps, px, zx), SideVolumes(maps, px, zx), FieldsOf(sarea, svol, zarea, zvol),
      smf[..];
    ghost var zfirst;
    count, zfirst, zlast := CalcVols(start, size, nodes, maps, numz, px, zx, sarea, svol, zarea, zvol, sfirst, slast);
    LayoutSizes(start, size, |nodes|);
    SameStart(size, z, zfirst);
    ghost var g := FieldsOf(sarea, svol, zarea, zvol);
    FieldsAre(sarea, svol, zarea, zvol);
    forall s | sfirst <= s < slast
      ensures maps[s].z < zarea.Length && zarea[maps[s].z] != 0.0
    {
      CanDivide(start, size, nodes, maps, a, v, g, zfirst, zlast, s);
    }
    CalcSideFracs(maps, sarea, zarea, smf, sfirst, slast);
    InitializedMore(start, size, nodes, maps, a, v, f, g, m, smf[..], zfirst, zlast, bad, count);
  }

  lemma SameStart(size: seq<nat>, y: nat, z: nat)
    requires y <= |size| && z <= |size| && Start(size, y) == Start(size, z)
    requires forall y :: 0 <= y < |size| ==> size[y] > 0
    ensures y == z
  {
    hide Start;
    if y < z {
      StartNext(size, y);
      StartsInOrder(size, y + 1, z);
    } else if z < y {
      StartNext(size, z);
      StartsInOrder(size, z + 1, y);
    }
  }

  lemma FieldsAre(sarea: array<real>, svol: array<real>, zarea: array<real>, zvol: array<real>)
    ensures FieldsOf(sarea, svol, zarea, zvol) == Fields(sarea[..], svol[..], zarea[..], zvol[..])
  {
  }

  /** The initial calculations of the mesh, chunk by chunk: every side has its area, every
      zone the areas of its sides together, and smf the share of each side; and bad tells
      how many sides have no positive volume. */
  method InitFractions(ghost start: seq<nat>, ghost size: seq<nat>, ghost nodes: seq<nat>, maps: seq<Side>, numz: nat,
                       px: seq<Double2>, zx: seq<Double2>, ghost chunksize: nat, sfirst: seq<nat>, slast: seq<nat>,
                       ghost zfirst: seq<nat>, ghost zlast: seq<nat>)
    returns (sarea: array<real>, svol: array<real>, zarea: array<real>, zvol: array<real>, smf: array<real>, bad: nat)
    requires Sided(start, size, nodes, maps, px, zx) && numz == |size| && AllHaveEnds(maps, |px|, |zx|)
    requires SideChunks(ZonesOf(maps), numz, chunksize, sfirst, slast, zfirst, zlast)
    requires HaveAreas(size, SideAreas(maps, px, zx))
    ensures sarea[..] == SideAreas(maps, px, zx) && AllShares(size, sarea[..], zarea[..], smf[..])
    ensures |maps| == |SideVolumes(maps, px, zx)| && bad == Bad(SideVolumes(maps, px, zx), 0, |maps|)
  {
    sarea, svol, smf := new real[|maps|](_ => 0.0), new real[|maps|](_ => 0.0), new real[|maps|](_ => 0.0);
    zarea, zvol := new real[numz](_ => 0.0), new real[numz](_ => 0.0);
    bad := 0;
    assert Sizes(sarea, svol, zarea, zvol, |maps|, numz);
    hide *;
    SidedMeans(start, size, nodes, maps, px, zx);
    ghost var a, v := SideAreas(maps, px, zx), SideVolumes(maps, px, zx);
    ghost var z: nat := 0;
    FieldsAre(sarea, svol, zarea, zvol);
    InitializedStart(size, a, v, FieldsOf(sarea, svol, zarea, zvol), smf[..]);
    ChunksEnd(maps, numz, chunksize, sfirst, slast, zfirst, zlast);
    ChunkStartZero(slast);
    for k := 0 to |sfirst|
      invariant z <= |size| && Start(size, z) == ChunkStart(slast, k)
      invariant Initialized(size, a, v, FieldsOf(sarea, svol, zarea, zvol), smf[..], z, bad)
    {
      ChunkIs(maps, numz, chunksize, sfirst, slast, zfirst, zlast, k);
      ChunkStartNext(slast, k);
      var count;
      count, z := InitChunkFractions(start, size, nodes, maps, numz, px, zx, sarea, svol, zarea, zvol, smf, sfirst[k],
                                     slast[k], z, bad);
      bad := bad + count;
    }
    LayoutSizes(start, size, |nodes|);
    FieldsAre(sarea, svol, zarea, zvol);
    InitializedAll(size, a, v, FieldsOf(sarea, svol, zarea, zvol), smf[..], z, bad);
  }

  lemma ChunkStartZero(slast: seq<nat>)
    ensures ChunkStart(slast, 0) == 0
  {
  }

  lemma ChunkStartNext(slast: seq<nat>, k: nat)
    requires k < |slast|
    ensures ChunkStart(slast, k + 1) == slast[k]
  {
  }
}
