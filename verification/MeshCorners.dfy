/** Every point of a generated block is a corner of one of its zones, so that the sums over
    corners reach every point. */
module MeshCorners {
  import opened PointExchange
  import opened MeshPoints
  import opened MeshBuild
  import MS = MeshSides
  import CornerSums

  // ----- a zone for every site

  /** A zone of the block that has the point. */
  ghost predicate CornerOf(m: Mesh, p: Part, k: Key, a: nat, b: nat) {
    a < p.nzx && b < p.nzy && k in Corners(m, p.zx + a, p.zy + b)
  }

  lemma HexSite(m: Mesh, gi: nat, gj: nat, ws: seq<int>, w: int)
    requires if Boundary(m, gi, gj) then w == 0 else w in ws
    ensures Key(gi, gj, w) in HexCorner(m, gi, gj, ws)
  {
    if !Boundary(m, gi, gj) {
      var t :| 0 <= t < |ws| && ws[t] == w;
      assert HexCorner(m, gi, gj, ws)[t] == Key(gi, gj, w);
    }
  }

  lemma HexPointCorner(m: Mesh, p: Part, i: nat, j: nat, t: nat) returns (a: nat, b: nat)
    requires ValidPart(m, p) && m.kind == Hex && i <= p.nzx && j <= p.nzy && t < |Ws(m, p, i, j)|
    ensures CornerOf(m, p, KeyOf(m, p.zx + i, p.zy + j, Ws(m, p, i, j)[t]), a, b)
  {
    var gi, gj, w := p.zx + i, p.zy + j, Ws(m, p, i, j)[t];
    a := if i < p.nzx && (j < p.nzy || i == 0) then i else i - 1;
    b := if j < p.nzy && (i < p.nzx || j == 0) then j else j - 1;
    if a == i && b == j {
      HexSite(m, gi, gj, [1, 2], w);
    } else if b == j {
      HexSite(m, gi, gj, [1], w);
    } else if a == i {
      HexSite(m, gi, gj, [2], w);
    } else {
      HexSite(m, gi, gj, [2, 1], w);
    }
    hide HexCorner;
  }

  lemma PlainPointCorner(m: Mesh, p: Part, i: nat, j: nat, t: nat) returns (a: nat, b: nat)
    requires ValidPart(m, p) && m.kind != Hex && i <= p.nzx && j <= p.nzy && t < |Ws(m, p, i, j)|
    ensures CornerOf(m, p, KeyOf(m, p.zx + i, p.zy + j, Ws(m, p, i, j)[t]), a, b)
  {
    a, b := if i < p.nzx then i else i - 1, if j < p.nzy then j else j - 1;
    var ks := Corners(m, p.zx + a, p.zy + b);
    var k := KeyOf(m, p.zx + i, p.zy + j, 0);
    if m.kind == Rect {
      assert ks[if i < p.nzx then if j < p.nzy then 0 else 3 else if j < p.nzy then 1 else 2] == k;
    } else if p.zy + b == 0 {
      assert ks[if j == b then 0 else if i < p.nzx then 2 else 1] == k;
    } else {
      assert ks[if i < p.nzx then if j < p.nzy then 0 else 3 else if j < p.nzy then 1 else 2] == k;
    }
  }

  /** Every point of the block is a corner of one of its zones. */
  lemma PointHasZone(m: Mesh, p: Part, q: nat) returns (a: nat, b: nat)
    requires ValidPart(m, p) && q < |Keys(m, p)|
    ensures CornerOf(m, p, Keys(m, p)[q], a, b)
  {
    var i, j, t := FindSite(m, p, q);
    PointAt(m, p, i, j, t);
    hide Keys, Ws, CornerOf, At, KeyOf;
    if m.kind == Hex {
      a, b := HexPointCorner(m, p, i, j, t);
    } else {
      a, b := PlainPointCorner(m, p, i, j, t);
    }
  }

  // ----- where the zone is listed

  lemma {:induction false} RowLength(m: Mesh, p: Part, j: nat, n: nat)
    ensures |ZoneRow(m, p, j, n)| == n
    ensures forall a :: 0 <= a < n ==> ZoneRow(m, p, j, n)[a] == Corners(m, p.zx + a, p.zy + j)
  {
    hide ZoneRow, Corners;
    ZoneNext(m, p, j, 0);
    if n > 0 {
      RowLength(m, p, j, n - 1);
      ZoneNext(m, p, j, n - 1);
    }
  }

  /** The number of a zone in the block. */
  lemma {:induction false} ZoneListed(m: Mesh, p: Part, n: nat, a: nat, b: nat) returns (z: nat)
    requires a < p.nzx && b < n
    ensures z < |ZoneRows(m, p, n)| && ZoneRows(m, p, n)[z] == Corners(m, p.zx + a, p.zy + b)
  {
    hide ZoneRow, ZoneRows, Corners;
    ZoneNext(m, p, n - 1, 0);
    RowLength(m, p, n - 1, p.nzx);
    if b == n - 1 {
      z := |ZoneRows(m, p, n - 1)| + a;
    } else {
      z := ZoneListed(m, p, n - 1, a, b);
    }
  }

  /** A point that a zone has by its key is listed for the zone. */
  lemma ListedPoint(keys: seq<Key>, zl: ZoneLists, zones: seq<seq<Key>>, z: nat, q: nat) returns (s: nat)
    requires ListsZones(keys, zl, zones) && z < |zones| && q < |keys| && keys[q] in zones[z]
    requires forall c, d :: 0 <= c < |keys| && 0 <= d < |keys| && keys[c] == keys[d] ==> c == d
    ensures s < |zl.points| && zl.points[s] == q
  {
    assert ListsZone(keys, zl, z, zones[z]);
    var t :| 0 <= t < |zones[z]| && zones[z][t] == keys[q];
    s := zl.start[z] + t;
    assert zl.points[zl.start[z]..zl.start[z] + zl.size[z]][t] == zl.points[s];
  }

  lemma AllDiffer(m: Mesh, p: Part)
    ensures forall c, d :: 0 <= c < |Keys(m, p)| && 0 <= d < |Keys(m, p)| && Keys(m, p)[c] == Keys(m, p)[d] ==> c == d
  {
    forall c, d | 0 <= c < |Keys(m, p)| && 0 <= d < |Keys(m, p)| && Keys(m, p)[c] == Keys(m, p)[d]
      ensures c == d
    {
      KeysDiffer(m, p, c, d);
    }
  }

  lemma ZoneHasPoint(m: Mesh, p: Part, k: Key, a: nat, b: nat)
    requires CornerOf(m, p, k, a, b)
    ensures a < p.nzx && b < p.nzy && k in Corners(m, p.zx + a, p.zy + b)
  {
    hide Corners;
  }

  /** Every point of a generated block is among the points of its zones. */
  lemma EveryPointListed(m: Mesh, p: Part, zl: ZoneLists, q: nat) returns (s: nat)
    requires ValidPart(m, p) && ListsZones(Keys(m, p), zl, ZoneRows(m, p, p.nzy)) && q < |Keys(m, p)|
    ensures s < |zl.points| && zl.points[s] == q
  {
    var a, b := PointHasZone(m, p, q);
    hide *;
    AllDiffer(m, p);
    ZoneHasPoint(m, p, Keys(m, p)[q], a, b);
    var z := ZoneListed(m, p, p.nzy, a, b);
    s := ListedPoint(Keys(m, p), zl, ZoneRows(m, p, p.nzy), z, q);
  }

  /** So with the maps of its sides, the sum over its corners is defined at every point. */
  lemma EveryPointSummed(m: Mesh, p: Part, zl: ZoneLists, maps: seq<MS.Side>, mapsp1: seq<nat>, q: nat)
    requires ValidPart(m, p) && ListsZones(Keys(m, p), zl, ZoneRows(m, p, p.nzy)) && q < |Keys(m, p)|
    requires MS.Mapped(zl.size, zl.points, maps)
    requires |mapsp1| == |maps| && forall s :: 0 <= s < |maps| ==> mapsp1[s] == maps[s].p1
    ensures CornerSums.Corners(mapsp1, q) != []
  {
    var s := EveryPointListed(m, p, zl, q);
    hide Keys, ListsEach, ZoneRows, ValidPart;
    var z := MS.ZoneOf(zl.start, zl.size, zl.points, maps, s);
    MS.MappedIs(zl.start, zl.size, zl.points, maps, z, s);
    CornerSums.CornersOfComplete(mapsp1, q, |mapsp1|, s);
  }
}
