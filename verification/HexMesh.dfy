/** generateHex: inside the mesh every grid site is split into two points. */
module HexMesh {
  import opened PointExchange
  import opened ZoneSplit
  import opened MessageLists
  import opened MeshPoints
  import opened MeshMessages
  import opened MeshLists
  import opened MeshMatch
  import opened MeshBuild

  /** The row is not at the lower or upper end of the mesh. */
  predicate InnerRow(m: Mesh, p: Part, j: nat) {
    0 < p.zy + j < m.gnzy
  }

  lemma OuterSingle(m: Mesh, p: Part, j: nat)
    requires m.kind == Hex && !InnerRow(m, p, j) && p.zy + j <= m.gnzy
    ensures SingleRow(m, p, j)
  {
  }

  /** Whether the row's first site has two points. */
  function FirstTwo(p: Part, j: nat): nat {
    if p.mx > 0 && j < p.nzy then 1 else 0
  }

  lemma InnerWs(m: Mesh, p: Part, i: nat, j: nat)
    requires m.kind == Hex && ValidPart(m, p) && InnerRow(m, p, j) && i <= p.nzx && j <= p.nzy
    ensures i == 0 ==> |Ws(m, p, i, j)| == 1 + FirstTwo(p, j)
    ensures i == 0 && p.mx > 0 ==> Ws(m, p, i, j) == if j < p.nzy then [1, 2] else [2]
    ensures i == 0 && p.mx == 0 ==> Ws(m, p, i, j) == [0]
    ensures 0 < i < p.nzx ==> Ws(m, p, i, j) == [1, 2]
    ensures i == p.nzx && p.mx == m.numpex - 1 ==> Ws(m, p, i, j) == [0]
    ensures i == p.nzx && p.mx < m.numpex - 1 ==> Ws(m, p, i, j) == if j == 0 then [1] else [1, 2]
  {
  }

  lemma {:induction false} InnerAt(m: Mesh, p: Part, i: nat, j: nat)
    requires m.kind == Hex && ValidPart(m, p) && InnerRow(m, p, j) && i <= p.nzx && j <= p.nzy
    ensures At(m, p, i, j) == At(m, p, 0, j) + if i == 0 then 0 else 2 * i - 1 + FirstTwo(p, j)
  {
    hide At, Ws, FirstTwo, ValidPart;
    if i > 0 {
      InnerAt(m, p, i - 1, j);
      AtNext(m, p, i - 1, j);
      InnerWs(m, p, i - 1, j);
    }
  }

  lemma HexSite(m: Mesh, p: Part, i: nat, j: nat)
    requires m.kind == Hex
    ensures var gi, gj := i + p.zx, j + p.zy;
            SiteKeys(m, p, i, j) ==
            if gi == 0 || gi == m.gnzx || gj == 0 || gj == m.gnzy then [Key(gi, gj, 0)]
            else if i == p.nzx && j == 0 then [Key(gi, gj, 1)]
            else if i == 0 && j == p.nzy then [Key(gi, gj, 2)]
            else [Key(gi, gj, 1), Key(gi, gj, 2)]
  {
  }

  /** The number of the first point of every row. */
  ghost predicate RowBases(m: Mesh, p: Part, pbase: seq<nat>) {
    |pbase| == p.nzy + 1 && forall j :: 0 <= j < |pbase| ==> pbase[j] == At(m, p, 0, j)
  }

  lemma RowBase(m: Mesh, p: Part, pbase: seq<nat>)
    requires RowBases(m, p, pbase)
    ensures |pbase| == p.nzy + 1 && forall j :: 0 <= j < |pbase| ==> pbase[j] == At(m, p, 0, j)
  {
    hide At;
  }

  lemma TopBase(m: Mesh, p: Part, pbase: seq<nat>)
    requires RowBases(m, p, pbase)
    ensures |pbase| == p.nzy + 1 && pbase[p.nzy] == At(m, p, 0, p.nzy)
  {
    hide At;
  }

  /** The points of row j. */
  method HexRow(m: Mesh, p: Part, j: nat, before: seq<Key>) returns (pointpos: seq<Key>)
    requires m.kind == Hex
    ensures pointpos == before + RowKeys(m, p, j, p.nzx + 1)
  {
    hide *;
    pointpos := before;
    RowNext(m, p, j, 0);
    assert before + [] == before;
    var gj := j + p.zy;
    for i := 0 to p.nzx + 1
      invariant pointpos == before + RowKeys(m, p, j, i)
    {
      RowNext(m, p, j, i);
      HexSite(m, p, i, j);
      var gi := i + p.zx;
      if gi == 0 || gi == m.gnzx || gj == 0 || gj == m.gnzy {
        pointpos := pointpos + [Key(gi, gj, 0)];
      } else if i == p.nzx && j == 0 {
        pointpos := pointpos + [Key(gi, gj, 1)];
      } else if i == 0 && j == p.nzy {
        pointpos := pointpos + [Key(gi, gj, 2)];
      } else {
        pointpos := pointpos + [Key(gi, gj, 1), Key(gi, gj, 2)];
      }
    }
  }

  /** The points, and the number of the first point of every row. */
  method HexPoints(m: Mesh, p: Part) returns (pointpos: seq<Key>, pbase: seq<nat>)
    requires m.kind == Hex
    ensures pointpos == Keys(m, p)
    ensures RowBases(m, p, pbase)
  {
    var npy := p.nzy + 1;
    pointpos, pbase := [], [];
    RowsNext(m, p, 0);
    hide Rows, RowKeys, At;
    for j := 0 to npy
      invariant pointpos == Rows(m, p, j)
      invariant |pbase| == j && forall k :: 0 <= k < j ==> pbase[k] == At(m, p, 0, k)
    {
      AtNext(m, p, 0, j);
      pbase := pbase + [|pointpos|];
      pointpos := HexRow(m, p, j, pointpos);
      RowsNext(m, p, j);
    }
  }

  // ----- zones

  /** The corner points of zone (i, j), from the first points of the rows below and above
      it. */
  function HexVertices(m: Mesh, p: Part, i: nat, j: nat, base: nat, baseAbove: nat): seq<int> {
    var gi, gj := i + p.zx, j + p.zy;
    var lo := if p.mx > 0 && gj > 0 then base + 1 else base;
    var hi := if p.mx > 0 && j + 1 < p.nzy then baseAbove + 1 else baseAbove;
    var v1, v5 := lo + 2 * i, hi + 2 * i;
    if gj == 0 then
      [lo + i, lo + i + 1] + (if gi == m.gnzx - 1 then [] else [v5 + 2]) + [v5 + 1, v5]
    else if gj == m.gnzy - 1 then
      (if gi == 0 then [] else [v1 - 1]) + [v1, v1 + 1, hi + i + 1, hi + i]
    else if gi == 0 then
      [v1, v1 + 1, v5 + 2, v5 + 1, v5]
    else if gi == m.gnzx - 1 then
      [v1 - 1, v1, v1 + 1, v5 + 1, v5]
    else
      [v1 - 1, v1, v1 + 1, v5 + 2, v5 + 1, v5]
  }

  /** The point with the given number at a site. */
  function SitePoint(m: Mesh, p: Part, i: nat, j: nat, w: int): nat {
    if |Ws(m, p, i, j)| == 2 && w == 2 then At(m, p, i, j) + 1 else At(m, p, i, j)
  }

  function SitePoints(m: Mesh, p: Part, i: nat, j: nat, ws: seq<int>): seq<nat> {
    if Boundary(m, p.zx + i, p.zy + j) then
      [At(m, p, i, j)]
    else
      seq(|ws|, t requires 0 <= t < |ws| => SitePoint(m, p, i, j, ws[t]))
  }

  lemma SitePointIs(m: Mesh, p: Part, i: nat, j: nat, w: int)
    requires m.kind == Hex && i <= p.nzx && j <= p.nzy && !Boundary(m, p.zx + i, p.zy + j) && w in Ws(m, p, i, j)
    ensures SitePoint(m, p, i, j, w) < |Keys(m, p)|
    ensures Keys(m, p)[SitePoint(m, p, i, j, w)] == Key(p.zx + i, p.zy + j, w)
  {
    hide Keys, At;
    PointAt(m, p, i, j, if |Ws(m, p, i, j)| == 2 && w == 2 then 1 else 0);
  }

  lemma SitePointsCarry(m: Mesh, p: Part, i: nat, j: nat, ws: seq<int>)
    requires m.kind == Hex && i <= p.nzx && j <= p.nzy
    requires Boundary(m, p.zx + i, p.zy + j) || forall t :: 0 <= t < |ws| ==> ws[t] in Ws(m, p, i, j)
    ensures Carries(Keys(m, p), SitePoints(m, p, i, j, ws), HexCorner(m, p.zx + i, p.zy + j, ws))
  {
    hide Keys, At, SitePoint;
    if Boundary(m, p.zx + i, p.zy + j) {
      PointAt(m, p, i, j, 0);
    } else {
      forall t | 0 <= t < |ws|
        ensures SitePoints(m, p, i, j, ws)[t] < |Keys(m, p)|
        ensures Keys(m, p)[SitePoints(m, p, i, j, ws)[t]] == Key(p.zx + i, p.zy + j, ws[t])
      {
        SitePointIs(m, p, i, j, ws[t]);
      }
    }
  }

  /** A zone has a corner at each of its four sites. */
  function ZonePoints(m: Mesh, p: Part, i: nat, j: nat): seq<nat> {
    SitePoints(m, p, i, j, [1, 2]) + SitePoints(m, p, i + 1, j, [1])
    + SitePoints(m, p, i + 1, j + 1, [2, 1]) + SitePoints(m, p, i, j + 1, [2])
  }

  lemma ZonePointsCarry(m: Mesh, p: Part, i: nat, j: nat)
    requires m.kind == Hex && ValidPart(m, p) && i < p.nzx && j < p.nzy
    ensures Carries(Keys(m, p), ZonePoints(m, p, i, j), Corners(m, p.zx + i, p.zy + j))
  {
    hide *;
    CornersCarry(m, p, i, j);
    ZonePointsAre(m, p, i, j);
    CornersAre(m, p.zx + i, p.zy + j);
    var gi, gj, keys := p.zx + i, p.zy + j, Keys(m, p);
    CarriesAdd(keys, SitePoints(m, p, i, j, [1, 2]), SitePoints(m, p, i + 1, j, [1]),
               HexCorner(m, gi, gj, [1, 2]), HexCorner(m, gi + 1, gj, [1]));
    CarriesAdd(keys, SitePoints(m, p, i + 1, j + 1, [2, 1]), SitePoints(m, p, i, j + 1, [2]),
               HexCorner(m, gi + 1, gj + 1, [2, 1]), HexCorner(m, gi, gj + 1, [2]));
    CarriesAdd(keys, LowerOf(m, p, i, j), UpperOf(m, p, i, j),
               HexCorner(m, gi, gj, [1, 2]) + HexCorner(m, gi + 1, gj, [1]),
               HexCorner(m, gi + 1, gj + 1, [2, 1]) + HexCorner(m, gi, gj + 1, [2]));
  }

  lemma CornersAre(m: Mesh, gi: nat, gj: nat)
    requires m.kind == Hex
    ensures Corners(m, gi, gj) ==
            (HexCorner(m, gi, gj, [1, 2]) + HexCorner(m, gi + 1, gj, [1]))
            + (HexCorner(m, gi + 1, gj + 1, [2, 1]) + HexCorner(m, gi, gj + 1, [2]))
  {
    hide HexCorner;
  }

  function LowerOf(m: Mesh, p: Part, i: nat, j: nat): seq<nat> {
    SitePoints(m, p, i, j, [1, 2]) + SitePoints(m, p, i + 1, j, [1])
  }

  function UpperOf(m: Mesh, p: Part, i: nat, j: nat): seq<nat> {
    SitePoints(m, p, i + 1, j + 1, [2, 1]) + SitePoints(m, p, i, j + 1, [2])
  }

  lemma ZonePointsAre(m: Mesh, p: Part, i: nat, j: nat)
    ensures LowerOf(m, p, i, j) == SitePoints(m, p, i, j, [1, 2]) + SitePoints(m, p, i + 1, j, [1])
    ensures UpperOf(m, p, i, j) == SitePoints(m, p, i + 1, j + 1, [2, 1]) + SitePoints(m, p, i, j + 1, [2])
    ensures ZonePoints(m, p, i, j) == LowerOf(m, p, i, j) + UpperOf(m, p, i, j)
  {
    hide SitePoints;
  }

  /** At each of its sites a zone touches the points that the process has there. */
  lemma CornersCarry(m: Mesh, p: Part, i: nat, j: nat)
    requires m.kind == Hex && ValidPart(m, p) && i < p.nzx && j < p.nzy
    ensures Carries(Keys(m, p), SitePoints(m, p, i, j, [1, 2]), HexCorner(m, p.zx + i, p.zy + j, [1, 2]))
    ensures Carries(Keys(m, p), SitePoints(m, p, i + 1, j, [1]), HexCorner(m, p.zx + i + 1, p.zy + j, [1]))
    ensures Carries(Keys(m, p), SitePoints(m, p, i + 1, j + 1, [2, 1]),
                    HexCorner(m, p.zx + i + 1, p.zy + j + 1, [2, 1]))
    ensures Carries(Keys(m, p), SitePoints(m, p, i, j + 1, [2]), HexCorner(m, p.zx + i, p.zy + j + 1, [2]))
  {
    hide Keys, SitePoints, HexCorner, Carries;
    SitePointsCarry(m, p, i, j, [1, 2]);
    SitePointsCarry(m, p, i + 1, j, [1]);
    SitePointsCarry(m, p, i + 1, j + 1, [2, 1]);
    SitePointsCarry(m, p, i, j + 1, [2]);
  }

  /** The meshes whose zones come out right: at least two zones each way, or one column of
      at most two. */
  predicate HexFits(m: Mesh) {
    (m.gnzx >= 2 && m.gnzy >= 2) || (m.gnzx == 1 && m.gnzy <= 2)
  }

  lemma OnePoint(m: Mesh, p: Part, i: nat, j: nat, ws: seq<int>)
    requires Boundary(m, p.zx + i, p.zy + j)
    ensures SitePoints(m, p, i, j, ws) == [At(m, p, i, j)]
  {
  }

  lemma TwoPoints(m: Mesh, p: Part, i: nat, j: nat)
    requires !Boundary(m, p.zx + i, p.zy + j)
    ensures SitePoints(m, p, i, j, [1]) == [At(m, p, i, j)]
    ensures |Ws(m, p, i, j)| == 2 ==> SitePoints(m, p, i, j, [1, 2]) == [At(m, p, i, j), At(m, p, i, j) + 1]
    ensures |Ws(m, p, i, j)| == 2 ==> SitePoints(m, p, i, j, [2, 1]) == [At(m, p, i, j) + 1, At(m, p, i, j)]
    ensures SitePoints(m, p, i, j, [2]) == [At(m, p, i, j) + |Ws(m, p, i, j)| / 2]
  {
    hide At;
    WsSize(m, p, i, j);
  }

  lemma WsSize(m: Mesh, p: Part, i: nat, j: nat)
    requires !Boundary(m, p.zx + i, p.zy + j)
    ensures m.kind == Hex ==> |Ws(m, p, i, j)| == 1 || |Ws(m, p, i, j)| == 2
  {
  }

  lemma LowerPoints(m: Mesh, p: Part, i: nat, j: nat)
    requires m.kind == Hex && ValidPart(m, p) && i < p.nzx && j < p.nzy
    ensures var base := At(m, p, 0, j);
            var v1 := base + 2 * i + if p.mx > 0 && p.zy + j > 0 then 1 else 0;
            LowerOf(m, p, i, j) ==
            if p.zy + j == 0 then [base + i, base + i + 1]
            else if p.zx + i == 0 then [v1, v1 + 1]
            else [v1 - 1, v1, v1 + 1]
  {
    hide At, SitePoints, Ws;
    if p.zy + j == 0 {
      OuterSingle(m, p, j);
      SingleAt(m, p, j, i);
      SingleAt(m, p, j, i + 1);
      OnePoint(m, p, i, j, [1, 2]);
      OnePoint(m, p, i + 1, j, [1]);
    } else {
      InnerAt(m, p, i, j);
      InnerAt(m, p, i + 1, j);
      InnerWs(m, p, i, j);
      InnerWs(m, p, i + 1, j);
      if p.zx + i == 0 {
        OnePoint(m, p, i, j, [1, 2]);
      } else {
        TwoPoints(m, p, i, j);
      }
      if p.zx + i + 1 == m.gnzx {
        OnePoint(m, p, i + 1, j, [1]);
      } else {
        TwoPoints(m, p, i + 1, j);
      }
    }
  }

  lemma UpperPoints(m: Mesh, p: Part, i: nat, j: nat)
    requires m.kind == Hex && ValidPart(m, p) && i < p.nzx && j < p.nzy
    ensures var base := At(m, p, 0, j + 1);
            var hi := base + if p.mx > 0 && j + 1 < p.nzy then 1 else 0;
            UpperOf(m, p, i, j) ==
            if p.zy + j == m.gnzy - 1 then [base + i + 1, base + i]
            else if p.zx + i == m.gnzx - 1 then [hi + 2 * i + 1, hi + 2 * i]
            else [hi + 2 * i + 2, hi + 2 * i + 1, hi + 2 * i]
  {
    hide At, SitePoints, Ws;
    if p.zy + j == m.gnzy - 1 {
      OuterSingle(m, p, j + 1);
      SingleAt(m, p, j + 1, i);
      SingleAt(m, p, j + 1, i + 1);
      OnePoint(m, p, i, j + 1, [2]);
      OnePoint(m, p, i + 1, j + 1, [2, 1]);
    } else {
      InnerAt(m, p, i, j + 1);
      InnerAt(m, p, i + 1, j + 1);
      InnerWs(m, p, i, j + 1);
      InnerWs(m, p, i + 1, j + 1);
      if p.zx + i == 0 {
        OnePoint(m, p, i, j + 1, [2]);
      } else {
        TwoPoints(m, p, i, j + 1);
      }
      if p.zx + i + 1 == m.gnzx {
        OnePoint(m, p, i + 1, j + 1, [2, 1]);
      } else {
        TwoPoints(m, p, i + 1, j + 1);
      }
    }
  }

  lemma VerticesSplit(m: Mesh, p: Part, i: nat, j: nat, base: nat, above: nat, lower: seq<nat>, upper: seq<nat>)
    requires HexFits(m) && p.zx + i < m.gnzx && p.zy + j < m.gnzy && j < p.nzy && p.zy + p.nzy <= m.gnzy
    requires var v1 := base + 2 * i + if p.mx > 0 && p.zy + j > 0 then 1 else 0;
             lower ==
             if p.zy + j == 0 then [base + i, base + i + 1]
             else if p.zx + i == 0 then [v1, v1 + 1]
             else [v1 - 1, v1, v1 + 1]
    requires var hi := above + if p.mx > 0 && j + 1 < p.nzy then 1 else 0;
             upper ==
             if p.zy + j == m.gnzy - 1 then [above + i + 1, above + i]
             else if p.zx + i == m.gnzx - 1 then [hi + 2 * i + 1, hi + 2 * i]
             else [hi + 2 * i + 2, hi + 2 * i + 1, hi + 2 * i]
    requires m.gnzx == 1 ==> i == 0 && p.mx == 0
    ensures HexVertices(m, p, i, j, base, above) == lower + upper
  {
  }

  /** The numbers worked out for a zone are those of its corners. */
  lemma VerticesAre(m: Mesh, p: Part, i: nat, j: nat)
    requires m.kind == Hex && ValidPart(m, p) && i < p.nzx && j < p.nzy && HexFits(m)
    ensures HexVertices(m, p, i, j, At(m, p, 0, j), At(m, p, 0, j + 1)) == ZonePoints(m, p, i, j)
  {
    hide *;
    LowerPoints(m, p, i, j);
    UpperPoints(m, p, i, j);
    ZonePointsAre(m, p, i, j);
    ZoneInside(m, p, i, j);
    VerticesSplit(m, p, i, j, At(m, p, 0, j), At(m, p, 0, j + 1), LowerOf(m, p, i, j), UpperOf(m, p, i, j));
  }

  lemma ZoneInside(m: Mesh, p: Part, i: nat, j: nat)
    requires ValidPart(m, p) && i < p.nzx && j < p.nzy
    ensures p.zx + i < m.gnzx && p.zy + j < m.gnzy && p.zy + p.nzy <= m.gnzy
    ensures m.gnzx == 1 ==> i == 0 && p.mx == 0
  {
  }

  /** Zone (i, j) lists its corners. */
  ghost predicate RightZone(m: Mesh, p: Part, i: nat, j: nat) {
    var v := HexVertices(m, p, i, j, At(m, p, 0, j), At(m, p, 0, j + 1));
    (forall t :: 0 <= t < |v| ==> v[t] >= 0) && Carries(Keys(m, p), v, Corners(m, p.zx + i, p.zy + j))
  }

  lemma ZoneIsRight(m: Mesh, p: Part, i: nat, j: nat)
    requires m.kind == Hex && ValidPart(m, p) && i < p.nzx && j < p.nzy && HexFits(m)
    ensures RightZone(m, p, i, j)
  {
    hide *;
    VerticesAre(m, p, i, j);
    ZonePointsCarry(m, p, i, j);
    RightBy(m, p, i, j, ZonePoints(m, p, i, j));
  }

  lemma RightBy(m: Mesh, p: Part, i: nat, j: nat, v: seq<nat>)
    requires HexVertices(m, p, i, j, At(m, p, 0, j), At(m, p, 0, j + 1)) == v
    requires Carries(Keys(m, p), v, Corners(m, p.zx + i, p.zy + j))
    ensures RightZone(m, p, i, j)
  {
    hide HexVertices, Corners, Keys, At, Carries;
  }

  /** Whether every zone of every process comes out right. */
  ghost predicate AllZonesRight(m: Mesh)
    requires ValidMesh(m)
  {
    forall mx: nat, my: nat, i: nat, j: nat :: mx < m.numpex && my < m.numpey ==> ZoneOfPart(m, mx, my, i, j)
  }

  ghost predicate ZoneOfPart(m: Mesh, mx: nat, my: nat, i: nat, j: nat)
    requires ValidMesh(m)
  {
    var p := PartOf(m, mx, my);
    i < p.nzx && j < p.nzy ==> RightZone(m, p, i, j)
  }

  /** A zone of a mesh with only one row, or in the middle of a single column, gets one
      corner too many. */
  lemma ZoneIsWrong(m: Mesh, p: Part, i: nat, j: nat)
    requires m.kind == Hex && ValidPart(m, p) && i < p.nzx && j < p.nzy
    requires (m.gnzy == 1 && p.zx + i < m.gnzx - 1) || (m.gnzx == 1 && 0 < p.zy + j < m.gnzy - 1)
    ensures !RightZone(m, p, i, j)
  {
    hide Keys, At;
    var v := HexVertices(m, p, i, j, At(m, p, 0, j), At(m, p, 0, j + 1));
    assert |v| == 5;
    assert |Corners(m, p.zx + i, p.zy + j)| == 4;
  }

  /** Exactly when the zone lists of a hex mesh are right. */
  lemma ZonesRightExactly(m: Mesh)
    requires ValidMesh(m) && m.kind == Hex
    ensures AllZonesRight(m) <==> HexFits(m)
  {
    hide RightZone, HexFits, PartOf, Start;
    if HexFits(m) {
      forall mx: nat, my: nat, i: nat, j: nat | mx < m.numpex && my < m.numpey
        ensures ZoneOfPart(m, mx, my, i, j)
      {
        PartFacts(m, mx, my);
        var p := PartOf(m, mx, my);
        if i < p.nzx && j < p.nzy {
          ZoneIsRight(m, p, i, j);
        }
      }
    } else {
      var mx, my, i, j := WrongZone(m);
      PartFacts(m, mx, my);
      ZoneIsWrong(m, PartOf(m, mx, my), i, j);
      assert !ZoneOfPart(m, mx, my, i, j);
    }
  }

  lemma WrongZone(m: Mesh) returns (mx: nat, my: nat, i: nat, j: nat)
    requires ValidMesh(m) && m.kind == Hex && !HexFits(m)
    ensures mx < m.numpex && my < m.numpey
    ensures var p := PartOf(m, mx, my);
            && i < p.nzx && j < p.nzy
            && ((m.gnzy == 1 && p.zx + i < m.gnzx - 1) || (m.gnzx == 1 && 0 < p.zy + j < m.gnzy - 1))
  {
    hide Start;
    StartEnds(m.gnzx, m.numpex);
    StartEnds(m.gnzy, m.numpey);
    if m.gnzy == 1 {
      mx, my, i, j := 0, 0, 0, 0;
    } else {
      var k := ZoneIsIn(1, m.gnzy, m.numpey, m.numpey);
      mx, my, i, j := 0, k, 0, 1 - Start(k, m.gnzy, m.numpey);
    }
  }

  /** A single row of two zones, on one process, is an input on which they are wrong: the
      first zone gets a fifth corner.  A single zone comes out right. */
  lemma SingleRowWrong()
    ensures ValidMesh(Mesh(Hex, 2, 1, 1, 1)) && !AllZonesRight(Mesh(Hex, 2, 1, 1, 1))
    ensures ValidMesh(Mesh(Hex, 1, 1, 1, 1)) && AllZonesRight(Mesh(Hex, 1, 1, 1, 1))
  {
    ZonesRightExactly(Mesh(Hex, 2, 1, 1, 1));
    ZonesRightExactly(Mesh(Hex, 1, 1, 1, 1));
    hide AllZonesRight;
  }

  /** Right or wrong, the numbers worked out are never negative. */
  lemma VerticesNatural(m: Mesh, p: Part, i: nat, j: nat)
    requires m.kind == Hex && ValidPart(m, p) && i < p.nzx && j < p.nzy
    ensures var v := HexVertices(m, p, i, j, At(m, p, 0, j), At(m, p, 0, j + 1));
            forall t :: 0 <= t < |v| ==> v[t] >= 0
  {
    hide At;
  }

  /** What zone (i, j) lists. */
  function ZoneVertices(m: Mesh, p: Part, i: nat, j: nat): seq<nat>
    requires m.kind == Hex && ValidPart(m, p) && i < p.nzx && j < p.nzy
  {
    VerticesNatural(m, p, i, j);
    HexVertices(m, p, i, j, At(m, p, 0, j), At(m, p, 0, j + 1))
  }

  function VertexRowFirst(m: Mesh, p: Part, j: nat, n: nat): seq<seq<nat>>
    requires m.kind == Hex && ValidPart(m, p) && j < p.nzy && n <= p.nzx
  {
    if n == 0 then [] else VertexRowFirst(m, p, j, n - 1) + [ZoneVertices(m, p, n - 1, j)]
  }

  /** What the first n zones of row j list. */
  function VertexRow(m: Mesh, p: Part, j: nat, n: nat): seq<seq<nat>>
    requires m.kind == Hex && ValidPart(m, p) && j < p.nzy && n <= p.nzx
  {
    VertexRowFirst(m, p, j, n)
  }

  function VertexRowsFirst(m: Mesh, p: Part, n: nat): seq<seq<nat>>
    requires m.kind == Hex && ValidPart(m, p) && n <= p.nzy
  {
    if n == 0 then [] else VertexRowsFirst(m, p, n - 1) + VertexRow(m, p, n - 1, p.nzx)
  }

  /** What the zones of the first n rows list. */
  function VertexRows(m: Mesh, p: Part, n: nat): seq<seq<nat>>
    requires m.kind == Hex && ValidPart(m, p) && n <= p.nzy
  {
    VertexRowsFirst(m, p, n)
  }

  lemma VertexNext(m: Mesh, p: Part, j: nat, i: nat)
    requires m.kind == Hex && ValidPart(m, p) && j < p.nzy && i < p.nzx
    ensures VertexRow(m, p, j, 0) == [] && VertexRows(m, p, 0) == []
    ensures VertexRow(m, p, j, i + 1) == VertexRow(m, p, j, i) + [ZoneVertices(m, p, i, j)]
    ensures VertexRows(m, p, j + 1) == VertexRows(m, p, j) + VertexRow(m, p, j, p.nzx)
  {
    hide ZoneVertices, ValidPart;
  }

  /** Some of the zones list the corners they have. */
  ghost predicate AllCarry(keys: seq<Key>, vs: seq<seq<nat>>, zones: seq<seq<Key>>) {
    |vs| == |zones| && forall z :: 0 <= z < |vs| ==> Carries(keys, vs[z], zones[z])
  }

  lemma AllCarryAdd(keys: seq<Key>, vs: seq<seq<nat>>, zones: seq<seq<Key>>, ws: seq<seq<nat>>, more: seq<seq<Key>>)
    requires AllCarry(keys, vs, zones) && AllCarry(keys, ws, more)
    ensures AllCarry(keys, vs + ws, zones + more)
  {
    hide Carries;
    forall z | 0 <= z < |vs + ws|
      ensures Carries(keys, (vs + ws)[z], (zones + more)[z])
    {
      if z < |vs| {
        assert Carries(keys, vs[z], zones[z]);
      } else {
        assert Carries(keys, ws[z - |vs|], more[z - |vs|]);
      }
    }
  }

  lemma OneCarries(m: Mesh, p: Part, i: nat, j: nat)
    requires m.kind == Hex && ValidPart(m, p) && i < p.nzx && j < p.nzy && HexFits(m)
    ensures AllCarry(Keys(m, p), [ZoneVertices(m, p, i, j)], [Corners(m, p.zx + i, p.zy + j)])
  {
    VerticesAre(m, p, i, j);
    ZonePointsCarry(m, p, i, j);
    hide Carries, HexVertices, ZonePoints, Keys, Corners, ValidPart, At;
  }

  lemma RowCarriesNext(m: Mesh, p: Part, j: nat, n: nat)
    requires m.kind == Hex && ValidPart(m, p) && j < p.nzy && n < p.nzx && HexFits(m)
    requires AllCarry(Keys(m, p), VertexRow(m, p, j, n), ZoneRow(m, p, j, n))
    ensures AllCarry(Keys(m, p), VertexRow(m, p, j, n + 1), ZoneRow(m, p, j, n + 1))
  {
    hide *;
    OneCarries(m, p, n, j);
    VertexNext(m, p, j, n);
    ZoneNext(m, p, j, n);
    AllCarryAdd(Keys(m, p), VertexRow(m, p, j, n), ZoneRow(m, p, j, n), [ZoneVertices(m, p, n, j)],
                [Corners(m, p.zx + n, p.zy + j)]);
  }

  lemma {:induction false} RowCarries(m: Mesh, p: Part, j: nat, n: nat)
    requires m.kind == Hex && ValidPart(m, p) && j < p.nzy && n <= p.nzx && HexFits(m)
    ensures AllCarry(Keys(m, p), VertexRow(m, p, j, n), ZoneRow(m, p, j, n))
  {
    hide *;
    if n == 0 {
      PartHasZones(m, p);
      VertexNext(m, p, j, 0);
      ZoneNext(m, p, j, 0);
      NoneCarry(Keys(m, p));
    } else {
      RowCarries(m, p, j, n - 1);
      RowCarriesNext(m, p, j, n - 1);
    }
  }

  lemma PartHasZones(m: Mesh, p: Part)
    requires ValidPart(m, p)
    ensures p.nzx >= 1 && p.nzy >= 1
  {
  }

  lemma NoneCarry(keys: seq<Key>)
    ensures AllCarry(keys, [], [])
  {
  }

  lemma {:induction false} RowsCarry(m: Mesh, p: Part, n: nat)
    requires m.kind == Hex && ValidPart(m, p) && n <= p.nzy && HexFits(m)
    ensures AllCarry(Keys(m, p), VertexRows(m, p, n), ZoneRows(m, p, n))
  {
    PartHasZones(m, p);
    hide *;
    if n == 0 {
      VertexNext(m, p, 0, 0);
      ZoneNext(m, p, 0, 0);
      NoneCarry(Keys(m, p));
    } else {
      RowsCarry(m, p, n - 1);
      RowCarries(m, p, n - 1, p.nzx);
      VertexNext(m, p, n - 1, 0);
      ZoneNext(m, p, n - 1, 0);
      AllCarryAdd(Keys(m, p), VertexRows(m, p, n - 1), ZoneRows(m, p, n - 1), VertexRow(m, p, n - 1, p.nzx),
                  ZoneRow(m, p, n - 1, p.nzx));
    }
  }

  /** Zone z lists the given points, for every z. */
  ghost predicate ListsPoints(zl: ZoneLists, vs: seq<seq<nat>>) {
    && MeshSides.Layout(zl.start, zl.size, |zl.points|) && |zl.start| == |zl.size| == |vs|
    && forall z :: 0 <= z < |vs| ==> ListedAt(zl, z, vs[z])
  }

  ghost predicate ListedAt(zl: ZoneLists, z: int, v: seq<nat>)
    requires 0 <= z < |zl.start| == |zl.size|
  {
    zl.start[z] + zl.size[z] <= |zl.points| && zl.points[zl.start[z]..zl.start[z] + zl.size[z]] == v
  }

  lemma NothingListed()
    ensures ListsPoints(ZoneLists([], [], []), [])
  {
  }

  lemma PointsAdded(zl: ZoneLists, vs: seq<seq<nat>>, v: seq<nat>)
    requires ListsPoints(zl, vs) && v != []
    ensures ListsPoints(WithZone(zl, v), vs + [v])
  {
    hide MeshSides.Layout;
    MeshSides.LayoutMore(zl.start, zl.size, |zl.points|, |v|);
    var now, all := WithZone(zl, v), vs + [v];
    forall z | 0 <= z < |all|
      ensures ListedAt(now, z, all[z])
    {
      if z < |vs| {
        assert ListedAt(zl, z, vs[z]);
        var a, n := zl.start[z], zl.size[z];
        assert now.points[a..a + n] == zl.points[a..a + n];
      } else {
        assert now.points[|zl.points|..|zl.points| + |v|] == v;
      }
    }
  }

  /** Lists of points that carry the corners of the zones list the zones. */
  lemma ListsCorners(keys: seq<Key>, zl: ZoneLists, vs: seq<seq<nat>>, zones: seq<seq<Key>>)
    requires ListsPoints(zl, vs) && AllCarry(keys, vs, zones)
    ensures ListsZones(keys, zl, zones)
  {
    hide Carries, MeshSides.Layout;
    forall z | 0 <= z < |zones|
      ensures ListsZone(keys, zl, z, zones[z])
    {
      assert ListedAt(zl, z, vs[z]);
    }
  }

  lemma VerticesMore(m: Mesh, p: Part, j: nat, i: nat, zl: ZoneLists, v: seq<nat>)
    requires m.kind == Hex && ValidPart(m, p) && j < p.nzy && i < p.nzx && v == ZoneVertices(m, p, i, j)
    requires ListsPoints(zl, VertexRows(m, p, j) + VertexRow(m, p, j, i))
    ensures ListsPoints(WithZone(zl, v), VertexRows(m, p, j) + VertexRow(m, p, j, i + 1))
  {
    assert v != [];
    hide *;
    VertexNext(m, p, j, i);
    PointsAdded(zl, VertexRows(m, p, j) + VertexRow(m, p, j, i), v);
    assert VertexRows(m, p, j) + VertexRow(m, p, j, i) + [v] == VertexRows(m, p, j) + (VertexRow(m, p, j, i) + [v]);
  }

  /** The zone lists, zone by zone: the numbers worked out for each zone, which are its
      corners when the mesh fits. */
  method HexZones(m: Mesh, p: Part, pbase: seq<nat>) returns (zl: ZoneLists)
    requires m.kind == Hex && ValidPart(m, p)
    requires RowBases(m, p, pbase)
    ensures ListsPoints(zl, VertexRows(m, p, p.nzy))
    ensures HexFits(m) ==> ListsZones(Keys(m, p), zl, ZoneRows(m, p, p.nzy))
  {
    hide *;
    zl := ZoneLists([], [], []);
    NothingListed();
    PartHasZones(m, p);
    VertexNext(m, p, 0, 0);
    RowBase(m, p, pbase);
    for j := 0 to p.nzy
      invariant ListsPoints(zl, VertexRows(m, p, j))
    {
      zl := HexZoneRow(m, p, pbase, j, zl);
      VertexNext(m, p, j, 0);
    }
    if HexFits(m) {
      RowsCarry(m, p, p.nzy);
      ListsCorners(Keys(m, p), zl, VertexRows(m, p, p.nzy), ZoneRows(m, p, p.nzy));
    }
  }

  /** The zones of one row. */
  method HexZoneRow(m: Mesh, p: Part, pbase: seq<nat>, j: nat, was: ZoneLists) returns (zl: ZoneLists)
    requires m.kind == Hex && ValidPart(m, p) && j < p.nzy && RowBases(m, p, pbase)
    requires ListsPoints(was, VertexRows(m, p, j))
    ensures ListsPoints(zl, VertexRows(m, p, j) + VertexRow(m, p, j, p.nzx))
  {
    hide *;
    zl := was;
    PartHasZones(m, p);
    VertexNext(m, p, j, 0);
    RowBase(m, p, pbase);
    assert VertexRows(m, p, j) + [] == VertexRows(m, p, j);
    for i := 0 to p.nzx
      invariant ListsPoints(zl, VertexRows(m, p, j) + VertexRow(m, p, j, i))
    {
      VerticesNatural(m, p, i, j);
      var v: seq<nat> := HexVertices(m, p, i, j, pbase[j], pbase[j + 1]);
      VerticesAsMade(m, p, i, j, v);
      VerticesMore(m, p, j, i, zl, v);
      zl := WithZone(zl, v);
    }
  }

  lemma VerticesAsMade(m: Mesh, p: Part, i: nat, j: nat, v: seq<nat>)
    requires m.kind == Hex && ValidPart(m, p) && i < p.nzx && j < p.nzy
    requires v == HexVertices(m, p, i, j, At(m, p, 0, j), At(m, p, 0, j + 1))
    ensures v == ZoneVertices(m, p, i, j)
  {
    hide HexVertices, At, ValidPart;
  }

  // ----- slaves and masters

  method HexBelow(m: Mesh, p: Part, slavepoints: seq<nat>) returns (points: seq<nat>)
    requires m.kind == Hex && ValidPart(m, p) && p.my > 0
    ensures points == slavepoints + Run(m, p, Below, p.nzx + 1)
  {
    var npx := p.nzx + 1;
    AtNext(m, p, 0, 0);
    RunStart(m, p, Below);
    points := slavepoints;
    assert slavepoints + [] == slavepoints;
    var q := 0;
    hide *;
    for i := 0 to npx
      invariant q == At(m, p, i, 0) && points == slavepoints + Run(m, p, Below, i)
    {
      AtNext(m, p, i, 0);
      BelowPiece(m, p, i);
      if i == 0 && p.mx != 0 {
        RunSkip(m, p, Below, i);
        q := q + 2;
        continue;
      }
      if i == 0 || i == p.nzx {
        RunGrows(m, p, Below, i, slavepoints, [q]);
        points := points + [q];
        q := q + 1;
      } else {
        RunGrows(m, p, Below, i, slavepoints, [q, q + 1]);
        points := points + [q, q + 1];
        q := q + 2;
      }
    }
  }

  lemma BelowPiece(m: Mesh, p: Part, i: nat)
    requires m.kind == Hex && ValidPart(m, p) && p.my > 0 && i <= p.nzx
    ensures |Ws(m, p, i, 0)| == if i == p.nzx || (i == 0 && p.mx == 0) then 1 else 2
    ensures Piece(m, p, Below, i) ==
            if |Ws(m, p, i, 0)| == 1 then [At(m, p, i, 0)] else [At(m, p, i, 0), At(m, p, i, 0) + 1]
    ensures Lo(p, Below) == if p.mx != 0 then 1 else 0
  {
    InnerWs(m, p, i, 0);
    hide At, Ws;
  }

  method HexLeft(m: Mesh, p: Part, pbase: seq<nat>, slavepoints: seq<nat>) returns (points: seq<nat>)
    requires m.kind == Hex && ValidPart(m, p) && p.mx > 0
    requires RowBases(m, p, pbase)
    ensures points == slavepoints + Run(m, p, Left, p.nzy + 1)
  {
    var npy := p.nzy + 1;
    RunStart(m, p, Left);
    points := slavepoints;
    assert slavepoints + [] == slavepoints;
    RowBase(m, p, pbase);
    hide *;
    for j := 0 to npy
      invariant points == slavepoints + Run(m, p, Left, j)
    {
      LeftPiece(m, p, j);
      if j == 0 && p.my != 0 {
        RunSkip(m, p, Left, j);
        continue;
      }
      var q := pbase[j];
      if j == 0 || j == p.nzy {
        RunGrows(m, p, Left, j, slavepoints, [q]);
        points := points + [q];
      } else {
        RunGrows(m, p, Left, j, slavepoints, [q, q + 1]);
        points := points + [q, q + 1];
      }
    }
  }

  lemma LeftPiece(m: Mesh, p: Part, j: nat)
    requires m.kind == Hex && ValidPart(m, p) && p.mx > 0 && j <= p.nzy
    ensures Lo(p, Left) == if p.my != 0 then 1 else 0
    ensures j >= Lo(p, Left) ==>
              Piece(m, p, Left, j) ==
              if j == 0 || j == p.nzy then [At(m, p, 0, j)] else [At(m, p, 0, j), At(m, p, 0, j) + 1]
  {
    hide At;
  }

  method HexRight(m: Mesh, p: Part, np: nat, pbase: seq<nat>, masterpoints: seq<nat>) returns (points: seq<nat>)
    requires m.kind == Hex && ValidPart(m, p) && p.mx + 1 < m.numpex && np == |Keys(m, p)|
    requires RowBases(m, p, pbase)
    ensures points == masterpoints + Run(m, p, Right, p.nzy + 1)
  {
    var npy := p.nzy + 1;
    RunStart(m, p, Right);
    points := masterpoints;
    assert masterpoints + [] == masterpoints;
    RowBase(m, p, pbase);
    hide *;
    for j := 0 to npy
      invariant points == masterpoints + Run(m, p, Right, j)
    {
      RowEnd(m, p, j);
      var q := if j == p.nzy then np else pbase[j + 1];
      RightPiece(m, p, j, q);
      if j == 0 && p.my != 0 {
        RunSkip(m, p, Right, j);
        continue;
      }
      if j == 0 || j == p.nzy {
        RunGrows(m, p, Right, j, masterpoints, [q - 1]);
        points := points + [q - 1];
      } else {
        RunGrows(m, p, Right, j, masterpoints, [q - 2, q - 1]);
        points := points + [q - 2, q - 1];
      }
    }
  }

  lemma RowEnd(m: Mesh, p: Part, j: nat)
    requires j <= p.nzy
    ensures At(m, p, p.nzx + 1, j) == At(m, p, 0, j + 1)
    ensures j == p.nzy ==> At(m, p, 0, j + 1) == |Keys(m, p)|
  {
    AtNext(m, p, 0, j);
    AtNext(m, p, 0, j + 1);
    hide At, Rows;
  }

  lemma RightPiece(m: Mesh, p: Part, j: nat, end: nat)
    requires m.kind == Hex && ValidPart(m, p) && p.mx + 1 < m.numpex && j <= p.nzy && end == At(m, p, p.nzx + 1, j)
    ensures Lo(p, Right) == if p.my != 0 then 1 else 0
    ensures j >= Lo(p, Right) && (j == 0 || j == p.nzy) ==> end >= 1 && Piece(m, p, Right, j) == [end - 1]
    ensures j >= Lo(p, Right) && 0 < j < p.nzy ==> end >= 2 && Piece(m, p, Right, j) == [end - 2, end - 1]
  {
    AtNext(m, p, p.nzx, j);
    hide At;
  }

  method HexAbove(m: Mesh, p: Part, first: nat, masterpoints: seq<nat>) returns (points: seq<nat>)
    requires m.kind == Hex && ValidPart(m, p) && p.my + 1 < m.numpey && first == At(m, p, 0, p.nzy)
    ensures points == masterpoints + Run(m, p, Above, p.nzx + 1)
  {
    var npx := p.nzx + 1;
    RunStart(m, p, Above);
    points := masterpoints;
    assert masterpoints + [] == masterpoints;
    var q := first;
    hide *;
    for i := 0 to npx
      invariant i <= p.nzx ==> q == At(m, p, i, p.nzy)
      invariant points == masterpoints + Run(m, p, Above, i)
    {
      AtNext(m, p, i, p.nzy);
      AbovePiece(m, p, i);
      if i == 0 && p.mx != 0 {
        RunSkip(m, p, Above, i);
        q := q + 1;
        continue;
      }
      if i == 0 || i == p.nzx {
        RunGrows(m, p, Above, i, masterpoints, [q]);
        points := points + [q];
        q := q + 1;
      } else {
        RunGrows(m, p, Above, i, masterpoints, [q, q + 1]);
        points := points + [q, q + 1];
        q := q + 2;
      }
    }
  }

  lemma AbovePiece(m: Mesh, p: Part, i: nat)
    requires m.kind == Hex && ValidPart(m, p) && p.my + 1 < m.numpey && i <= p.nzx
    ensures i == 0 ==> |Ws(m, p, i, p.nzy)| == 1
    ensures 0 < i < p.nzx ==> |Ws(m, p, i, p.nzy)| == 2
    ensures Lo(p, Above) == if p.mx != 0 then 1 else 0
    ensures Piece(m, p, Above, i) ==
            if i == 0 || i == p.nzx then [At(m, p, i, p.nzy)] else [At(m, p, i, p.nzy), At(m, p, i, p.nzy) + 1]
  {
    InnerWs(m, p, i, p.nzy);
    hide At, Ws;
  }

  lemma HexCornerRuns(m: Mesh, p: Part)
    requires m.kind == Hex && ValidPart(m, p)
    ensures p.mx > 0 && p.my > 0 ==> SiteRun(m, p, 0, 0) == [0, 1]
    ensures p.mx + 1 < m.numpex && p.my + 1 < m.numpey ==>
              |Keys(m, p)| >= 2 && SiteRun(m, p, p.nzx, p.nzy) == [|Keys(m, p)| - 2, |Keys(m, p)| - 1]
  {
    AtNext(m, p, 0, 0);
    RowEnd(m, p, p.nzy);
    AtNext(m, p, p.nzx, p.nzy);
    if p.my > 0 {
      InnerWs(m, p, 0, 0);
    }
    if p.my + 1 < m.numpey {
      InnerWs(m, p, p.nzx, p.nzy);
    }
    hide At, Ws, Keys;
  }

  /** The lists of a hex mesh's slaves. */
  method HexSlaves(m: Mesh, p: Part, pbase: seq<nat>) returns (slave: Plan)
    requires ValidMesh(m) && ValidPart(m, p) && m.kind == Hex
    requires RowBases(m, p, pbase)
    ensures slave == PlanOf(SlaveMsgs(m, p))
  {
    var mype := Rank(m, p.mx, p.my);
    slave := Plan([], [], []);
    ghost var ms: seq<Message> := [];
    PlanNone();
    SlaveMessages(m, p, mype);
    HexCornerRuns(m, p);
    SlaveOrder(m, p);
    hide *;
    if p.mx != 0 && p.my != 0 {
      MessageDone(ms, slave, LowerLeft(m, p), mype - m.numpex - 1, slave.points + [0, 1]);
      slave := WithMessage(slave, mype - m.numpex - 1, slave.points + [0, 1]);
      ms := ms + [LowerLeft(m, p)];
    }
    if p.my != 0 {
      var points := HexBelow(m, p, slave.points);
      MessageDone(ms, slave, Under(m, p), mype - m.numpex, points);
      slave := WithMessage(slave, mype - m.numpex, points);
      ms := ms + [Under(m, p)];
    }
    if p.mx != 0 {
      var points := HexLeft(m, p, pbase, slave.points);
      MessageDone(ms, slave, ToLeft(m, p), mype - 1, points);
      slave := WithMessage(slave, mype - 1, points);
      ms := ms + [ToLeft(m, p)];
    }
  }

  /** The message to the right. */
  method HexToRight(m: Mesh, p: Part, np: nat, pbase: seq<nat>, mype: nat) returns (master: Plan)
    requires ValidPart(m, p) && m.kind == Hex && np == |Keys(m, p)| && RowBases(m, p, pbase)
    requires mype == Rank(m, p.mx, p.my)
    ensures master == PlanOf([] + If(p.mx + 1 < m.numpex, ToRight(m, p)))
  {
    hide *;
    PlanNone();
    MasterMessages(m, p, mype);
    PartInside(m, p);
    master := Plan([], [], []);
    ghost var was := master;
    if p.mx != m.numpex - 1 {
      var points := HexRight(m, p, np, pbase, master.points);
      master := WithMessage(master, mype + 1, points);
    }
    MaybeMessage(p.mx + 1 < m.numpex, [], was, ToRight(m, p), mype + 1, was.points + ToRight(m, p).points);
  }

  /** The message above. */
  method HexOver(m: Mesh, p: Part, pbase: seq<nat>, mype: nat, ghost ms: seq<Message>, was: Plan)
    returns (master: Plan)
    requires ValidPart(m, p) && m.kind == Hex && RowBases(m, p, pbase) && mype == Rank(m, p.mx, p.my)
    requires was == PlanOf(ms)
    ensures master == PlanOf(ms + If(p.my + 1 < m.numpey, Over(m, p)))
  {
    hide *;
    MasterMessages(m, p, mype);
    PartInside(m, p);
    TopBase(m, p, pbase);
    master := was;
    if p.my != m.numpey - 1 {
      var points := HexAbove(m, p, pbase[p.nzy], master.points);
      master := WithMessage(master, mype + m.numpex, points);
    }
    MaybeMessage(p.my + 1 < m.numpey, ms, was, Over(m, p), mype + m.numpex, was.points + Over(m, p).points);
  }

  /** The message to the right above. */
  method HexUpperRight(m: Mesh, p: Part, np: nat, mype: nat, ghost ms: seq<Message>, was: Plan)
    returns (master: Plan)
    requires ValidPart(m, p) && m.kind == Hex && np == |Keys(m, p)| && mype == Rank(m, p.mx, p.my)
    requires was == PlanOf(ms)
    ensures master == PlanOf(ms + If(p.mx + 1 < m.numpex && p.my + 1 < m.numpey, UpperRight(m, p)))
  {
    hide *;
    PartInside(m, p);
    master := was;
    if p.mx != m.numpex - 1 && p.my != m.numpey - 1 {
      HexCornerMessage(m, p, mype, np);
      var points := master.points + [np - 2, np - 1];
      MaybeMessage(true, ms, master, UpperRight(m, p), mype + m.numpex + 1, points);
      master := WithMessage(master, mype + m.numpex + 1, points);
    } else {
      MaybeMessage(false, ms, master, UpperRight(m, p), UpperRight(m, p).pe, master.points + UpperRight(m, p).points);
    }
  }

  /** The lists of a hex mesh's masters. */
  method HexMasters(m: Mesh, p: Part, np: nat, pbase: seq<nat>) returns (master: Plan)
    requires ValidMesh(m) && ValidPart(m, p) && m.kind == Hex && np == |Keys(m, p)| && RowBases(m, p, pbase)
    ensures master == PlanOf(MasterMsgs(m, p))
  {
    var mype := Rank(m, p.mx, p.my);
    MasterOrder(m, p);
    hide *;
    ghost var first := [] + If(p.mx + 1 < m.numpex, ToRight(m, p));
    master := HexToRight(m, p, np, pbase, mype);
    master := HexOver(m, p, pbase, mype, first, master);
    master := HexUpperRight(m, p, np, mype, first + If(p.my + 1 < m.numpey, Over(m, p)), master);
  }

  lemma HexCornerMessage(m: Mesh, p: Part, mype: nat, np: nat)
    requires m.kind == Hex && ValidPart(m, p) && np == |Keys(m, p)| && mype == Rank(m, p.mx, p.my)
    requires p.mx + 1 < m.numpex && p.my + 1 < m.numpey
    ensures np >= 2 && UpperRight(m, p) == Message(mype + m.numpex + 1, [np - 2, np - 1])
  {
    hide *;
    HexCornerRuns(m, p);
    MasterMessages(m, p, mype);
  }

  method GenerateHex(m: Mesh, p: Part) returns (pointpos: seq<Key>, zl: ZoneLists, slave: Plan, master: Plan)
    requires ValidMesh(m) && ValidPart(m, p) && m.kind == Hex
    ensures Pe(slave, master, pointpos) == PeAt(m, p) && ListsPoints(zl, VertexRows(m, p, p.nzy))
    ensures HexFits(m) ==> ListsZones(pointpos, zl, ZoneRows(m, p, p.nzy))
  {
    var pbase;
    pointpos, pbase := HexPoints(m, p);
    zl := HexZones(m, p, pbase);
    if m.numpex * m.numpey == 1 {
      AloneSendsNothing(m, p);
      return pointpos, zl, Plan([], [], []), Plan([], [], []);
    }
    slave := HexSlaves(m, p, pbase);
    master := HexMasters(m, p, |pointpos|, pbase);
  }
}
