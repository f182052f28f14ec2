/** What the generators of the three meshes have in common: lists that grow message by
    message, and the loops along a row of single points. */
module MeshBuild {
  import opened PointExchange
  import opened MessageLists
  import opened MeshPoints
  import opened MeshMessages
  import opened MeshLists
  import opened MeshMatch
  import MeshSides

  /** The lists after the points of one more message have been appended. */
  function WithMessage(pl: Plan, pe: nat, points: seq<nat>): Plan
    requires |pl.points| <= |points|
  {
    Plan(pl.pes + [pe], pl.counts + [|points| - |pl.points|], points)
  }

  lemma MessageDone(ms: seq<Message>, was: Plan, x: Message, pe: nat, points: seq<nat>)
    requires was == PlanOf(ms) && pe == x.pe && points == was.points + x.points
    ensures WithMessage(was, pe, points) == PlanOf(ms + [x])
  {
    hide PlanOf;
    PlanNext(ms, x);
  }

  /** The slave messages, by the numbers of the processes they go to. */
  lemma SlaveMessages(m: Mesh, p: Part, mype: nat)
    requires mype == Rank(m, p.mx, p.my)
    ensures p.mx != 0 && p.my != 0 ==>
              mype >= m.numpex + 1 && LowerLeft(m, p) == Message(mype - m.numpex - 1, SiteRun(m, p, 0, 0))
    ensures p.my != 0 ==> mype >= m.numpex && Under(m, p) == Message(mype - m.numpex, Run(m, p, Below, p.nzx + 1))
    ensures p.mx != 0 ==> mype >= 1 && ToLeft(m, p) == Message(mype - 1, Run(m, p, Left, p.nzy + 1))
  {
    if p.mx != 0 && p.my != 0 {
      RankSteps(m, p.mx - 1, p.my - 1);
    }
    if p.my != 0 {
      RankSteps(m, p.mx, p.my - 1);
    }
    if p.mx != 0 {
      RankSteps(m, p.mx - 1, p.my);
    }
    hide Run, SiteRun;
  }

  /** The master messages, by the numbers of the processes they go to. */
  lemma MasterMessages(m: Mesh, p: Part, mype: nat)
    requires mype == Rank(m, p.mx, p.my)
    ensures ToRight(m, p) == Message(mype + 1, Run(m, p, Right, p.nzy + 1))
    ensures Over(m, p) == Message(mype + m.numpex, Run(m, p, Above, p.nzx + 1))
    ensures UpperRight(m, p) == Message(mype + m.numpex + 1, SiteRun(m, p, p.nzx, p.nzy))
  {
    RankSteps(m, p.mx, p.my);
    hide Run, SiteRun;
  }

  /** A single process has no slaves and no masters. */
  lemma AloneSendsNothing(m: Mesh, p: Part)
    requires ValidMesh(m) && ValidPart(m, p) && m.numpex * m.numpey == 1
    ensures PlanOf(SlaveMsgs(m, p)) == Plan([], [], []) == PlanOf(MasterMsgs(m, p))
  {
    FactorsOfOne(m.numpex, m.numpey);
    PlanNone();
    hide PlanOf, Rank, Run, SiteRun;
    assert SlaveMsgs(m, p) == [];
    assert MasterMsgs(m, p) == [];
  }

  lemma FactorsOfOne(a: nat, b: nat)
    requires a * b == 1
    ensures a == 1 && b == 1
  {
  }

  /** The messages of a mesh without rays, in the order in which they are made. */
  lemma SlaveOrder(m: Mesh, p: Part)
    requires !FarRay(m, p)
    ensures p.mx != 0 && p.my != 0 ==> SlaveMsgs(m, p) == [] + [LowerLeft(m, p)] + [Under(m, p)] + [ToLeft(m, p)]
    ensures p.mx == 0 && p.my != 0 ==> SlaveMsgs(m, p) == [] + [Under(m, p)]
    ensures p.mx != 0 && p.my == 0 ==> SlaveMsgs(m, p) == [] + [ToLeft(m, p)]
    ensures p.mx == 0 && p.my == 0 ==> SlaveMsgs(m, p) == []
  {
    hide LowerLeft, Under, ToLeft;
  }

  lemma MasterOrder(m: Mesh, p: Part)
    requires !HoldsOrigin(m, p)
    ensures MasterMsgs(m, p) ==
            [] + If(p.mx + 1 < m.numpex, ToRight(m, p)) + If(p.my + 1 < m.numpey, Over(m, p))
            + If(p.mx + 1 < m.numpex && p.my + 1 < m.numpey, UpperRight(m, p))
  {
    hide ToRight, Over, UpperRight, If;
    assert [] + If(p.mx + 1 < m.numpex, ToRight(m, p)) == If(p.mx + 1 < m.numpex, ToRight(m, p));
    assert If(p.mx + 1 < m.numpex, ToRight(m, p)) + [] == If(p.mx + 1 < m.numpex, ToRight(m, p));
  }

  lemma PartInside(m: Mesh, p: Part)
    requires ValidPart(m, p)
    ensures p.mx < m.numpex && p.my < m.numpey
  {
  }

  /** A message that is made under a condition. */
  lemma MaybeMessage(c: bool, ms: seq<Message>, was: Plan, x: Message, pe: nat, points: seq<nat>)
    requires was == PlanOf(ms) && pe == x.pe && points == was.points + x.points
    ensures c ==> WithMessage(was, pe, points) == PlanOf(ms + If(c, x))
    ensures !c ==> was == PlanOf(ms + If(c, x))
  {
    hide PlanOf, WithMessage;
    if c {
      MessageDone(ms, was, x, pe, points);
    } else {
      assert ms + [] == ms;
    }
  }

  lemma RunStart(m: Mesh, p: Part, side: Side)
    ensures Run(m, p, side, 0) == []
  {
    RunNext(m, p, side, 0);
  }

  /** A site before the side begins adds nothing. */
  lemma RunSkip(m: Mesh, p: Part, side: Side, n: nat)
    requires n < Lo(p, side)
    ensures Run(m, p, side, n + 1) == []
  {
    RunNext(m, p, side, n + 1);
  }

  lemma RunGrows(m: Mesh, p: Part, side: Side, n: nat, before: seq<nat>, piece: seq<nat>)
    requires n >= Lo(p, side) && piece == Piece(m, p, side, n)
    ensures before + Run(m, p, side, n) + piece == before + Run(m, p, side, n + 1)
  {
    hide Run, Piece, Lo;
    RunNext(m, p, side, n);
    assert before + Run(m, p, side, n) + piece == before + (Run(m, p, side, n) + piece);
  }

  /** Every site of the row has one point. */
  ghost predicate SingleRow(m: Mesh, p: Part, j: nat) {
    forall i {:trigger Ws(m, p, i, j)} :: 0 <= i <= p.nzx ==> |Ws(m, p, i, j)| == 1
  }

  lemma {:induction false} SingleAt(m: Mesh, p: Part, j: nat, i: nat)
    requires SingleRow(m, p, j) && i <= p.nzx + 1
    ensures At(m, p, i, j) == At(m, p, 0, j) + i
  {
    hide At, Ws;
    if i > 0 {
      SingleAt(m, p, j, i - 1);
      AtNext(m, p, i - 1, j);
    }
  }

  /** The points of a lower row of single points. */
  method SingleBelow(m: Mesh, p: Part, slavepoints: seq<nat>) returns (points: seq<nat>)
    requires SingleRow(m, p, 0)
    ensures points == slavepoints + Run(m, p, Below, p.nzx + 1)
  {
    var npx := p.nzx + 1;
    AtNext(m, p, 0, 0);
    RunStart(m, p, Below);
    points := slavepoints;
    assert slavepoints + [] == slavepoints;
    var q := 0;
    hide At, Ws, Run;
    for i := 0 to npx
      invariant q == i && points == slavepoints + Run(m, p, Below, i)
    {
      if i == 0 && p.mx != 0 {
        RunSkip(m, p, Below, i);
        q := q + 1;
        continue;
      }
      SingleAt(m, p, 0, i);
      assert [q] == Piece(m, p, Below, i);
      RunGrows(m, p, Below, i, slavepoints, [q]);
      points := points + [q];
      q := q + 1;
    }
  }

  /** The points of an upper row of single points; first is the number of its first. */
  method SingleAbove(m: Mesh, p: Part, masterpoints: seq<nat>, first: nat) returns (points: seq<nat>)
    requires SingleRow(m, p, p.nzy) && first == At(m, p, 0, p.nzy)
    ensures points == masterpoints + Run(m, p, Above, p.nzx + 1)
  {
    var npx := p.nzx + 1;
    RunStart(m, p, Above);
    points := masterpoints;
    assert masterpoints + [] == masterpoints;
    var q := first;
    hide At, Ws, Run;
    for i := 0 to npx
      invariant q == first + i && points == masterpoints + Run(m, p, Above, i)
    {
      if i == 0 && p.mx != 0 {
        RunSkip(m, p, Above, i);
        q := q + 1;
        continue;
      }
      SingleAt(m, p, p.nzy, i);
      assert [q] == Piece(m, p, Above, i);
      RunGrows(m, p, Above, i, masterpoints, [q]);
      points := points + [q];
      q := q + 1;
    }
  }

  // ----- zones

  /** The corners of a zone of the whole mesh, counterclockwise: two at a site inside a
      hex mesh that the zone is above or below of, one elsewhere. */
  function Corners(m: Mesh, gi: nat, gj: nat): (ks: seq<Key>)
    ensures ks != []
  {
    match m.kind
    case Rect => [KeyOf(m, gi, gj, 0), KeyOf(m, gi + 1, gj, 0), KeyOf(m, gi + 1, gj + 1, 0), KeyOf(m, gi, gj + 1, 0)]
    case Pie =>
      (if gj == 0 then [KeyOf(m, gi, gj, 0)] else [KeyOf(m, gi, gj, 0), KeyOf(m, gi + 1, gj, 0)])
      + [KeyOf(m, gi + 1, gj + 1, 0), KeyOf(m, gi, gj + 1, 0)]
    case Hex =>
      HexCorner(m, gi, gj, [1, 2]) + HexCorner(m, gi + 1, gj, [1]) + HexCorner(m, gi + 1, gj + 1, [2, 1]) +
        HexCorner(m, gi, gj + 1, [2])
  }

  function HexCorner(m: Mesh, gi: nat, gj: nat, ws: seq<int>): (ks: seq<Key>) {
    if Boundary(m, gi, gj) then [Key(gi, gj, 0)] else seq(|ws|, t requires 0 <= t < |ws| => Key(gi, gj, ws[t]))
  }

  function ZoneRowFirst(m: Mesh, p: Part, j: nat, n: nat): seq<seq<Key>> {
    if n == 0 then [] else ZoneRowFirst(m, p, j, n - 1) + [Corners(m, p.zx + n - 1, p.zy + j)]
  }

  /** The corners of the first n zones of row j. */
  function ZoneRow(m: Mesh, p: Part, j: nat, n: nat): seq<seq<Key>> {
    ZoneRowFirst(m, p, j, n)
  }

  function ZoneRowsFirst(m: Mesh, p: Part, n: nat): seq<seq<Key>> {
    if n == 0 then [] else ZoneRowsFirst(m, p, n - 1) + ZoneRow(m, p, n - 1, p.nzx)
  }

  /** The corners of all zones in the first n rows. */
  function ZoneRows(m: Mesh, p: Part, n: nat): seq<seq<Key>> {
    ZoneRowsFirst(m, p, n)
  }

  lemma ZoneNext(m: Mesh, p: Part, j: nat, n: nat)
    ensures ZoneRow(m, p, j, 0) == [] && ZoneRows(m, p, 0) == []
    ensures ZoneRow(m, p, j, n + 1) == ZoneRow(m, p, j, n) + [Corners(m, p.zx + n, p.zy + j)]
    ensures ZoneRows(m, p, j + 1) == ZoneRows(m, p, j) + ZoneRow(m, p, j, p.nzx)
  {
    hide Corners;
  }

  /** zonestart, zonesize, zonepoints */
  datatype ZoneLists = ZoneLists(start: seq<nat>, size: seq<nat>, points: seq<nat>)

  /** Zones occupy consecutive parts of the list of points, and the points listed for each
      zone are its corners, in order. */
  ghost predicate ListsZones(keys: seq<Key>, zl: ZoneLists, zones: seq<seq<Key>>) {
    MeshSides.Layout(zl.start, zl.size, |zl.points|) && ListsEach(keys, zl, zones)
  }

  ghost predicate ListsEach(keys: seq<Key>, zl: ZoneLists, zones: seq<seq<Key>>) {
    && |zl.start| == |zl.size| == |zones|
    && forall z :: 0 <= z < |zones| ==> ListsZone(keys, zl, z, zones[z])
  }

  ghost predicate ListsZone(keys: seq<Key>, zl: ZoneLists, z: int, corners: seq<Key>)
    requires 0 <= z < |zl.start| == |zl.size|
  {
    && zl.start[z] + zl.size[z] <= |zl.points|
    && Carries(keys, zl.points[zl.start[z]..zl.start[z] + zl.size[z]], corners)
  }

  /** The lists with one more zone. */
  function WithZone(zl: ZoneLists, v: seq<nat>): ZoneLists {
    ZoneLists(zl.start + [|zl.points|], zl.size + [|v|], zl.points + v)
  }

  lemma ZoneAdded(keys: seq<Key>, zl: ZoneLists, zones: seq<seq<Key>>, v: seq<nat>, corners: seq<Key>)
    requires ListsZones(keys, zl, zones) && Carries(keys, v, corners) && corners != []
    ensures ListsZones(keys, WithZone(zl, v), zones + [corners])
  {
    assert |v| > 0;
    hide MeshSides.Layout, ListsEach, Carries;
    MeshSides.LayoutMore(zl.start, zl.size, |zl.points|, |v|);
    EachAdded(keys, zl, zones, v, corners);
  }

  lemma EachAdded(keys: seq<Key>, zl: ZoneLists, zones: seq<seq<Key>>, v: seq<nat>, corners: seq<Key>)
    requires ListsEach(keys, zl, zones) && Carries(keys, v, corners)
    ensures ListsEach(keys, WithZone(zl, v), zones + [corners])
  {
    var now, all := WithZone(zl, v), zones + [corners];
    hide Carries;
    forall z | 0 <= z < |all|
      ensures ListsZone(keys, now, z, all[z])
    {
      if z < |zones| {
        assert ListsZone(keys, zl, z, zones[z]);
        var a, n := zl.start[z], zl.size[z];
        assert now.points[a..a + n] == zl.points[a..a + n];
      } else {
        assert now.points[|zl.points|..|zl.points| + |v|] == v;
      }
    }
  }

  /** One more zone in row j. */
  lemma ZoneMore(m: Mesh, p: Part, i: nat, j: nat)
    ensures ZoneRows(m, p, j) + ZoneRow(m, p, j, i) + [Corners(m, p.zx + i, p.zy + j)] ==
            ZoneRows(m, p, j) + ZoneRow(m, p, j, i + 1)
  {
    hide Corners, ZoneRows, ZoneRow;
    ZoneNext(m, p, j, i);
    assert ZoneRows(m, p, j) + ZoneRow(m, p, j, i) + [Corners(m, p.zx + i, p.zy + j)] ==
           ZoneRows(m, p, j) + (ZoneRow(m, p, j, i) + [Corners(m, p.zx + i, p.zy + j)]);
  }

  lemma NoZones(keys: seq<Key>)
    ensures ListsZones(keys, ZoneLists([], [], []), [])
  {
  }
}
