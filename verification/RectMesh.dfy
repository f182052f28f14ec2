/** generateRect */
module RectMesh {
  import opened PointExchange
  import opened MessageLists
  import opened MeshPoints
  import opened MeshMessages
  import opened MeshLists
  import opened MeshMatch
  import opened MeshBuild
  import opened ZoneSplit

  lemma MulNext(a: nat, b: nat)
    ensures Times(0, b) == 0 && Times(a + 1, b) == Times(a, b) + b
  {
  }

  lemma RectSingle(m: Mesh, p: Part, j: nat)
    requires m.kind == Rect
    ensures SingleRow(m, p, j)
  {
  }

  /** Points are numbered row by row. */
  lemma {:induction false} RectAt(m: Mesh, p: Part, i: nat, j: nat)
    requires m.kind == Rect && i <= p.nzx + 1
    ensures At(m, p, i, j) == Times(j, p.nzx + 1) + i
    decreases j
  {
    RectSingle(m, p, j);
    hide At, Ws, Times, SingleRow;
    SingleAt(m, p, j, i);
    if j == 0 {
      AtNext(m, p, 0, 0);
      MulNext(0, p.nzx + 1);
    } else {
      RectAt(m, p, p.nzx + 1, j - 1);
      AtNext(m, p, 0, j - 1);
      MulNext(j - 1, p.nzx + 1);
    }
  }

  method RectPoints(m: Mesh, p: Part) returns (pointpos: seq<Key>)
    requires m.kind == Rect
    ensures pointpos == Keys(m, p)
  {
    var npx, npy := p.nzx + 1, p.nzy + 1;
    pointpos := [];
    RowsNext(m, p, 0);
    hide Rows, RowKeys;
    for j := 0 to npy
      invariant pointpos == Rows(m, p, j)
    {
      RowNext(m, p, j, 0);
      for i := 0 to npx
        invariant pointpos == Rows(m, p, j) + RowKeys(m, p, j, i)
      {
        RowNext(m, p, j, i);
        assert SiteKeys(m, p, i, j) == [Key(i + p.zx, j + p.zy, 0)];
        pointpos := pointpos + [Key(i + p.zx, j + p.zy, 0)];
      }
      RowsNext(m, p, j);
    }
  }

  lemma RectCarry(m: Mesh, p: Part, i: nat, j: nat)
    requires m.kind == Rect && i <= p.nzx && j <= p.nzy
    ensures Times(j, p.nzx + 1) + i < |Keys(m, p)|
    ensures Keys(m, p)[Times(j, p.nzx + 1) + i] == KeyOf(m, p.zx + i, p.zy + j, 0)
  {
    RectAt(m, p, i, j);
    PointAt(m, p, i, j, 0);
  }

  method RectZones(m: Mesh, p: Part) returns (zl: ZoneLists)
    requires m.kind == Rect
    ensures ListsZones(Keys(m, p), zl, ZoneRows(m, p, p.nzy))
  {
    var npx := p.nzx + 1;
    zl := ZoneLists([], [], []);
    NoZones(Keys(m, p));
    ZoneNext(m, p, 0, 0);
    hide Keys, ListsZones, ZoneRows, ZoneRow, Times, Corners, WithZone, Carries;
    for j := 0 to p.nzy
      invariant ListsZones(Keys(m, p), zl, ZoneRows(m, p, j))
    {
      ZoneNext(m, p, j, 0);
      assert ZoneRows(m, p, j) + [] == ZoneRows(m, p, j);
      for i := 0 to p.nzx
        invariant ListsZones(Keys(m, p), zl, ZoneRows(m, p, j) + ZoneRow(m, p, j, i))
      {
        var p0 := Times(j, npx) + i;
        var v := [p0, p0 + 1, p0 + npx + 1, p0 + npx];
        RectZoneAdded(m, p, zl, i, j, p0, v);
        zl := WithZone(zl, v);
      }
      ZoneNext(m, p, j, 0);
    }
  }

  lemma RectZoneAdded(m: Mesh, p: Part, zl: ZoneLists, i: nat, j: nat, p0: nat, v: seq<nat>)
    requires m.kind == Rect && i < p.nzx && j < p.nzy && p0 == Times(j, p.nzx + 1) + i
    requires v == [p0, p0 + 1, p0 + (p.nzx + 1) + 1, p0 + (p.nzx + 1)]
    requires ListsZones(Keys(m, p), zl, ZoneRows(m, p, j) + ZoneRow(m, p, j, i))
    ensures ListsZones(Keys(m, p), WithZone(zl, v), ZoneRows(m, p, j) + ZoneRow(m, p, j, i + 1))
  {
    hide *;
    RectZone(m, p, i, j, p0);
    ZoneAdded(Keys(m, p), zl, ZoneRows(m, p, j) + ZoneRow(m, p, j, i), v, Corners(m, p.zx + i, p.zy + j));
    ZoneMore(m, p, i, j);
  }

  lemma RectZone(m: Mesh, p: Part, i: nat, j: nat, p0: nat)
    requires m.kind == Rect && i < p.nzx && j < p.nzy && p0 == Times(j, p.nzx + 1) + i
    ensures Carries(Keys(m, p), [p0, p0 + 1, p0 + (p.nzx + 1) + 1, p0 + (p.nzx + 1)], Corners(m, p.zx + i, p.zy + j))
  {
    hide Keys, Times, KeyOf;
    MulNext(j, p.nzx + 1);
    RectCarry(m, p, i, j);
    RectCarry(m, p, i + 1, j);
    RectCarry(m, p, i + 1, j + 1);
    RectCarry(m, p, i, j + 1);
  }

  method RectLeft(m: Mesh, p: Part, slavepoints: seq<nat>) returns (points: seq<nat>)
    requires m.kind == Rect
    ensures points == slavepoints + Run(m, p, Left, p.nzy + 1)
  {
    var npx, npy := p.nzx + 1, p.nzy + 1;
    RunStart(m, p, Left);
    points := slavepoints;
    assert slavepoints + [] == slavepoints;
    var q := 0;
    MulNext(0, npx);
    hide At, Run, Times;
    for j := 0 to npy
      invariant q == Times(j, npx) && points == slavepoints + Run(m, p, Left, j)
    {
      MulNext(j, npx);
      if j == 0 && p.my != 0 {
        RunSkip(m, p, Left, j);
        q := q + npx;
        continue;
      }
      RectAt(m, p, 0, j);
      assert [q] == Piece(m, p, Left, j);
      RunGrows(m, p, Left, j, slavepoints, [q]);
      points := points + [q];
      q := q + npx;
    }
  }

  method RectRight(m: Mesh, p: Part, masterpoints: seq<nat>) returns (points: seq<nat>)
    requires m.kind == Rect
    ensures points == masterpoints + Run(m, p, Right, p.nzy + 1)
  {
    var npx, npy := p.nzx + 1, p.nzy + 1;
    RunStart(m, p, Right);
    points := masterpoints;
    assert masterpoints + [] == masterpoints;
    var q := npx - 1;
    MulNext(0, npx);
    hide At, Run, Times;
    for j := 0 to npy
      invariant q == Times(j, npx) + npx - 1 && points == masterpoints + Run(m, p, Right, j)
    {
      MulNext(j, npx);
      if j == 0 && p.my != 0 {
        RunSkip(m, p, Right, j);
        q := q + npx;
        continue;
      }
      RectAt(m, p, p.nzx, j);
      assert [q] == Piece(m, p, Right, j);
      RunGrows(m, p, Right, j, masterpoints, [q]);
      points := points + [q];
      q := q + npx;
    }
  }

  /** The lists of a rectangular mesh's slaves. */
  method RectSlaves(m: Mesh, p: Part) returns (slave: Plan)
    requires ValidMesh(m) && ValidPart(m, p) && m.kind == Rect
    ensures slave == PlanOf(SlaveMsgs(m, p))
  {
    var mype := Rank(m, p.mx, p.my);
    slave := Plan([], [], []);
    ghost var ms: seq<Message> := [];
    PlanNone();
    RectSingle(m, p, 0);
    SlaveMessages(m, p, mype);
    RectCorners(m, p);
    SlaveOrder(m, p);
    hide *;
    if p.mx != 0 && p.my != 0 {
      MessageDone(ms, slave, LowerLeft(m, p), mype - m.numpex - 1, slave.points + [0]);
      slave := WithMessage(slave, mype - m.numpex - 1, slave.points + [0]);
      ms := ms + [LowerLeft(m, p)];
    }
    if p.my != 0 {
      var points := SingleBelow(m, p, slave.points);
      MessageDone(ms, slave, Under(m, p), mype - m.numpex, points);
      slave := WithMessage(slave, mype - m.numpex, points);
      ms := ms + [Under(m, p)];
    }
    if p.mx != 0 {
      var points := RectLeft(m, p, slave.points);
      MessageDone(ms, slave, ToLeft(m, p), mype - 1, points);
      slave := WithMessage(slave, mype - 1, points);
      ms := ms + [ToLeft(m, p)];
    }
  }

  lemma RectCorners(m: Mesh, p: Part)
    requires m.kind == Rect
    ensures SiteRun(m, p, 0, 0) == [0] && SiteRun(m, p, p.nzx, p.nzy) == [Times(p.nzy, p.nzx + 1) + p.nzx]
    ensures At(m, p, 0, p.nzy) == Times(p.nzy, p.nzx + 1)
    ensures Times(p.nzy + 1, p.nzx + 1) - 1 == Times(p.nzy, p.nzx + 1) + p.nzx
  {
    RectAt(m, p, 0, 0);
    RectAt(m, p, 0, p.nzy);
    RectAt(m, p, p.nzx, p.nzy);
    MulNext(0, p.nzx + 1);
    MulNext(p.nzy, p.nzx + 1);
    hide At, Times;
  }

  /** The lists of a rectangular mesh's masters. */
  method RectMasters(m: Mesh, p: Part) returns (master: Plan)
    requires ValidMesh(m) && ValidPart(m, p) && m.kind == Rect
    ensures master == PlanOf(MasterMsgs(m, p))
  {
    var mype, npx, npy := Rank(m, p.mx, p.my), p.nzx + 1, p.nzy + 1;
    master := Plan([], [], []);
    ghost var ms: seq<Message> := [];
    PlanNone();
    RectSingle(m, p, p.nzy);
    RectCorners(m, p);
    MasterMessages(m, p, mype);
    MasterOrder(m, p);
    PartInside(m, p);
    hide *;
    ghost var right, above := p.mx + 1 < m.numpex, p.my + 1 < m.numpey;
    ghost var was := master;
    if p.mx != m.numpex - 1 {
      var points := RectRight(m, p, master.points);
      master := WithMessage(master, mype + 1, points);
    }
    MaybeMessage(right, ms, was, ToRight(m, p), mype + 1, was.points + ToRight(m, p).points);
    ms, was := ms + If(right, ToRight(m, p)), master;
    if p.my != m.numpey - 1 {
      var points := SingleAbove(m, p, master.points, Times(npy - 1, npx));
      master := WithMessage(master, mype + m.numpex, points);
    }
    MaybeMessage(above, ms, was, Over(m, p), mype + m.numpex, was.points + Over(m, p).points);
    ms, was := ms + If(above, Over(m, p)), master;
    if p.mx != m.numpex - 1 && p.my != m.numpey - 1 {
      master := WithMessage(master, mype + m.numpex + 1, master.points + [Times(npy, npx) - 1]);
    }
    MaybeMessage(right && above, ms, was, UpperRight(m, p), mype + m.numpex + 1, was.points + UpperRight(m, p).points);
  }

  method GenerateRect(m: Mesh, p: Part) returns (pointpos: seq<Key>, zl: ZoneLists, slave: Plan, master: Plan)
    requires ValidMesh(m) && ValidPart(m, p) && m.kind == Rect
    ensures Pe(slave, master, pointpos) == PeAt(m, p) && ListsZones(pointpos, zl, ZoneRows(m, p, p.nzy))
  {
    pointpos := RectPoints(m, p);
    zl := RectZones(m, p);
    if m.numpex * m.numpey == 1 {
      AloneSendsNothing(m, p);
      return pointpos, zl, Plan([], [], []), Plan([], [], []);
    }
    slave := RectSlaves(m, p);
    master := RectMasters(m, p);
  }
}
