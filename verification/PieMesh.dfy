/** generatePie: rays of zones around an origin that all the lowest processes share. */
module PieMesh {
  import opened PointExchange
  import opened MessageLists
  import opened MeshPoints
  import opened MeshMessages
  import opened MeshLists
  import opened MeshMatch
  import opened MeshBuild
  import opened ZoneSplit
  import opened RectMesh

  lemma PieSingle(m: Mesh, p: Part, j: nat)
    requires m.kind == Pie && p.zy + j > 0
    ensures SingleRow(m, p, j)
  {
  }

  /** The number of the first point of row j, where the row of the origin has one point
      only. */
  function Base(p: Part, j: nat): nat {
    if p.zy > 0 then Times(j, p.nzx + 1) else if j == 0 then 0 else 1 + Times(j - 1, p.nzx + 1)
  }

  lemma OriginRow(m: Mesh, p: Part, i: nat)
    requires m.kind == Pie && p.zy == 0
    ensures At(m, p, i, 0) == if i == 0 then 0 else 1
    ensures At(m, p, 0, 1) == 1
    decreases i
  {
    AtNext(m, p, 0, 0);
    OriginRun(m, p, i);
    OriginRun(m, p, p.nzx + 1);
  }

  lemma {:induction false} OriginRun(m: Mesh, p: Part, i: nat)
    requires m.kind == Pie && p.zy == 0
    ensures At(m, p, i, 0) == if i == 0 then 0 else 1
  {
    hide At;
    AtNext(m, p, 0, 0);
    if i > 0 {
      OriginRun(m, p, i - 1);
      AtNext(m, p, i - 1, 0);
    }
  }

  lemma {:induction false} PieRow(m: Mesh, p: Part, j: nat)
    requires m.kind == Pie
    ensures At(m, p, 0, j) == Base(p, j)
  {
    hide At, Ws, Times, SingleRow;
    AtNext(m, p, 0, 0);
    MulNext(0, p.nzx + 1);
    if j > 0 {
      PieRow(m, p, j - 1);
      AtNext(m, p, 0, j - 1);
      MulNext(j - 1, p.nzx + 1);
      if p.zy == 0 && j == 1 {
        OriginRow(m, p, 0);
      } else {
        PieSingle(m, p, j - 1);
        SingleAt(m, p, j - 1, p.nzx + 1);
        if j >= 2 {
          MulNext(j - 2, p.nzx + 1);
        }
      }
    }
  }

  lemma PieAt(m: Mesh, p: Part, i: nat, j: nat)
    requires m.kind == Pie && p.zy + j > 0 && i <= p.nzx + 1
    ensures At(m, p, i, j) == Base(p, j) + i
  {
    hide At, Base, SingleRow;
    PieRow(m, p, j);
    PieSingle(m, p, j);
    SingleAt(m, p, j, i);
  }

  lemma BaseNext(p: Part, j: nat)
    requires p.zy + j > 0
    ensures Base(p, j + 1) == Base(p, j) + (p.nzx + 1)
    ensures p.zy == 0 ==> Base(p, 1) == 1
    ensures p.zy > 0 ==> Base(p, 0) == 0 && Base(p, j) == Times(j, p.nzx + 1)
    ensures p.zy == 0 ==> Base(p, j) + p.nzx == Times(j, p.nzx + 1)
  {
    MulNext(j, p.nzx + 1);
    MulNext(0, p.nzx + 1);
    if j > 0 {
      MulNext(j - 1, p.nzx + 1);
    }
    hide Times;
  }

  method PiePoints(m: Mesh, p: Part) returns (pointpos: seq<Key>)
    requires m.kind == Pie
    ensures pointpos == Keys(m, p)
  {
    var npx, npy := p.nzx + 1, p.nzy + 1;
    pointpos := [];
    RowsNext(m, p, 0);
    hide Rows, RowKeys;
    for j := 0 to npy
      invariant pointpos == Rows(m, p, j)
    {
      RowNext(m, p, j, 0);
      RowsNext(m, p, j);
      if j + p.zy == 0 {
        OriginKeys(m, p, npx);
        pointpos := pointpos + [Key(0, 0, 0)];
        continue;
      }
      for i := 0 to npx
        invariant pointpos == Rows(m, p, j) + RowKeys(m, p, j, i)
      {
        RowNext(m, p, j, i);
        assert SiteKeys(m, p, i, j) == [Key(i + p.zx, j + p.zy, 0)];
        pointpos := pointpos + [Key(i + p.zx, j + p.zy, 0)];
      }
    }
  }

  lemma {:induction false} OriginKeys(m: Mesh, p: Part, i: nat)
    requires m.kind == Pie && p.zy == 0
    ensures RowKeys(m, p, 0, i) == if i == 0 then [] else [Key(0, 0, 0)]
  {
    hide RowKeys;
    RowNext(m, p, 0, 0);
    if i > 0 {
      OriginKeys(m, p, i - 1);
      RowNext(m, p, 0, i - 1);
      if i == 1 {
        assert SiteKeys(m, p, 0, 0) == [Key(0, 0, 0)];
      } else {
        assert SiteKeys(m, p, i - 1, 0) == [];
      }
    }
  }

  lemma PieCarry(m: Mesh, p: Part, i: nat, j: nat)
    requires m.kind == Pie && p.zy + j > 0 && i <= p.nzx && j <= p.nzy
    ensures Base(p, j) + i < |Keys(m, p)| && Keys(m, p)[Base(p, j) + i] == KeyOf(m, p.zx + i, p.zy + j, 0)
  {
    PieAt(m, p, i, j);
    PointAt(m, p, i, j, 0);
  }

  lemma OriginCarry(m: Mesh, p: Part, i: nat)
    requires m.kind == Pie && p.zy == 0
    ensures 0 < |Keys(m, p)| && Keys(m, p)[0] == KeyOf(m, i, 0, 0)
  {
    AtNext(m, p, 0, 0);
    PointAt(m, p, 0, 0, 0);
  }

  /** The corners of zone (i, j) in terms of p0, which is negative on the row of the
      origin. */
  function PieCorners(p: Part, j: nat, p0: int): seq<int> {
    (if j + p.zy == 0 then [0] else [p0, p0 + 1]) + [p0 + (p.nzx + 1) + 1, p0 + (p.nzx + 1)]
  }

  lemma PieZone(m: Mesh, p: Part, i: nat, j: nat, p0: int)
    requires m.kind == Pie && i < p.nzx && j < p.nzy
    requires p0 == Times(j, p.nzx + 1) + i - if p.zy == 0 then p.nzx else 0
    ensures forall t :: 0 <= t < |PieCorners(p, j, p0)| ==> PieCorners(p, j, p0)[t] >= 0
    ensures Carries(Keys(m, p), PieCorners(p, j, p0), Corners(m, p.zx + i, p.zy + j))
  {
    hide Keys, Times, KeyOf, Base;
    MulNext(0, p.nzx + 1);
    PieCarry(m, p, i, j + 1);
    PieCarry(m, p, i + 1, j + 1);
    BaseNext(p, j + 1);
    if j + p.zy == 0 {
      OriginCarry(m, p, p.zx + i);
    } else {
      BaseNext(p, j);
      PieCarry(m, p, i, j);
      PieCarry(m, p, i + 1, j);
    }
  }

  method PieZones(m: Mesh, p: Part) returns (zl: ZoneLists)
    requires m.kind == Pie && ValidPart(m, p)
    ensures ListsZones(Keys(m, p), zl, ZoneRows(m, p, p.nzy))
  {
    var npx := p.nzx + 1;
    zl := ZoneLists([], [], []);
    NoZones(Keys(m, p));
    ZoneNext(m, p, 0, 0);
    assert p.my == 0 <==> p.zy == 0;
    hide Keys, ListsZones, ZoneRows, ZoneRow, Times, Corners, WithZone, PieCorners, Carries;
    for j := 0 to p.nzy
      invariant ListsZones(Keys(m, p), zl, ZoneRows(m, p, j))
    {
      ZoneNext(m, p, j, 0);
      assert ZoneRows(m, p, j) + [] == ZoneRows(m, p, j);
      for i := 0 to p.nzx
        invariant ListsZones(Keys(m, p), zl, ZoneRows(m, p, j) + ZoneRow(m, p, j, i))
      {
        var p0 := Times(j, npx) + i;
        if p.my == 0 {
          p0 := p0 - (npx - 1);
        }
        PieZone(m, p, i, j, p0);
        var v: seq<nat> := PieCorners(p, j, p0);
        ZoneAdded(Keys(m, p), zl, ZoneRows(m, p, j) + ZoneRow(m, p, j, i), v, Corners(m, p.zx + i, p.zy + j));
        ZoneMore(m, p, i, j);
        zl := WithZone(zl, v);
      }
      ZoneNext(m, p, j, 0);
    }
  }

  /** From row 1 on; what the run has of row 0 is in the list already. */
  method PieLeft(m: Mesh, p: Part, ghost before: seq<nat>, slavepoints: seq<nat>) returns (points: seq<nat>)
    requires ValidPart(m, p) && m.kind == Pie && slavepoints == before + Run(m, p, Left, 1)
    ensures points == before + Run(m, p, Left, p.nzy + 1)
  {
    var npx, npy := p.nzx + 1, p.nzy + 1;
    points := slavepoints;
    var q := if p.my > 0 then npx else 1;
    assert p.my == 0 <==> p.zy == 0;
    BaseNext(p, if p.zy > 0 then 0 else 1);
    hide At, Run, Base;
    for j := 1 to npy
      invariant q == Base(p, j) && points == before + Run(m, p, Left, j)
    {
      BaseNext(p, j);
      PieAt(m, p, 0, j);
      assert [q] == Piece(m, p, Left, j);
      RunGrows(m, p, Left, j, before, [q]);
      points := points + [q];
      q := q + npx;
    }
  }

  method PieRight(m: Mesh, p: Part, ghost before: seq<nat>, masterpoints: seq<nat>) returns (points: seq<nat>)
    requires ValidPart(m, p) && m.kind == Pie && masterpoints == before + Run(m, p, Right, 1)
    ensures points == before + Run(m, p, Right, p.nzy + 1)
  {
    var npx, npy := p.nzx + 1, p.nzy + 1;
    points := masterpoints;
    var q := if p.my > 0 then 2 * npx - 1 else npx;
    assert p.my == 0 <==> p.zy == 0;
    BaseNext(p, if p.zy > 0 then 0 else 1);
    hide At, Run, Base;
    for j := 1 to npy
      invariant q == Base(p, j) + npx - 1 && points == before + Run(m, p, Right, j)
    {
      BaseNext(p, j);
      PieAt(m, p, p.nzx, j);
      assert [q] == Piece(m, p, Right, j);
      RunGrows(m, p, Right, j, before, [q]);
      points := points + [q];
      q := q + npx;
    }
  }

  /** What the lists of a pie hold of row 0. */
  lemma PieRowZero(m: Mesh, p: Part)
    requires ValidPart(m, p) && m.kind == Pie
    ensures Run(m, p, Left, 1) == if p.my == 0 && p.mx <= 1 then [0] else []
    ensures Run(m, p, Right, 1) == if p.my == 0 && p.mx == 0 then [0] else []
  {
    RunNext(m, p, Left, 0);
    RunNext(m, p, Right, 0);
    RunNext(m, p, Left, 1);
    RunNext(m, p, Right, 1);
    AtNext(m, p, 0, 0);
    hide Run, At;
  }

  lemma PieCornerRuns(m: Mesh, p: Part)
    requires ValidPart(m, p) && m.kind == Pie
    ensures p.my > 0 ==> SiteRun(m, p, 0, 0) == [0] && SingleRow(m, p, 0)
    ensures SingleRow(m, p, p.nzy)
    ensures At(m, p, 0, p.nzy) == Times(p.nzy, p.nzx + 1) - (if p.my == 0 then p.nzx else 0)
    ensures SiteRun(m, p, p.nzx, p.nzy) == [Times(p.nzy + 1, p.nzx + 1) - 1 - (if p.my == 0 then p.nzx else 0)]
  {
    PieSingle(m, p, p.nzy);
    PieAt(m, p, 0, p.nzy);
    PieAt(m, p, p.nzx, p.nzy);
    BaseNext(p, p.nzy);
    MulNext(p.nzy, p.nzx + 1);
    if p.my > 0 {
      PieSingle(m, p, 0);
      PieAt(m, p, 0, 0);
      BaseNext(p, 0);
    }
    hide At, Times, Base;
  }

  lemma RayMeans(m: Mesh, p: Part)
    requires m.kind == Pie
    ensures FarRay(m, p) <==> p.my == 0 && p.mx > 1
    ensures HoldsOrigin(m, p) <==> p.my == 0 && p.mx == 0
    ensures ToOrigin() == Message(0, [0])
  {
  }

  /** The slave messages in the order in which they are made. */
  lemma PieOrder(m: Mesh, p: Part)
    ensures SlaveMsgs(m, p) == CornerMsgs(m, p) + UnderMsgs(m, p) + LeftMsgs(m, p)
  {
    hide LowerLeft, Under, ToLeft, ToOrigin;
    if p.mx == 0 {
      assert CornerMsgs(m, p) + UnderMsgs(m, p) + [] == CornerMsgs(m, p) + UnderMsgs(m, p);
    }
    var c, u, r, l := CornerMsgs(m, p), UnderMsgs(m, p), If(FarRay(m, p), ToOrigin()),
                      if p.mx != 0 then [ToLeft(m, p)] else [];
    assert SlaveMsgs(m, p) == c + u + r + l;
    assert c + u + r + l == c + u + (r + l);
  }

  function CornerMsgs(m: Mesh, p: Part): seq<Message> {
    if p.mx != 0 && p.my != 0 then [LowerLeft(m, p)] else []
  }

  function UnderMsgs(m: Mesh, p: Part): seq<Message> {
    if p.my != 0 then [Under(m, p)] else []
  }

  function LeftMsgs(m: Mesh, p: Part): seq<Message> {
    if p.mx != 0 then If(FarRay(m, p), ToOrigin()) + [ToLeft(m, p)] else []
  }

  /** The lists of a pie's slaves. */
  method PieSlaves(m: Mesh, p: Part) returns (slave: Plan)
    requires ValidMesh(m) && ValidPart(m, p) && m.kind == Pie
    ensures slave == PlanOf(SlaveMsgs(m, p))
  {
    var mype := Rank(m, p.mx, p.my);
    PieOrder(m, p);
    hide *;
    slave := PieLowerLeft(m, p, mype);
    slave := PieUnder(m, p, CornerMsgs(m, p), slave, mype);
    slave := PieToLeft(m, p, CornerMsgs(m, p) + UnderMsgs(m, p), slave, mype);
  }

  method PieLowerLeft(m: Mesh, p: Part, mype: nat) returns (slave: Plan)
    requires ValidPart(m, p) && m.kind == Pie && mype == Rank(m, p.mx, p.my)
    ensures slave == PlanOf(CornerMsgs(m, p))
  {
    hide *;
    PlanNone();
    SlaveMessages(m, p, mype);
    PieCornerRuns(m, p);
    CornerMsgsAre(m, p);
    slave := Plan([], [], []);
    if p.mx != 0 && p.my != 0 {
      MessageDone([], slave, LowerLeft(m, p), mype - m.numpex - 1, slave.points + [0]);
      slave := WithMessage(slave, mype - m.numpex - 1, slave.points + [0]);
    }
  }

  lemma CornerMsgsAre(m: Mesh, p: Part)
    ensures p.mx != 0 && p.my != 0 ==> CornerMsgs(m, p) == [] + [LowerLeft(m, p)]
    ensures p.mx == 0 || p.my == 0 ==> CornerMsgs(m, p) == []
  {
    hide LowerLeft;
  }

  method PieUnder(m: Mesh, p: Part, ghost ms: seq<Message>, was: Plan, mype: nat) returns (slave: Plan)
    requires ValidPart(m, p) && m.kind == Pie && mype == Rank(m, p.mx, p.my) && was == PlanOf(ms)
    ensures slave == PlanOf(ms + UnderMsgs(m, p))
  {
    hide *;
    SlaveMessages(m, p, mype);
    PieCornerRuns(m, p);
    UnderMsgsAre(m, p, ms);
    slave := was;
    if p.my != 0 {
      var points := SingleBelow(m, p, slave.points);
      MessageDone(ms, slave, Under(m, p), mype - m.numpex, points);
      slave := WithMessage(slave, mype - m.numpex, points);
    }
  }

  lemma UnderMsgsAre(m: Mesh, p: Part, ms: seq<Message>)
    ensures p.my != 0 ==> UnderMsgs(m, p) == [Under(m, p)]
    ensures p.my == 0 ==> ms + UnderMsgs(m, p) == ms
  {
    hide Under;
  }

  method PieToLeft(m: Mesh, p: Part, ghost ms: seq<Message>, was: Plan, mype: nat) returns (slave: Plan)
    requires ValidPart(m, p) && m.kind == Pie && mype == Rank(m, p.mx, p.my) && was == PlanOf(ms)
    ensures slave == PlanOf(ms + LeftMsgs(m, p))
  {
    hide *;
    LeftMsgsAre(m, p, ms);
    slave := was;
    if p.mx != 0 {
      slave := PieLeftMessages(m, p, ms, slave, mype);
    }
  }

  lemma LeftMsgsAre(m: Mesh, p: Part, ms: seq<Message>)
    ensures p.mx != 0 ==> ms + LeftMsgs(m, p) == ms + If(FarRay(m, p), ToOrigin()) + [ToLeft(m, p)]
    ensures p.mx == 0 ==> ms + LeftMsgs(m, p) == ms
  {
    hide ToLeft, ToOrigin, FarRay, If;
  }

  /** The messages to the left: the origin is in the one to the neighbour if that is the
      first process, and in one of its own otherwise. */
  method PieLeftMessages(m: Mesh, p: Part, ghost ms: seq<Message>, was: Plan, mype: nat) returns (slave: Plan)
    requires ValidPart(m, p) && m.kind == Pie && p.mx > 0 && mype == Rank(m, p.mx, p.my) && was == PlanOf(ms)
    ensures slave == PlanOf(ms + If(FarRay(m, p), ToOrigin()) + [ToLeft(m, p)])
  {
    hide *;
    SlaveMessages(m, p, mype);
    PieRowZero(m, p);
    RayMeans(m, p);
    slave := was;
    var points := slave.points;
    ghost var far := FarRay(m, p);
    if p.my == 0 {
      points := points + [0];
      if p.mx > 1 {
        slave := WithMessage(slave, 0, points);
        WithPoints(was, 0, points);
      }
    }
    MaybeMessage(far, ms, was, ToOrigin(), 0, was.points + ToOrigin().points);
    assert points == slave.points + Run(m, p, Left, 1);
    points := PieLeft(m, p, slave.points, points);
    MessageDone(ms + If(far, ToOrigin()), slave, ToLeft(m, p), mype - 1, points);
    slave := WithMessage(slave, mype - 1, points);
  }

  lemma WithPoints(pl: Plan, pe: nat, points: seq<nat>)
    requires |pl.points| <= |points|
    ensures WithMessage(pl, pe, points).points == points
  {
  }

  /** The origin, to each of the processes 2 to numpex - 1. */
  method PieRays(m: Mesh, ghost first: seq<Message>, was: Plan) returns (master: Plan)
    requires was == PlanOf(first) && m.numpex >= 2
    ensures master == PlanOf(first + Rays(m.numpex))
  {
    hide *;
    master := was;
    RaysNext(2);
    assert first + [] == first;
    for slvpe := 2 to m.numpex
      invariant master == PlanOf(first + Rays(slvpe))
    {
      ghost var done, x := first + Rays(slvpe), Message(slvpe, [0]);
      MessageDone(done, master, x, slvpe, master.points + [0]);
      master := WithMessage(master, slvpe, master.points + [0]);
      RaysNext(slvpe);
      assert first + Rays(slvpe) + [x] == first + (Rays(slvpe) + [x]);
    }
  }

  /** The messages to the right, and those of the holder of the origin to further rays. */
  method PieRightMessages(m: Mesh, p: Part, mype: nat) returns (master: Plan)
    requires ValidPart(m, p) && m.kind == Pie && p.mx + 1 < m.numpex && mype == Rank(m, p.mx, p.my)
    ensures master == PlanOf([ToRight(m, p)] + if HoldsOrigin(m, p) then Rays(m.numpex) else [])
  {
    hide *;
    MasterMessages(m, p, mype);
    PieRowZero(m, p);
    RayMeans(m, p);
    PlanNone();
    master := Plan([], [], []);
    var points: seq<nat> := [];
    if p.mx == 0 && p.my == 0 {
      points := points + [0];
    }
    assert points == [] + Run(m, p, Right, 1);
    points := PieRight(m, p, [], points);
    assert [] + Run(m, p, Right, p.nzy + 1) == Run(m, p, Right, p.nzy + 1);
    MessageDone([], master, ToRight(m, p), mype + 1, points);
    master := WithMessage(master, mype + 1, points);
    assert [] + [ToRight(m, p)] == [ToRight(m, p)] == [ToRight(m, p)] + [];
    if p.mx == 0 && p.my == 0 {
      master := PieRays(m, [ToRight(m, p)], master);
    }
  }

  lemma RaysNext(n: nat)
    requires n >= 2
    ensures Rays(2) == [] && Rays(n + 1) == Rays(n) + [Message(n, [0])]
  {
  }

  function RightMsgs(m: Mesh, p: Part): seq<Message> {
    if p.mx + 1 < m.numpex then [ToRight(m, p)] + if HoldsOrigin(m, p) then Rays(m.numpex) else [] else []
  }

  lemma PieMasterOrder(m: Mesh, p: Part)
    requires ValidPart(m, p)
    ensures MasterMsgs(m, p) ==
            RightMsgs(m, p) + If(p.my + 1 < m.numpey, Over(m, p))
            + If(p.mx + 1 < m.numpex && p.my + 1 < m.numpey, UpperRight(m, p))
  {
    hide ToRight, Over, UpperRight;
    if !(p.mx + 1 < m.numpex) && HoldsOrigin(m, p) {
      assert Rays(m.numpex) == [];
    }
  }

  /** The lists of a pie's masters. */
  method PieMasters(m: Mesh, p: Part) returns (master: Plan)
    requires ValidMesh(m) && ValidPart(m, p) && m.kind == Pie
    ensures master == PlanOf(MasterMsgs(m, p))
  {
    var mype := Rank(m, p.mx, p.my);
    PieMasterOrder(m, p);
    hide *;
    master := PieToRight(m, p, mype);
    master := PieOver(m, p, RightMsgs(m, p), master, mype);
    master := PieUpperRight(m, p, RightMsgs(m, p) + If(p.my + 1 < m.numpey, Over(m, p)), master, mype);
  }

  method PieToRight(m: Mesh, p: Part, mype: nat) returns (master: Plan)
    requires ValidPart(m, p) && m.kind == Pie && mype == Rank(m, p.mx, p.my)
    ensures master == PlanOf(RightMsgs(m, p))
  {
    hide *;
    PlanNone();
    PartInside(m, p);
    RightMsgsAre(m, p);
    master := Plan([], [], []);
    if p.mx != m.numpex - 1 {
      master := PieRightMessages(m, p, mype);
    }
  }

  lemma RightMsgsAre(m: Mesh, p: Part)
    ensures p.mx + 1 < m.numpex ==>
              RightMsgs(m, p) == [ToRight(m, p)] + if HoldsOrigin(m, p) then Rays(m.numpex) else []
    ensures p.mx + 1 >= m.numpex ==> RightMsgs(m, p) == []
  {
    hide ToRight, HoldsOrigin;
  }

  /** The number of the first point in the top row. */
  method PieTopFirst(m: Mesh, p: Part) returns (q: nat)
    requires ValidPart(m, p) && m.kind == Pie
    ensures q == At(m, p, 0, p.nzy) && SingleRow(m, p, p.nzy)
  {
    hide *;
    PieCornerRuns(m, p);
    var npx, npy := p.nzx + 1, p.nzy + 1;
    var k := Times(npy - 1, npx);
    if p.my == 0 {
      k := k - (npx - 1);
    }
    q := k;
  }

  /** The number of the last point. */
  method PieTopLast(m: Mesh, p: Part) returns (q: nat)
    requires ValidPart(m, p) && m.kind == Pie
    ensures SiteRun(m, p, p.nzx, p.nzy) == [q]
  {
    hide *;
    PieCornerRuns(m, p);
    var npx, npy := p.nzx + 1, p.nzy + 1;
    var k: int := Times(npy, npx) - 1;
    if p.my == 0 {
      k := k - (npx - 1);
    }
    assert SiteRun(m, p, p.nzx, p.nzy)[0] == k;
    q := k;
  }

  method PieOver(m: Mesh, p: Part, ghost ms: seq<Message>, was: Plan, mype: nat) returns (master: Plan)
    requires ValidPart(m, p) && m.kind == Pie && mype == Rank(m, p.mx, p.my) && was == PlanOf(ms)
    ensures master == PlanOf(ms + If(p.my + 1 < m.numpey, Over(m, p)))
  {
    hide *;
    MasterMessages(m, p, mype);
    PartInside(m, p);
    master := was;
    if p.my != m.numpey - 1 {
      var q := PieTopFirst(m, p);
      var points := SingleAbove(m, p, master.points, q);
      master := WithMessage(master, mype + m.numpex, points);
    }
    MaybeMessage(p.my + 1 < m.numpey, ms, was, Over(m, p), mype + m.numpex, was.points + Over(m, p).points);
  }

  method PieUpperRight(m: Mesh, p: Part, ghost ms: seq<Message>, was: Plan, mype: nat) returns (master: Plan)
    requires ValidPart(m, p) && m.kind == Pie && mype == Rank(m, p.mx, p.my) && was == PlanOf(ms)
    ensures master == PlanOf(ms + If(p.mx + 1 < m.numpex && p.my + 1 < m.numpey, UpperRight(m, p)))
  {
    hide *;
    MasterMessages(m, p, mype);
    PartInside(m, p);
    master := was;
    if p.mx != m.numpex - 1 && p.my != m.numpey - 1 {
      var q := PieTopLast(m, p);
      master := WithMessage(master, mype + m.numpex + 1, master.points + [q]);
    }
    MaybeMessage(p.mx + 1 < m.numpex && p.my + 1 < m.numpey, ms, was, UpperRight(m, p), mype + m.numpex + 1,
                 was.points + UpperRight(m, p).points);
  }

  method GeneratePie(m: Mesh, p: Part) returns (pointpos: seq<Key>, zl: ZoneLists, slave: Plan, master: Plan)
    requires ValidMesh(m) && ValidPart(m, p) && m.kind == Pie
    ensures Pe(slave, master, pointpos) == PeAt(m, p) && ListsZones(pointpos, zl, ZoneRows(m, p, p.nzy))
  {
    pointpos := PiePoints(m, p);
    zl := PieZones(m, p);
    if m.numpex * m.numpey == 1 {
      AloneSendsNothing(m, p);
      return pointpos, zl, Plan([], [], []), Plan([], [], []);
    }
    slave := PieSlaves(m, p);
    master := PieMasters(m, p);
  }
}
