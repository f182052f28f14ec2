/** All processes of a generated mesh together: the lists they make independently match,
    and every point of the mesh has one owner. */
module MeshWorld {
  import opened PointExchange
  import Triples
  import opened ZoneSplit
  import opened MessageLists
  import opened MeshPoints
  import opened MeshMessages
  import opened MeshLists
  import opened MeshMatch

  predicate OnGrid(m: Mesh, mx: nat, my: nat) {
    mx < m.numpex && my < m.numpey
  }

  function NumPe(m: Mesh): nat {
    m.numpey * m.numpex
  }

  /** mypex and mypey from mype. */
  function XOf(m: Mesh, a: nat): nat
    requires m.numpex >= 1
  {
    a % m.numpex
  }

  function YOf(m: Mesh, a: nat): nat
    requires m.numpex >= 1
  {
    a / m.numpex
  }

  lemma MulGrows(a: nat, b: nat, n: nat)
    requires a <= b
    ensures a * n <= b * n
  {
  }

  lemma RankInside(m: Mesh, mx: nat, my: nat)
    requires ValidMesh(m) && OnGrid(m, mx, my)
    ensures Rank(m, mx, my) < NumPe(m) && XOf(m, Rank(m, mx, my)) == mx && YOf(m, Rank(m, mx, my)) == my
  {
    MulGrows(my + 1, m.numpey, m.numpex);
    assert (my + 1) * m.numpex == my * m.numpex + m.numpex;
    Triples.DivModUnique(my, mx, m.numpex);
  }

  lemma IndexOnGrid(m: Mesh, a: nat)
    requires ValidMesh(m) && a < NumPe(m)
    ensures OnGrid(m, XOf(m, a), YOf(m, a)) && Rank(m, XOf(m, a), YOf(m, a)) == a
  {
    var q, r := a / m.numpex, a % m.numpex;
    assert a == q * m.numpex + r;
    if q >= m.numpey {
      MulGrows(m.numpey, q, m.numpex);
    }
  }

  /** The process at each rank. */
  function World(m: Mesh): (w: seq<Pe>)
    requires ValidMesh(m)
    ensures |w| == NumPe(m)
    ensures forall a :: 0 <= a < |w| ==> w[a] == PeAt(m, PartOf(m, XOf(m, a), YOf(m, a)))
  {
    seq(NumPe(m), a requires 0 <= a => PeAt(m, PartOf(m, XOf(m, a), YOf(m, a))))
  }

  lemma WorldAt(m: Mesh, mx: nat, my: nat)
    requires ValidMesh(m) && OnGrid(m, mx, my)
    ensures Rank(m, mx, my) < |World(m)| && World(m)[Rank(m, mx, my)] == PeAt(m, PartOf(m, mx, my))
  {
    RankInside(m, mx, my);
    hide PeAt, PartOf, Rank, XOf, YOf, NumPe;
  }

  // ----- a message has its counterpart

  /** The process at (kx, ky) sends as slave the points that the one at (mx, my) receives
      as master in message x. */
  ghost predicate Pair(m: Mesh, mx: nat, my: nat, x: Message, kx: nat, ky: nat, y: Message)
    requires ValidMesh(m)
  {
    && OnGrid(m, mx, my) && OnGrid(m, kx, ky) && Rank(m, mx, my) != Rank(m, kx, ky)
    && x in MasterMsgs(m, PartOf(m, mx, my)) && y in SlaveMsgs(m, PartOf(m, kx, ky))
    && x.pe == Rank(m, kx, ky) && y.pe == Rank(m, mx, my)
    && SameKeys(m, PartOf(m, mx, my), x, PartOf(m, kx, ky), y)
  }

  ghost predicate SameKeys(m: Mesh, p: Part, x: Message, q: Part, y: Message) {
    exists ks :: Carries(Keys(m, p), x.points, ks) && Carries(Keys(m, q), y.points, ks)
  }

  lemma BothCarry(m: Mesh, p: Part, x: Message, q: Part, y: Message, ks: seq<Key>)
    requires Carries(Keys(m, p), x.points, ks) && Carries(Keys(m, q), y.points, ks)
    ensures SameKeys(m, p, x, q, y)
  {
  }

  lemma SlaveHas(m: Mesh, p: Part)
    ensures p.mx > 0 && p.my > 0 ==> LowerLeft(m, p) in SlaveMsgs(m, p)
    ensures p.my > 0 ==> Under(m, p) in SlaveMsgs(m, p)
    ensures FarRay(m, p) ==> ToOrigin() in SlaveMsgs(m, p)
    ensures p.mx > 0 ==> ToLeft(m, p) in SlaveMsgs(m, p)
  {
    hide Rank, Run, SiteRun, FarRay;
  }

  lemma SlaveHasOnly(m: Mesh, p: Part, y: Message)
    requires y in SlaveMsgs(m, p)
    ensures (p.mx > 0 && p.my > 0 && y == LowerLeft(m, p)) || (p.my > 0 && y == Under(m, p))
            || (FarRay(m, p) && y == ToOrigin()) || (p.mx > 0 && y == ToLeft(m, p))
  {
    hide Rank, Run, SiteRun, FarRay;
  }

  lemma MasterHas(m: Mesh, p: Part)
    ensures p.mx + 1 < m.numpex ==> ToRight(m, p) in MasterMsgs(m, p)
    ensures p.my + 1 < m.numpey ==> Over(m, p) in MasterMsgs(m, p)
    ensures p.mx + 1 < m.numpex && p.my + 1 < m.numpey ==> UpperRight(m, p) in MasterMsgs(m, p)
  {
    hide Rank, Run, SiteRun, HoldsOrigin;
    var msgs := MasterMsgs(m, p);
    var a, b := If(p.mx + 1 < m.numpex, ToRight(m, p)), if HoldsOrigin(m, p) then Rays(m.numpex) else [];
    var c, d := If(p.my + 1 < m.numpey, Over(m, p)), If(p.mx + 1 < m.numpex && p.my + 1 < m.numpey, UpperRight(m, p));
    assert msgs == (a + b) + (c + d);
  }

  lemma MasterHasRay(m: Mesh, p: Part, k: nat)
    requires HoldsOrigin(m, p) && 2 <= k < m.numpex
    ensures Message(k, [0]) in MasterMsgs(m, p)
  {
    hide Rank, Run, SiteRun, HoldsOrigin;
    assert Rays(m.numpex)[k - 2] == Message(k, [0]);
    assert Message(k, [0]) in Rays(m.numpex);
    var a, b := If(p.mx + 1 < m.numpex, ToRight(m, p)), Rays(m.numpex);
    var c, d := If(p.my + 1 < m.numpey, Over(m, p)), If(p.mx + 1 < m.numpex && p.my + 1 < m.numpey, UpperRight(m, p));
    assert MasterMsgs(m, p) == (a + b) + (c + d);
  }

  lemma MasterHasOnly(m: Mesh, p: Part, x: Message)
    requires x in MasterMsgs(m, p)
    ensures (p.mx + 1 < m.numpex && x == ToRight(m, p)) || (p.my + 1 < m.numpey && x == Over(m, p))
            || (p.mx + 1 < m.numpex && p.my + 1 < m.numpey && x == UpperRight(m, p))
            || (HoldsOrigin(m, p) && 2 <= x.pe < m.numpex && x.points == [0])
  {
    hide Rank, Run, SiteRun, HoldsOrigin;
    if HoldsOrigin(m, p) && x in Rays(m.numpex) {
      var k :| 0 <= k < |Rays(m.numpex)| && Rays(m.numpex)[k] == x;
    }
  }

  lemma PartIs(m: Mesh, mx: nat, my: nat)
    requires ValidMesh(m)
    ensures PartOf(m, mx, my).mx == mx && PartOf(m, mx, my).my == my
  {
  }

  /** A pair from its parts. */
  lemma PairBy(m: Mesh, mx: nat, my: nat, x: Message, kx: nat, ky: nat, y: Message, ks: seq<Key>)
    requires ValidMesh(m) && OnGrid(m, mx, my) && OnGrid(m, kx, ky) && Rank(m, mx, my) != Rank(m, kx, ky)
    requires x in MasterMsgs(m, PartOf(m, mx, my)) && y in SlaveMsgs(m, PartOf(m, kx, ky))
    requires x.pe == Rank(m, kx, ky) && y.pe == Rank(m, mx, my)
    requires Carries(Keys(m, PartOf(m, mx, my)), x.points, ks) && Carries(Keys(m, PartOf(m, kx, ky)), y.points, ks)
    ensures Pair(m, mx, my, x, kx, ky, y)
  {
    hide PartOf, Rank, Keys, MasterMsgs, SlaveMsgs, Carries;
  }

  lemma RightIs(m: Mesh, p: Part)
    ensures ToRight(m, p) == Message(Rank(m, p.mx + 1, p.my), Run(m, p, Right, Hi(p, Right)))
    ensures Over(m, p) == Message(Rank(m, p.mx, p.my + 1), Run(m, p, Above, Hi(p, Above)))
    ensures UpperRight(m, p) == Message(Rank(m, p.mx + 1, p.my + 1), SiteRun(m, p, p.nzx, p.nzy))
  {
    hide Rank, Run, SiteRun;
  }

  lemma LeftIs(m: Mesh, q: Part)
    ensures q.mx > 0 ==> ToLeft(m, q) == Message(Rank(m, q.mx - 1, q.my), Run(m, q, Left, Hi(q, Left)))
    ensures q.my > 0 ==> Under(m, q) == Message(Rank(m, q.mx, q.my - 1), Run(m, q, Below, Hi(q, Below)))
    ensures q.mx > 0 && q.my > 0 ==> LowerLeft(m, q) == Message(Rank(m, q.mx - 1, q.my - 1), SiteRun(m, q, 0, 0))
  {
    hide Rank, Run, SiteRun;
  }

  lemma GridIs(m: Mesh, mx: nat, my: nat)
    ensures OnGrid(m, mx, my) <==> mx < m.numpex && my < m.numpey
  {
  }

  lemma NextParts(m: Mesh, mx: nat, my: nat)
    requires ValidMesh(m)
    ensures Next(m, PartOf(m, mx, my), Right) == PartOf(m, mx + 1, my)
    ensures Next(m, PartOf(m, mx, my), Above) == PartOf(m, mx, my + 1)
    ensures Hi(PartOf(m, mx, my), Right) == Hi(PartOf(m, mx + 1, my), Left)
    ensures Hi(PartOf(m, mx, my), Above) == Hi(PartOf(m, mx, my + 1), Below)
  {
    hide Start, Zones;
  }

  lemma RightMessages(m: Mesh, mx: nat, my: nat, p: Part, q: Part)
    requires ValidMesh(m) && OnGrid(m, mx, my) && mx + 1 < m.numpex
    requires p == PartOf(m, mx, my) && q == PartOf(m, mx + 1, my)
    ensures OnGrid(m, mx + 1, my) && Rank(m, mx + 1, my) == Rank(m, mx, my) + 1 && q.mx > 0
    ensures ToRight(m, p) == Message(Rank(m, mx + 1, my), Run(m, p, Right, Hi(p, Right)))
    ensures ToRight(m, p) in MasterMsgs(m, p)
    ensures ToLeft(m, q) == Message(Rank(m, mx, my), Run(m, q, Left, Hi(p, Right))) && ToLeft(m, q) in SlaveMsgs(m, q)
    ensures Next(m, p, Right) == q && Hi(q, Left) == Hi(p, Right)
  {
    hide *;
    GridIs(m, mx, my);
    GridIs(m, mx + 1, my);
    PartIs(m, mx, my);
    PartIs(m, mx + 1, my);
    RankSteps(m, mx, my);
    NextParts(m, mx, my);
    RightIs(m, p);
    LeftIs(m, q);
    MasterHas(m, p);
    SlaveHas(m, q);
  }

  /** Left and right. */
  lemma PairRight(m: Mesh, mx: nat, my: nat)
    requires ValidMesh(m) && OnGrid(m, mx, my) && mx + 1 < m.numpex
    ensures PartOf(m, mx + 1, my).mx > 0
    ensures Pair(m, mx, my, ToRight(m, PartOf(m, mx, my)), mx + 1, my, ToLeft(m, PartOf(m, mx + 1, my)))
  {
    var p, q := PartOf(m, mx, my), PartOf(m, mx + 1, my);
    assert Facing(Right) == Left;
    RightMessages(m, mx, my, p, q);
    GridMeans(m, mx, my);
    hide *;
    RunsMatch(m, mx, my, Right, Hi(p, Right));
    RunCarries(m, p, Right, Hi(p, Right));
    RunCarries(m, q, Left, Hi(p, Right));
    PairBy(m, mx, my, ToRight(m, p), mx + 1, my, ToLeft(m, q), RunKeys(m, p, Right, Hi(p, Right)));
  }

  lemma GridMeans(m: Mesh, mx: nat, my: nat)
    requires OnGrid(m, mx, my)
    ensures mx < m.numpex && my < m.numpey
  {
  }

  lemma OverMessages(m: Mesh, mx: nat, my: nat, p: Part, q: Part)
    requires ValidMesh(m) && OnGrid(m, mx, my) && my + 1 < m.numpey
    requires p == PartOf(m, mx, my) && q == PartOf(m, mx, my + 1)
    ensures OnGrid(m, mx, my + 1) && Rank(m, mx, my + 1) == Rank(m, mx, my) + m.numpex && q.my > 0 && m.numpex > 0
    ensures Over(m, p) == Message(Rank(m, mx, my + 1), Run(m, p, Above, Hi(p, Above))) && Over(m, p) in MasterMsgs(m, p)
    ensures Under(m, q) == Message(Rank(m, mx, my), Run(m, q, Below, Hi(p, Above))) && Under(m, q) in SlaveMsgs(m, q)
    ensures Next(m, p, Above) == q && Hi(q, Below) == Hi(p, Above)
  {
    hide *;
    GridIs(m, mx, my);
    GridIs(m, mx, my + 1);
    PartIs(m, mx, my);
    PartIs(m, mx, my + 1);
    RankSteps(m, mx, my);
    NextParts(m, mx, my);
    RightIs(m, p);
    LeftIs(m, q);
    MasterHas(m, p);
    SlaveHas(m, q);
  }

  /** Above and below. */
  lemma PairOver(m: Mesh, mx: nat, my: nat)
    requires ValidMesh(m) && OnGrid(m, mx, my) && my + 1 < m.numpey
    ensures PartOf(m, mx, my + 1).my > 0
    ensures Pair(m, mx, my, Over(m, PartOf(m, mx, my)), mx, my + 1, Under(m, PartOf(m, mx, my + 1)))
  {
    var p, q := PartOf(m, mx, my), PartOf(m, mx, my + 1);
    assert Facing(Above) == Below;
    OverMessages(m, mx, my, p, q);
    GridMeans(m, mx, my);
    hide *;
    RunsMatch(m, mx, my, Above, Hi(p, Above));
    RunCarries(m, p, Above, Hi(p, Above));
    RunCarries(m, q, Below, Hi(p, Above));
    PairBy(m, mx, my, Over(m, p), mx, my + 1, Under(m, q), RunKeys(m, p, Above, Hi(p, Above)));
  }

  lemma SiteRunCarries(m: Mesh, p: Part, i: nat, j: nat)
    requires i <= p.nzx && j <= p.nzy
    ensures Carries(Keys(m, p), SiteRun(m, p, i, j), SiteKeys(m, p, i, j))
  {
    hide Keys, At, Ws, Carries, SiteKeys;
    SiteCarries(m, p, i, j, 0, |Ws(m, p, i, j)|);
    assert SiteKeys(m, p, i, j)[0..0 + |Ws(m, p, i, j)|] == SiteKeys(m, p, i, j);
  }

  lemma CornerMessages(m: Mesh, mx: nat, my: nat, p: Part, q: Part)
    requires ValidMesh(m) && OnGrid(m, mx, my) && mx + 1 < m.numpex && my + 1 < m.numpey
    requires p == PartOf(m, mx, my) && q == PartOf(m, mx + 1, my + 1)
    ensures OnGrid(m, mx + 1, my + 1) && Rank(m, mx + 1, my + 1) == Rank(m, mx, my) + m.numpex + 1 && q.mx > 0
    ensures q.my > 0
    ensures UpperRight(m, p) == Message(Rank(m, mx + 1, my + 1), SiteRun(m, p, p.nzx, p.nzy))
    ensures UpperRight(m, p) in MasterMsgs(m, p)
    ensures LowerLeft(m, q) == Message(Rank(m, mx, my), SiteRun(m, q, 0, 0)) && LowerLeft(m, q) in SlaveMsgs(m, q)
  {
    hide *;
    GridIs(m, mx, my);
    GridIs(m, mx + 1, my + 1);
    PartIs(m, mx, my);
    PartIs(m, mx + 1, my + 1);
    RankSteps(m, mx, my);
    RightIs(m, p);
    LeftIs(m, q);
    MasterHas(m, p);
    SlaveHas(m, q);
  }

  lemma CornerKeys(m: Mesh, mx: nat, my: nat, p: Part, q: Part)
    requires ValidMesh(m) && OnGrid(m, mx, my) && mx + 1 < m.numpex && my + 1 < m.numpey
    requires p == PartOf(m, mx, my) && q == PartOf(m, mx + 1, my + 1)
    ensures SiteKeys(m, p, p.nzx, p.nzy) == SiteKeys(m, q, 0, 0)
  {
    PartIs(m, mx, my);
    PartIs(m, mx + 1, my + 1);
    PartFacts(m, mx, my);
    PartFacts(m, mx + 1, my + 1);
    PartsAbut(m, mx, my);
    assert q.zx == p.zx + p.nzx && q.zy == p.zy + p.nzy;
    hide *;
    CornersMatch(m, p, q);
  }

  /** Lower left and upper right. */
  lemma PairCorner(m: Mesh, mx: nat, my: nat)
    requires ValidMesh(m) && OnGrid(m, mx, my) && mx + 1 < m.numpex && my + 1 < m.numpey
    ensures PartOf(m, mx + 1, my + 1).mx > 0 && PartOf(m, mx + 1, my + 1).my > 0
    ensures Pair(m, mx, my, UpperRight(m, PartOf(m, mx, my)), mx + 1, my + 1, LowerLeft(m, PartOf(m, mx + 1, my + 1)))
  {
    hide *;
    var p, q := PartOf(m, mx, my), PartOf(m, mx + 1, my + 1);
    CornerMessages(m, mx, my, p, q);
    CornerKeys(m, mx, my, p, q);
    SiteRunCarries(m, p, p.nzx, p.nzy);
    SiteRunCarries(m, q, 0, 0);
    PairBy(m, mx, my, UpperRight(m, p), mx + 1, my + 1, LowerLeft(m, q), SiteKeys(m, q, 0, 0));
  }

  /** The origin of a pie and its further rays. */
  lemma PairRay(m: Mesh, k: nat)
    requires ValidMesh(m) && m.kind == Pie && 2 <= k < m.numpex
    ensures Pair(m, 0, 0, Message(k, [0]), k, 0, ToOrigin())
  {
    var p, q := PartOf(m, 0, 0), PartOf(m, k, 0);
    PartIs(m, 0, 0);
    PartIs(m, k, 0);
    PartFacts(m, 0, 0);
    PartFacts(m, k, 0);
    RankSteps(m, 0, 0);
    RankSteps(m, k, 0);
    hide PartOf, Rank, Keys, MasterMsgs, SlaveMsgs, Carries, SameKeys;
    OriginCarries(m, p);
    OriginCarries(m, q);
    BothCarry(m, p, Message(k, [0]), q, ToOrigin(), [Key(0, 0, 0)]);
    MasterHasRay(m, p, k);
    SlaveHas(m, q);
  }

  lemma OriginMessage()
    ensures ToOrigin() == Message(0, [0])
  {
  }

  lemma OriginMeans(m: Mesh, p: Part)
    ensures HoldsOrigin(m, p) ==> m.kind == Pie && p.mx == 0 && p.my == 0
  {
  }

  lemma FarRayMeans(m: Mesh, p: Part)
    ensures FarRay(m, p) ==> m.kind == Pie && p.my == 0 && p.mx > 1
  {
  }

  lemma MasterCounterpart(m: Mesh, mx: nat, my: nat, x: Message) returns (kx: nat, ky: nat, y: Message)
    requires ValidMesh(m) && OnGrid(m, mx, my) && x in MasterMsgs(m, PartOf(m, mx, my))
    ensures Pair(m, mx, my, x, kx, ky, y)
  {
    var p := PartOf(m, mx, my);
    PartIs(m, mx, my);
    GridIs(m, mx, my);
    OriginMeans(m, p);
    hide *;
    MasterHasOnly(m, p, x);
    if p.mx + 1 < m.numpex && x == ToRight(m, p) {
      kx, ky := mx + 1, my;
      PartIs(m, kx, ky);
      y := ToLeft(m, PartOf(m, kx, ky));
      PairRight(m, mx, my);
    } else if p.my + 1 < m.numpey && x == Over(m, p) {
      kx, ky := mx, my + 1;
      PartIs(m, kx, ky);
      y := Under(m, PartOf(m, kx, ky));
      PairOver(m, mx, my);
    } else if p.mx + 1 < m.numpex && p.my + 1 < m.numpey && x == UpperRight(m, p) {
      kx, ky := mx + 1, my + 1;
      PartIs(m, kx, ky);
      y := LowerLeft(m, PartOf(m, kx, ky));
      PairCorner(m, mx, my);
    } else {
      kx, ky, y := x.pe, 0, Message(0, [0]);
      OriginMessage();
      PairRay(m, x.pe);
    }
  }

  lemma SlaveCounterpart(m: Mesh, kx: nat, ky: nat, y: Message) returns (mx: nat, my: nat, x: Message)
    requires ValidMesh(m) && OnGrid(m, kx, ky) && y in SlaveMsgs(m, PartOf(m, kx, ky))
    ensures Pair(m, mx, my, x, kx, ky, y)
  {
    var q := PartOf(m, kx, ky);
    PartIs(m, kx, ky);
    GridIs(m, kx, ky);
    FarRayMeans(m, q);
    hide *;
    SlaveHasOnly(m, q, y);
    if q.mx > 0 && q.my > 0 && y == LowerLeft(m, q) {
      mx, my := kx - 1, ky - 1;
      GridIs(m, mx, my);
      x := UpperRight(m, PartOf(m, mx, my));
      PairCorner(m, mx, my);
    } else if q.my > 0 && y == Under(m, q) {
      mx, my := kx, ky - 1;
      GridIs(m, mx, my);
      x := Over(m, PartOf(m, mx, my));
      PairOver(m, mx, my);
    } else if FarRay(m, q) && y == ToOrigin() {
      mx, my, x := 0, 0, Message(kx, [0]);
      PairRay(m, kx);
    } else {
      mx, my := kx - 1, ky;
      GridIs(m, mx, my);
      x := ToRight(m, PartOf(m, mx, my));
      PairRight(m, mx, my);
    }
  }

  // ----- the lists match

  lemma MsgIndex(ms: seq<Message>, x: Message) returns (i: nat)
    requires x in ms
    ensures i < |ms| == |PlanOf(ms).pes| == |PlanOf(ms).counts| && ms[i] == x
    ensures PlanOf(ms).pes[i] == x.pe && PlanOf(ms).counts[i] == |x.points|
  {
    PlanHas(ms);
    hide PlanOf, Offset;
    i :| i < |ms| && ms[i] == x;
    assert InPlace(ms, PlanOf(ms), i);
  }

  lemma PairLinks(m: Mesh, mx: nat, my: nat, x: Message, kx: nat, ky: nat, y: Message, j: nat, i: nat)
    requires ValidMesh(m) && Pair(m, mx, my, x, kx, ky, y)
    requires j < |MasterMsgs(m, PartOf(m, mx, my))| && MasterMsgs(m, PartOf(m, mx, my))[j] == x
    requires i < |SlaveMsgs(m, PartOf(m, kx, ky))| && SlaveMsgs(m, PartOf(m, kx, ky))[i] == y
    ensures Linked(World(m), Rank(m, mx, my), j, Rank(m, kx, ky), i)
  {
    var p, q := PartOf(m, mx, my), PartOf(m, kx, ky);
    var w, a, b := World(m), Rank(m, mx, my), Rank(m, kx, ky);
    WorldAt(m, mx, my);
    WorldAt(m, kx, ky);
    var xs, ys := MasterMsgs(m, p), SlaveMsgs(m, q);
    PlanHas(xs);
    PlanHas(ys);
    PairSameKeys(m, mx, my, x, kx, ky, y);
    hide PartOf, Rank, Keys, PlanOf, Offset, MasterMsgs, SlaveMsgs, World, SameKeys, Pair, SamePoint;
    PairRanks(m, mx, my, x, kx, ky, y);
    assert InPlace(xs, PlanOf(xs), j) && InPlace(ys, PlanOf(ys), i);
    forall t | 0 <= t < w[a].master.counts[j]
      ensures SamePoint(w, a, j, b, i, t)
    {
      EntrySame(m, p, q, w, a, j, b, i, t, xs, ys);
    }
  }

  lemma PairRanks(m: Mesh, mx: nat, my: nat, x: Message, kx: nat, ky: nat, y: Message)
    requires ValidMesh(m) && Pair(m, mx, my, x, kx, ky, y)
    ensures Rank(m, mx, my) != Rank(m, kx, ky) && x.pe == Rank(m, kx, ky) && y.pe == Rank(m, mx, my)
    ensures |x.points| == |y.points|
  {
    hide Rank, PartOf, MasterMsgs, SlaveMsgs, Keys;
  }

  lemma PairSameKeys(m: Mesh, mx: nat, my: nat, x: Message, kx: nat, ky: nat, y: Message)
    requires ValidMesh(m) && Pair(m, mx, my, x, kx, ky, y)
    ensures SameKeys(m, PartOf(m, mx, my), x, PartOf(m, kx, ky), y)
  {
    hide Rank, PartOf, MasterMsgs, SlaveMsgs, Keys, SameKeys;
  }

  lemma EntrySame(m: Mesh, p: Part, q: Part, w: seq<Pe>, a: nat, j: nat, b: nat, i: nat, t: nat, xs: seq<Message>,
                  ys: seq<Message>)
    requires a < |w| && b < |w| && w[a].master == PlanOf(xs) && w[b].slave == PlanOf(ys)
    requires w[a].keys == Keys(m, p) && w[b].keys == Keys(m, q)
    requires j < |xs| && i < |ys| && j < |PlanOf(xs).counts| && i < |PlanOf(ys).counts| && t < |xs[j].points|
    requires SameKeys(m, p, xs[j], q, ys[i])
    ensures SamePoint(w, a, j, b, i, t)
  {
    var ks :| Carries(Keys(m, p), xs[j].points, ks) && Carries(Keys(m, q), ys[i].points, ks);
    hide Keys, PlanOf, Offset;
    MessageEntry(xs, j, t);
    MessageEntry(ys, i, t);
  }

  lemma WorldPe(m: Mesh, a: nat) returns (p: Part)
    requires ValidMesh(m) && a < |World(m)|
    ensures OnGrid(m, XOf(m, a), YOf(m, a)) && Rank(m, XOf(m, a), YOf(m, a)) == a
    ensures p == PartOf(m, XOf(m, a), YOf(m, a)) && ValidPart(m, p) && World(m)[a] == PeAt(m, p)
  {
    hide PeAt, PartOf, Rank, XOf, YOf;
    IndexOnGrid(m, a);
    p := PartOf(m, XOf(m, a), YOf(m, a));
    PartFacts(m, XOf(m, a), YOf(m, a));
  }

  lemma WorldMasters(m: Mesh, a: nat, j: nat)
    requires ValidMesh(m) && a < |World(m)| && j < |World(m)[a].master.pes|
    ensures MessageHasSender(World(m), a, j)
  {
    var w, mx, my := World(m), XOf(m, a), YOf(m, a);
    var p := WorldPe(m, a);
    var xs := MasterMsgs(m, p);
    PlanHas(xs);
    hide PartOf, Rank, Keys, PlanOf, Offset, MasterMsgs, SlaveMsgs, World, XOf, YOf, Linked, SameKeys;
    assert InPlace(xs, PlanOf(xs), j);
    var kx, ky, y := MasterCounterpart(m, mx, my, xs[j]);
    var i := MsgIndex(SlaveMsgs(m, PartOf(m, kx, ky)), y);
    PairLinks(m, mx, my, xs[j], kx, ky, y, j, i);
    assert Linked(w, a, j, w[a].master.pes[j], i);
  }

  lemma WorldSlaves(m: Mesh, b: nat, i: nat)
    requires ValidMesh(m) && b < |World(m)| && i < |World(m)[b].slave.pes|
    ensures MessageHasReceiver(World(m), b, i)
  {
    var w, kx, ky := World(m), XOf(m, b), YOf(m, b);
    var q := WorldPe(m, b);
    var ys := SlaveMsgs(m, q);
    PlanHas(ys);
    hide PartOf, Rank, Keys, PlanOf, Offset, MasterMsgs, SlaveMsgs, World, XOf, YOf, Linked, SameKeys;
    assert InPlace(ys, PlanOf(ys), i);
    var mx, my, x := SlaveCounterpart(m, kx, ky, ys[i]);
    var j := MsgIndex(MasterMsgs(m, PartOf(m, mx, my)), x);
    PairLinks(m, mx, my, x, kx, ky, ys[i], j, i);
    assert Linked(w, w[b].slave.pes[i], j, b, i);
  }

  /** A copy that is not a slave is at a site of its own. */
  lemma OwnSite(m: Mesh, mx: nat, my: nat, p: Part, q: nat) returns (i: nat, j: nat, t: nat)
    requires ValidMesh(m) && OnGrid(m, mx, my) && p == PartOf(m, mx, my)
    requires q < |Keys(m, p)| && q !in AllPoints(SlaveMsgs(m, p))
    ensures i <= p.nzx && j <= p.nzy && t < |Ws(m, p, i, j)| && q == At(m, p, i, j) + t
    ensures Owns(mx, m.gnzx, m.numpex, i) && Owns(my, m.gnzy, m.numpey, j)
    ensures Keys(m, p)[q] == KeyOf(m, p.zx + i, p.zy + j, Ws(m, p, i, j)[t])
    ensures p.zx == Start(mx, m.gnzx, m.numpex) && p.zy == Start(my, m.gnzy, m.numpey) && ValidPart(m, p)
  {
    PartFacts(m, mx, my);
    hide Keys, At, AllPoints, SlaveMsgs, KeyOf, Start;
    i, j, t := FindSite(m, p, q);
    PointAt(m, p, i, j, t);
    if SlaveSite(p, i, j) {
      assert IsAt(m, p, i, j, q);
      SlaveIsListed(m, p, i, j, q);
    }
  }

  /** Two own copies of one point are the same copy. */
  lemma OneOwnSite(m: Mesh, mx: nat, my: nat, q: nat, kx: nat, ky: nat, r: nat)
    requires ValidMesh(m) && OnGrid(m, mx, my) && OnGrid(m, kx, ky)
    requires var p := PartOf(m, mx, my); q < |Keys(m, p)| && q !in AllPoints(SlaveMsgs(m, p))
    requires var o := PartOf(m, kx, ky); r < |Keys(m, o)| && r !in AllPoints(SlaveMsgs(m, o))
    requires Keys(m, PartOf(m, mx, my))[q] == Keys(m, PartOf(m, kx, ky))[r]
    ensures mx == kx && my == ky && q == r
  {
    var p, o := PartOf(m, mx, my), PartOf(m, kx, ky);
    PartIs(m, mx, my);
    PartIs(m, kx, ky);
    hide Keys, At, AllPoints, SlaveMsgs, Start, PartOf;
    var i, j, t := OwnSite(m, mx, my, p, q);
    var k, l, u := OwnSite(m, kx, ky, o, r);
    SameOwnSite(m, p, i, j, t, o, k, l, u);
  }

  lemma SameOwnSite(m: Mesh, p: Part, i: nat, j: nat, t: nat, o: Part, k: nat, l: nat, u: nat)
    requires ValidMesh(m) && t < |Ws(m, p, i, j)| && u < |Ws(m, o, k, l)|
    requires p == PartOf(m, p.mx, p.my) && o == PartOf(m, o.mx, o.my) && ValidPart(m, p) && ValidPart(m, o)
    requires Owns(p.mx, m.gnzx, m.numpex, i) && Owns(p.my, m.gnzy, m.numpey, j)
    requires Owns(o.mx, m.gnzx, m.numpex, k) && Owns(o.my, m.gnzy, m.numpey, l)
    requires KeyOf(m, p.zx + i, p.zy + j, Ws(m, p, i, j)[t]) == KeyOf(m, o.zx + k, o.zy + l, Ws(m, o, k, l)[u])
    ensures p == o && i == k && j == l && t == u
  {
    hide Start, Zones;
    KeyTells(m, p.zx + i, p.zy + j, Ws(m, p, i, j)[t], o.zx + k, o.zy + l, Ws(m, o, k, l)[u]);
    OneLineOwner(p.my, o.my, m.gnzy, m.numpey, j, l);
    if m.kind == Pie && p.zy + j == 0 {
      RayOwner(m, p, i, j, t);
      RayOwner(m, o, k, l, u);
    } else {
      OneLineOwner(p.mx, o.mx, m.gnzx, m.numpex, i, k);
    }
    SameNumber(Ws(m, p, i, j), t, u);
  }

  /** Of the rays of a pie only the first owns the origin. */
  lemma RayOwner(m: Mesh, p: Part, i: nat, j: nat, t: nat)
    requires ValidMesh(m) && m.kind == Pie && p.zy + j == 0 && t < |Ws(m, p, i, j)|
    requires Owns(p.mx, m.gnzx, m.numpex, i)
    ensures i == 0 && p.mx == 0 && t == 0
  {
    hide Zones;
  }

  lemma SameNumber(ws: seq<int>, t: nat, u: nat)
    requires t < |ws| && u < |ws| && ws[t] == ws[u]
    requires forall c, d :: 0 <= c < d < |ws| ==> ws[c] != ws[d]
    ensures t == u
  {
  }

  /** Main result: the lists of every rectangular, pie and hex mesh match, so that every
      exchange gives every copy of a point the sum over all its copies. */
  lemma ListsMatch(m: Mesh)
    requires ValidMesh(m)
    ensures Matched(World(m))
  {
    var w := World(m);
    hide World, ValidPe, MessageHasSender, MessageHasReceiver, PartOf, PeAt, Rank, XOf, YOf;
    forall a | 0 <= a < |w|
      ensures ValidPe(w[a])
    {
      var p := WorldPe(m, a);
      PeIsValid(m, p);
    }
    forall a, j | 0 <= a < |w| && 0 <= j < |w[a].master.pes|
      ensures MessageHasSender(w, a, j)
    {
      WorldMasters(m, a, j);
    }
    forall b, i | 0 <= b < |w| && 0 <= i < |w[b].slave.pes|
      ensures MessageHasReceiver(w, b, i)
    {
      WorldSlaves(m, b, i);
    }
    forall a: nat, q: nat, b: nat, r: nat | OwnCopy(w, a, q) && OwnCopy(w, b, r) && w[a].keys[q] == w[b].keys[r]
      ensures a == b && q == r
    {
      OneOwnCopy(m, a, q, b, r);
    }
  }

  lemma OneOwnCopy(m: Mesh, a: nat, q: nat, b: nat, r: nat)
    requires ValidMesh(m)
    requires OwnCopy(World(m), a, q) && OwnCopy(World(m), b, r) && World(m)[a].keys[q] == World(m)[b].keys[r]
    ensures a == b && q == r
  {
    var p := WorldPe(m, a);
    var o := WorldPe(m, b);
    hide Keys, SlaveMsgs, PartOf, Rank, XOf, YOf, World, PlanOf;
    OneOwnSite(m, XOf(m, a), YOf(m, a), q, XOf(m, b), YOf(m, b), r);
  }
}
