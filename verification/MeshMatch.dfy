/** The lists of the generated meshes fit together on all processes, so that the
    exchange of point sums works on them. */
module MeshMatch {
  import opened PointExchange
  import opened MessageLists
  import opened MeshPoints
  import opened MeshMessages
  import opened MeshLists

  // ----- slave points are listed once

  predicate Increasing(s: seq<nat>) {
    forall d, e :: 0 <= d < e < |s| ==> s[d] < s[e]
  }

  /** Increasing, and all within bounds. */
  predicate Climbs(s: seq<nat>, lo: nat, hi: nat) {
    Increasing(s) && forall d :: 0 <= d < |s| ==> lo <= s[d] < hi
  }

  lemma ClimbsOn(a: seq<nat>, b: seq<nat>, lo: nat, mid: nat, hi: nat)
    requires Climbs(a, lo, mid) && Climbs(b, mid, hi) && lo <= mid <= hi
    ensures Climbs(a + b, lo, hi)
  {
  }

  lemma NothingClimbs(lo: nat, hi: nat)
    ensures Climbs([], lo, hi)
  {
  }

  lemma ClimbsWider(a: seq<nat>, lo: nat, hi: nat, lower: nat, higher: nat)
    requires Climbs(a, lo, hi) && lower <= lo && hi <= higher
    ensures Climbs(a, lower, higher)
  {
  }

  lemma SpanClimbs(a: nat, n: nat)
    ensures Climbs(Span(a, n), a, a + n)
  {
  }

  /** The row and site at which site n of a side begins. */
  function SideAt(m: Mesh, p: Part, side: Side, n: nat): nat
    requires side == Below || side == Left
  {
    if side == Below then At(m, p, n, 0) else At(m, p, 0, n)
  }

  lemma PieceClimbs(m: Mesh, p: Part, side: Side, k: nat)
    requires side == Below || side == Left
    ensures SideAt(m, p, side, k) <= SideAt(m, p, side, k + 1)
    ensures Climbs(Piece(m, p, side, k), SideAt(m, p, side, k), SideAt(m, p, side, k + 1))
  {
    hide At, Ws, Climbs;
    if side == Below {
      AtNext(m, p, k, 0);
      SpanClimbs(At(m, p, k, 0), |Ws(m, p, k, 0)|);
    } else {
      AtNext(m, p, 0, k);
      AtInRow(m, p, 1, p.nzx + 1, k);
      SpanClimbs(At(m, p, 0, k), |Ws(m, p, 0, k)|);
      ClimbsWider(Span(At(m, p, 0, k), |Ws(m, p, 0, k)|), At(m, p, 0, k), At(m, p, 1, k), At(m, p, 0, k),
                  At(m, p, 0, k + 1));
      NothingClimbs(At(m, p, 0, k), At(m, p, 0, k + 1));
    }
  }

  /** From a site whose part of the run is empty up to there, the run climbs. */
  lemma {:induction false} RunClimbs(m: Mesh, p: Part, side: Side, k: nat, n: nat)
    requires side == Below || side == Left
    requires Lo(p, side) <= k <= n && Run(m, p, side, k) == []
    ensures SideAt(m, p, side, k) <= SideAt(m, p, side, n)
    ensures Climbs(Run(m, p, side, n), SideAt(m, p, side, k), SideAt(m, p, side, n))
    decreases n
  {
    hide Run, SideAt, Climbs, Piece, Lo;
    if n == k {
      NothingClimbs(SideAt(m, p, side, k), SideAt(m, p, side, k));
    } else {
      RunClimbs(m, p, side, k, n - 1);
      RunNext(m, p, side, n - 1);
      PieceClimbs(m, p, side, n - 1);
      ClimbsOn(Run(m, p, side, n - 1), Piece(m, p, side, n - 1),
               SideAt(m, p, side, k), SideAt(m, p, side, n - 1), SideAt(m, p, side, n));
    }
  }

  lemma LowerRow(m: Mesh, p: Part)
    requires ValidPart(m, p) && p.my > 0
    ensures At(m, p, 0, 0) == 0
    ensures Climbs((if p.mx > 0 then SiteRun(m, p, 0, 0) else []) + Run(m, p, Below, p.nzx + 1), 0, At(m, p, 0, 1))
  {
    hide At, Ws, Run, Climbs;
    AtNext(m, p, 0, 0);
    AtNext(m, p, p.nzx, 0);
    RunNext(m, p, Below, Lo(p, Below));
    RunClimbs(m, p, Below, Lo(p, Below), p.nzx + 1);
    AtInRow(m, p, 0, 1, 0);
    if p.mx > 0 {
      SpanClimbs(At(m, p, 0, 0), |Ws(m, p, 0, 0)|);
      ClimbsOn(SiteRun(m, p, 0, 0), Run(m, p, Below, p.nzx + 1), 0, At(m, p, 1, 0), At(m, p, 0, 1));
    } else {
      assert [] + Run(m, p, Below, p.nzx + 1) == Run(m, p, Below, p.nzx + 1);
    }
  }

  lemma LeftColumn(m: Mesh, p: Part)
    requires ValidPart(m, p) && p.mx > 0
    ensures At(m, p, 0, 1) <= At(m, p, 0, p.nzy + 1)
    ensures var far := if FarRay(m, p) then [0] else [];
            var lo := if p.my > 0 then At(m, p, 0, 1) else 0;
            Climbs(far + Run(m, p, Left, p.nzy + 1), lo, At(m, p, 0, p.nzy + 1))
  {
    hide At, Ws, Run, Climbs;
    AtNext(m, p, 0, 0);
    AtRows(m, p, 1, p.nzy + 1);
    RunNext(m, p, Left, 0);
    RunNext(m, p, Left, 1);
    var run := Run(m, p, Left, p.nzy + 1);
    assert [] + run == run;
    if p.my > 0 {
      RunClimbs(m, p, Left, 1, p.nzy + 1);
    } else if FarRay(m, p) {
      OriginCarries(m, p);
      RunClimbs(m, p, Left, 1, p.nzy + 1);
      AtInRow(m, p, 1, p.nzx + 1, 0);
      SpanClimbs(0, 1);
      assert Span(0, 1) == [0];
      ClimbsWider([0], 0, 1, 0, At(m, p, 0, 1));
      ClimbsOn([0], run, 0, At(m, p, 0, 1), At(m, p, 0, p.nzy + 1));
    } else {
      RunClimbs(m, p, Left, 0, p.nzy + 1);
    }
  }

  lemma SlavesInOrder(m: Mesh, p: Part)
    ensures AllPoints(SlaveMsgs(m, p)) ==
            (if p.my > 0 then (if p.mx > 0 then SiteRun(m, p, 0, 0) else []) + Run(m, p, Below, p.nzx + 1) else [])
            + if p.mx > 0 then (if FarRay(m, p) then [0] else []) + Run(m, p, Left, p.nzy + 1) else []
  {
    hide AllPoints, SiteRun, Run, Rank;
    var a := if p.mx > 0 && p.my > 0 then [LowerLeft(m, p)] else [];
    var b := if p.my > 0 then [Under(m, p)] else [];
    var c, d := If(FarRay(m, p), ToOrigin()), if p.mx > 0 then [ToLeft(m, p)] else [];
    AllPointsAppend(a + b, c + d);
    AllPointsAppend(a, b);
    AllPointsAppend(c, d);
    forall x: Message
      ensures AllPoints([x]) == x.points && AllPoints([]) == []
    {
      AllPointsNext([], x);
      assert [] + [x] == [x];
    }
  }

  lemma SlavesClimb(m: Mesh, p: Part)
    requires ValidPart(m, p)
    ensures Increasing(AllPoints(SlaveMsgs(m, p)))
  {
    SlavesInOrder(m, p);
    hide AllPoints, SlaveMsgs, SiteRun, Run, At, Increasing, FarRay;
    if p.my > 0 {
      LowerRow(m, p);
      var low := (if p.mx > 0 then SiteRun(m, p, 0, 0) else []) + Run(m, p, Below, p.nzx + 1);
      if p.mx > 0 {
        LeftColumn(m, p);
        var left := (if FarRay(m, p) then [0] else []) + Run(m, p, Left, p.nzy + 1);
        ClimbsOn(low, left, 0, At(m, p, 0, 1), At(m, p, 0, p.nzy + 1));
      } else {
        assert low + [] == low;
      }
    } else if p.mx > 0 {
      LeftColumn(m, p);
      var left := (if FarRay(m, p) then [0] else []) + Run(m, p, Left, p.nzy + 1);
      assert [] + left == left;
    } else {
      NothingClimbs(0, 0);
    }
  }

  // ----- messages go to different processes

  predicate PesClimb(ms: seq<Message>, lo: nat, hi: nat) {
    && (forall i :: 0 <= i < |ms| ==> lo <= ms[i].pe < hi)
    && forall i, j :: 0 <= i < j < |ms| ==> ms[i].pe < ms[j].pe
  }

  lemma PesClimbOn(a: seq<Message>, b: seq<Message>, lo: nat, mid: nat, hi: nat)
    requires PesClimb(a, lo, mid) && PesClimb(b, mid, hi) && lo <= mid <= hi
    ensures PesClimb(a + b, lo, hi)
  {
  }

  lemma RankSteps(m: Mesh, mx: nat, my: nat)
    ensures Rank(m, mx + 1, my) == Rank(m, mx, my) + 1
    ensures Rank(m, mx, my + 1) == Rank(m, mx, my) + m.numpex
    ensures Rank(m, mx + 1, my + 1) == Rank(m, mx, my) + m.numpex + 1
    ensures Rank(m, mx, 0) == mx
  {
  }

  lemma NoPes(lo: nat, hi: nat)
    ensures PesClimb([], lo, hi)
  {
  }

  lemma OnePe(c: bool, msg: Message, lo: nat, hi: nat)
    requires lo <= msg.pe < hi
    ensures PesClimb(If(c, msg), lo, hi)
  {
  }

  lemma RayPes(n: nat)
    ensures PesClimb(Rays(n), 2, if n <= 2 then 2 else n)
  {
  }

  lemma OriginRank(m: Mesh, p: Part)
    ensures HoldsOrigin(m, p) ==> Rank(m, p.mx, p.my) == 0
  {
    RankSteps(m, p.mx, p.my);
  }

  lemma MasterPes(m: Mesh, p: Part)
    requires ValidPart(m, p)
    ensures PesClimb(MasterMsgs(m, p), Rank(m, p.mx, p.my) + 1, Rank(m, p.mx, p.my) + m.numpex + 2)
  {
    RankSteps(m, p.mx, p.my);
    OriginRank(m, p);
    var r := Rank(m, p.mx, p.my);
    var a, b := If(p.mx + 1 < m.numpex, ToRight(m, p)), if HoldsOrigin(m, p) then Rays(m.numpex) else [];
    var c, d := If(p.my + 1 < m.numpey, Over(m, p)), If(p.mx + 1 < m.numpex && p.my + 1 < m.numpey, UpperRight(m, p));
    hide Rank, Run, SiteRun, PesClimb, HoldsOrigin;
    var top := r + m.numpex;
    OnePe(p.my + 1 < m.numpey, Over(m, p), top, top + 1);
    OnePe(p.mx + 1 < m.numpex && p.my + 1 < m.numpey, UpperRight(m, p), top + 1, top + 2);
    PesClimbOn(c, d, top, top + 1, top + 2);
    if m.numpex == 1 {
      NoPes(r + 1, top);
      assert a + b == [];
    } else {
      OnePe(p.mx + 1 < m.numpex, ToRight(m, p), r + 1, r + 2);
      RayPes(m.numpex);
      NoPes(r + 2, top);
      PesClimbOn(a, b, r + 1, r + 2, top);
    }
    PesClimbOn(a + b, c + d, r + 1, top, top + 2);
  }

  /** The ranks that the slave messages go to. */
  lemma SlaveRanks(m: Mesh, p: Part)
    ensures p.mx > 0 && p.my > 0 ==> LowerLeft(m, p).pe + m.numpex + 1 == Rank(m, p.mx, p.my)
    ensures p.my > 0 ==> Under(m, p).pe + m.numpex == Rank(m, p.mx, p.my)
    ensures p.mx > 0 ==> ToLeft(m, p).pe + 1 == Rank(m, p.mx, p.my)
    ensures FarRay(m, p) ==> Rank(m, p.mx, p.my) == p.mx > 1
  {
    if p.my > 0 {
      RankSteps(m, p.mx, p.my - 1);
    }
    if p.mx > 0 {
      RankSteps(m, p.mx - 1, p.my);
    }
    if p.mx > 0 && p.my > 0 {
      RankSteps(m, p.mx - 1, p.my - 1);
    }
    RankSteps(m, p.mx, 0);
    hide Run, SiteRun;
  }

  function LowerMsgs(m: Mesh, p: Part): seq<Message> {
    (if p.mx > 0 && p.my > 0 then [LowerLeft(m, p)] else []) + (if p.my > 0 then [Under(m, p)] else [])
  }

  function SideMsgs(m: Mesh, p: Part): seq<Message> {
    If(FarRay(m, p), ToOrigin()) + if p.mx > 0 then [ToLeft(m, p)] else []
  }

  lemma LowerPes(m: Mesh, p: Part, r: nat)
    requires r == Rank(m, p.mx, p.my)
    ensures p.my == 0 ==> LowerMsgs(m, p) == []
    ensures p.my > 0 ==> r >= m.numpex && PesClimb(LowerMsgs(m, p), 0, r - m.numpex + 1)
  {
    SlaveRanks(m, p);
    hide Rank, Run, SiteRun, LowerLeft, Under, PesClimb;
    if p.my > 0 {
      OnePe(true, Under(m, p), r - m.numpex, r - m.numpex + 1);
      if p.mx > 0 {
        OnePe(true, LowerLeft(m, p), 0, r - m.numpex);
        PesClimbOn([LowerLeft(m, p)], [Under(m, p)], 0, r - m.numpex, r - m.numpex + 1);
      } else {
        OnePe(true, Under(m, p), 0, r - m.numpex + 1);
        assert [] + [Under(m, p)] == [Under(m, p)];
      }
    }
  }

  lemma SidePes(m: Mesh, p: Part, r: nat, lo: nat)
    requires r == Rank(m, p.mx, p.my) && (p.mx > 0 ==> lo < r) && (p.my == 0 ==> lo == 0) && lo <= r
    ensures PesClimb(SideMsgs(m, p), lo, r)
  {
    SlaveRanks(m, p);
    var far := FarRay(m, p);
    assert far ==> p.my == 0 && p.mx > 1;
    hide Rank, Run, SiteRun, ToLeft, PesClimb, FarRay;
    if p.mx > 0 {
      OnePe(true, ToLeft(m, p), r - 1, r);
      if far {
        OnePe(true, ToOrigin(), 0, r - 1);
      } else {
        NoPes(lo, r - 1);
      }
      PesClimbOn(If(far, ToOrigin()), [ToLeft(m, p)], lo, r - 1, r);
    } else {
      NoPes(lo, r);
      assert SideMsgs(m, p) == [];
    }
  }

  lemma SlavePes(m: Mesh, p: Part)
    requires ValidPart(m, p)
    ensures PesClimb(SlaveMsgs(m, p), 0, Rank(m, p.mx, p.my))
  {
    var r := Rank(m, p.mx, p.my);
    assert SlaveMsgs(m, p) == LowerMsgs(m, p) + SideMsgs(m, p);
    LowerPes(m, p, r);
    hide SlaveMsgs, Rank, LowerMsgs, SideMsgs, PesClimb;
    var mid := if p.my > 0 then r - m.numpex + 1 else 0;
    if p.mx > 0 {
      SideRank(m, p);
    }
    SidePes(m, p, r, mid);
    NoPes(0, 0);
    PesClimbOn(LowerMsgs(m, p), SideMsgs(m, p), 0, mid, r);
  }

  lemma SideRank(m: Mesh, p: Part)
    requires ValidPart(m, p) && p.mx > 0
    ensures Rank(m, p.mx, p.my) >= 1
  {
    RankSteps(m, p.mx - 1, p.my);
  }

  // ----- one process

  function PeAt(m: Mesh, p: Part): Pe {
    Pe(PlanOf(SlaveMsgs(m, p)), PlanOf(MasterMsgs(m, p)), Keys(m, p))
  }

  lemma PlanValid(ms: seq<Message>, lo: nat, hi: nat, nump: nat)
    requires PesClimb(ms, lo, hi) && forall q :: q in AllPoints(ms) ==> q < nump
    ensures ValidPlan(PlanOf(ms), nump)
  {
    PlanHas(ms);
    hide PlanOf, Offset;
    var pl := PlanOf(ms);
    forall e | 0 <= e < |pl.points|
      ensures pl.points[e] < nump
    {
      assert pl.points[e] in AllPoints(ms);
    }
    forall i, j | 0 <= i < j < |pl.pes|
      ensures pl.pes[i] != pl.pes[j]
    {
      assert InPlace(ms, pl, i) && InPlace(ms, pl, j);
    }
  }

  lemma SlavePointInside(m: Mesh, p: Part, q: nat)
    requires SlavePoint(m, p, q)
    ensures q < |Keys(m, p)|
  {
    hide Keys, At, Ws;
    var i: nat, j: nat :| i <= p.nzx && j <= p.nzy && IsAt(m, p, i, j, q) && SlaveSite(p, i, j);
    PointAt(m, p, i, j, q - At(m, p, i, j));
  }

  lemma RunInside(m: Mesh, p: Part, side: Side, q: nat)
    requires q in Run(m, p, side, Hi(p, side))
    ensures q < |Keys(m, p)|
  {
    hide Keys, Run, RunKeys;
    RunCarries(m, p, side, Hi(p, side));
    var run := Run(m, p, side, Hi(p, side));
    var t :| 0 <= t < |run| && run[t] == q;
  }

  lemma MasterInside(m: Mesh, p: Part, q: nat)
    requires ValidPart(m, p) && q in AllPoints(MasterMsgs(m, p))
    ensures q < |Keys(m, p)|
  {
    hide Keys, Run, AllPoints, MasterMsgs, At, Ws;
    MasterPointsAre(m, p, q);
    if p.mx + 1 < m.numpex && q in Run(m, p, Right, p.nzy + 1) {
      RunInside(m, p, Right, q);
    } else if HoldsOrigin(m, p) && q == 0 {
      OriginCarries(m, p);
      PointAt(m, p, 0, 0, 0);
    } else if p.my + 1 < m.numpey && q in Run(m, p, Above, p.nzx + 1) {
      RunInside(m, p, Above, q);
    } else {
      SpanHas(At(m, p, p.nzx, p.nzy), |Ws(m, p, p.nzx, p.nzy)|, q);
      PointAt(m, p, p.nzx, p.nzy, q - At(m, p, p.nzx, p.nzy));
    }
  }

  lemma SlavesInside(m: Mesh, p: Part)
    requires ValidPart(m, p)
    ensures forall q :: q in AllPoints(SlaveMsgs(m, p)) ==> q < |Keys(m, p)| && SlavePoint(m, p, q)
  {
    hide *;
    forall q | q in AllPoints(SlaveMsgs(m, p))
      ensures q < |Keys(m, p)| && SlavePoint(m, p, q)
    {
      ListedIsSlave(m, p, q);
      SlavePointInside(m, p, q);
    }
  }

  lemma MastersInside(m: Mesh, p: Part)
    requires ValidPart(m, p)
    ensures forall q :: q in AllPoints(MasterMsgs(m, p)) ==> q < |Keys(m, p)| && !SlavePoint(m, p, q)
  {
    hide *;
    forall q | q in AllPoints(MasterMsgs(m, p))
      ensures q < |Keys(m, p)| && !SlavePoint(m, p, q)
    {
      MasterInside(m, p, q);
      MasterIsOwn(m, p, q);
    }
  }

  lemma AllKeysDiffer(m: Mesh, p: Part)
    ensures forall q, r :: 0 <= q < r < |Keys(m, p)| ==> Keys(m, p)[q] != Keys(m, p)[r]
  {
    hide *;
    forall q, r | 0 <= q < r < |Keys(m, p)|
      ensures Keys(m, p)[q] != Keys(m, p)[r]
    {
      if Keys(m, p)[q] == Keys(m, p)[r] {
        KeysDiffer(m, p, q, r);
      }
    }
  }

  lemma PeIsValid(m: Mesh, p: Part)
    requires ValidPart(m, p)
    ensures ValidPe(PeAt(m, p))
  {
    var pe := PeAt(m, p);
    SlavesClimb(m, p);
    SlavePes(m, p);
    MasterPes(m, p);
    hide Keys, SlaveMsgs, MasterMsgs, PlanOf, SlavePoint, Rank, ValidPlan, PesClimb, ValidPart;
    SlavesInside(m, p);
    MastersInside(m, p);
    AllKeysDiffer(m, p);
    PlanValid(SlaveMsgs(m, p), 0, Rank(m, p.mx, p.my), |Keys(m, p)|);
    PlanValid(MasterMsgs(m, p), Rank(m, p.mx, p.my) + 1, Rank(m, p.mx, p.my) + m.numpex + 2, |Keys(m, p)|);
    forall e | 0 <= e < |pe.master.points|
      ensures pe.master.points[e] !in pe.slave.points
    {
      assert pe.master.points[e] in AllPoints(MasterMsgs(m, p));
    }
  }
}
