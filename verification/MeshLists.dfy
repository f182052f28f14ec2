/** The slave and master lists of a generated mesh, and which points they hold. */
module MeshLists {
  import opened MessageLists
  import opened MeshPoints
  import opened MeshMessages

  /** A ray of a pie whose origin is not its left neighbour's to hand out. */
  predicate FarRay(m: Mesh, p: Part) {
    m.kind == Pie && p.my == 0 && p.mx > 1
  }

  function If(c: bool, msg: Message): seq<Message> {
    if c then [msg] else []
  }

  function SiteRun(m: Mesh, p: Part, i: nat, j: nat): seq<nat> {
    Span(At(m, p, i, j), |Ws(m, p, i, j)|)
  }

  function LowerLeft(m: Mesh, p: Part): Message
    requires p.mx > 0 && p.my > 0
  {
    Message(Rank(m, p.mx - 1, p.my - 1), SiteRun(m, p, 0, 0))
  }

  function Under(m: Mesh, p: Part): Message
    requires p.my > 0
  {
    Message(Rank(m, p.mx, p.my - 1), Run(m, p, Below, p.nzx + 1))
  }

  function ToOrigin(): Message {
    Message(0, [0])
  }

  function ToLeft(m: Mesh, p: Part): Message
    requires p.mx > 0
  {
    Message(Rank(m, p.mx - 1, p.my), Run(m, p, Left, p.nzy + 1))
  }

  /** The messages of a process as slave: to the lower left, below, to the holder of a
      pie's origin, and to the left. */
  function SlaveMsgs(m: Mesh, p: Part): seq<Message> {
    (if p.mx > 0 && p.my > 0 then [LowerLeft(m, p)] else []) + (if p.my > 0 then [Under(m, p)] else [])
    + (If(FarRay(m, p), ToOrigin()) + if p.mx > 0 then [ToLeft(m, p)] else [])
  }

  function ToRight(m: Mesh, p: Part): Message {
    Message(Rank(m, p.mx + 1, p.my), Run(m, p, Right, p.nzy + 1))
  }

  /** The origin, for each of the processes 2 to n - 1. */
  function Rays(n: nat): (ms: seq<Message>)
    ensures |ms| == if n <= 2 then 0 else n - 2
    ensures forall k :: 0 <= k < |ms| ==> ms[k] == Message(k + 2, [0])
  {
    seq(if n <= 2 then 0 else n - 2, k requires 0 <= k => Message(k + 2, [0]))
  }

  function Over(m: Mesh, p: Part): Message {
    Message(Rank(m, p.mx, p.my + 1), Run(m, p, Above, p.nzx + 1))
  }

  function UpperRight(m: Mesh, p: Part): Message {
    Message(Rank(m, p.mx + 1, p.my + 1), SiteRun(m, p, p.nzx, p.nzy))
  }

  predicate HoldsOrigin(m: Mesh, p: Part) {
    m.kind == Pie && p.mx == 0 && p.my == 0
  }

  /** The messages of a process as master: to the right, to the rays of a pie, above, and
      to the upper right. */
  function MasterMsgs(m: Mesh, p: Part): seq<Message> {
    (If(p.mx + 1 < m.numpex, ToRight(m, p)) + if HoldsOrigin(m, p) then Rays(m.numpex) else [])
    + (If(p.my + 1 < m.numpey, Over(m, p)) + If(p.mx + 1 < m.numpex && p.my + 1 < m.numpey, UpperRight(m, p)))
  }

  // ----- the points of the lists

  predicate IsAt(m: Mesh, p: Part, i: nat, j: nat, q: nat) {
    At(m, p, i, j) <= q < At(m, p, i, j) + |Ws(m, p, i, j)|
  }

  lemma IsAtOne(m: Mesh, p: Part, i: nat, j: nat, k: nat, l: nat, q: nat)
    requires i <= p.nzx && k <= p.nzx && IsAt(m, p, i, j, q) && IsAt(m, p, k, l, q)
    ensures i == k && j == l
  {
    hide At, Ws;
    SameSite(m, p, i, j, q - At(m, p, i, j), k, l, q - At(m, p, k, l));
  }

  /** A site whose points belong to another process. */
  predicate SlaveSite(p: Part, i: nat, j: nat) {
    (i == 0 && p.mx > 0) || (j == 0 && p.my > 0)
  }

  /** The point is at such a site. */
  ghost predicate SlavePoint(m: Mesh, p: Part, q: nat) {
    exists i: nat, j: nat :: i <= p.nzx && j <= p.nzy && IsAt(m, p, i, j, q) && SlaveSite(p, i, j)
  }

  lemma SlavePointAt(m: Mesh, p: Part, i: nat, j: nat, q: nat)
    requires i <= p.nzx && j <= p.nzy && IsAt(m, p, i, j, q)
    ensures SlavePoint(m, p, q) <==> SlaveSite(p, i, j)
  {
    hide IsAt, SlaveSite;
    if SlavePoint(m, p, q) {
      var k: nat, l: nat :| k <= p.nzx && l <= p.nzy && IsAt(m, p, k, l, q) && SlaveSite(p, k, l);
      IsAtOne(m, p, i, j, k, l, q);
    }
  }

  /** The site that site k of a side is. */
  function SideSite(p: Part, side: Side, k: nat): (nat, nat) {
    match side
    case Below => (k, 0)
    case Above => (k, p.nzy)
    case Left => (0, k)
    case Right => (p.nzx, k)
  }

  lemma PieceSite(m: Mesh, p: Part, side: Side, k: nat, q: nat)
    requires q in Piece(m, p, side, k) && !(side == Right && SharedOrigin(m, p, k))
    ensures IsAt(m, p, SideSite(p, side, k).0, SideSite(p, side, k).1, q)
  {
    hide At, Ws;
    var t :| 0 <= t < |Piece(m, p, side, k)| && Piece(m, p, side, k)[t] == q;
  }

  lemma {:induction false} RunPiece(m: Mesh, p: Part, side: Side, n: nat, q: nat) returns (k: nat)
    requires q in Run(m, p, side, n)
    ensures Lo(p, side) <= k < n && q in Piece(m, p, side, k)
  {
    hide Piece, Run, Lo;
    RunNext(m, p, side, n);
    RunNext(m, p, side, n - 1);
    if q in Piece(m, p, side, n - 1) {
      k := n - 1;
    } else {
      k := RunPiece(m, p, side, n - 1, q);
    }
  }

  lemma {:induction false} PieceInRun(m: Mesh, p: Part, side: Side, n: nat, k: nat, q: nat)
    requires Lo(p, side) <= k < n && q in Piece(m, p, side, k)
    ensures q in Run(m, p, side, n)
    decreases n
  {
    hide Piece, Run, Lo;
    RunNext(m, p, side, n - 1);
    if k < n - 1 {
      PieceInRun(m, p, side, n - 1, k, q);
    }
  }

  lemma SpanHas(a: nat, n: nat, q: nat)
    ensures q in Span(a, n) <==> a <= q < a + n
  {
    if a <= q < a + n {
      assert Span(a, n)[q - a] == q;
    }
  }

  lemma SlavePointsAre(m: Mesh, p: Part, q: nat)
    ensures q in AllPoints(SlaveMsgs(m, p)) <==>
              (p.mx > 0 && p.my > 0 && q in SiteRun(m, p, 0, 0)) || (p.my > 0 && q in Run(m, p, Below, p.nzx + 1))
              || (FarRay(m, p) && q == 0) || (p.mx > 0 && q in Run(m, p, Left, p.nzy + 1))
  {
    hide AllPoints, FarRay, SiteRun, Run, Rank;
    var a := if p.mx > 0 && p.my > 0 then [LowerLeft(m, p)] else [];
    var b := if p.my > 0 then [Under(m, p)] else [];
    var c, d := If(FarRay(m, p), ToOrigin()), if p.mx > 0 then [ToLeft(m, p)] else [];
    AllPointsAppend(a + b, c + d);
    AllPointsAppend(a, b);
    AllPointsAppend(c, d);
    forall x: Message
      ensures AllPoints([x]) == x.points && AllPoints([]) == []
    {
      AllPointsNext([], x);
      assert [] + [x] == [x];
    }
  }

  lemma MasterPointsAre(m: Mesh, p: Part, q: nat)
    requires q in AllPoints(MasterMsgs(m, p))
    ensures (p.mx + 1 < m.numpex && q in Run(m, p, Right, p.nzy + 1)) || (HoldsOrigin(m, p) && q == 0)
            || (p.my + 1 < m.numpey && q in Run(m, p, Above, p.nzx + 1))
            || (p.mx + 1 < m.numpex && p.my + 1 < m.numpey && q in SiteRun(m, p, p.nzx, p.nzy))
  {
    hide AllPoints, SiteRun, Run, Rank, HoldsOrigin, If, ToRight, Over, UpperRight;
    var a, b := If(p.mx + 1 < m.numpex, ToRight(m, p)), if HoldsOrigin(m, p) then Rays(m.numpex) else [];
    var c, d := If(p.my + 1 < m.numpey, Over(m, p)), If(p.mx + 1 < m.numpex && p.my + 1 < m.numpey, UpperRight(m, p));
    AllPointsAppend(a + b, c + d);
    AllPointsAppend(a, b);
    AllPointsAppend(c, d);
    RayPoints(Rays(m.numpex));
    RayPoints([]);
    IfPoints(p.mx + 1 < m.numpex, ToRight(m, p), q);
    IfPoints(p.my + 1 < m.numpey, Over(m, p), q);
    IfPoints(p.mx + 1 < m.numpex && p.my + 1 < m.numpey, UpperRight(m, p), q);
    MasterRuns(m, p);
    AllPointsNext([], Message(0, []));
  }

  lemma IfPoints(c: bool, msg: Message, q: nat)
    ensures q in AllPoints(If(c, msg)) <==> c && q in msg.points
  {
    hide AllPoints;
    AllPointsNext([], msg);
    assert [] + [msg] == [msg];
  }

  lemma MasterRuns(m: Mesh, p: Part)
    ensures ToRight(m, p).points == Run(m, p, Right, p.nzy + 1) && Over(m, p).points == Run(m, p, Above, p.nzx + 1)
    ensures UpperRight(m, p).points == SiteRun(m, p, p.nzx, p.nzy)
  {
    hide SiteRun, Run, Rank;
  }

  lemma {:induction false} RayPoints(ms: seq<Message>)
    requires forall k :: 0 <= k < |ms| ==> ms[k].points == [0]
    ensures forall q :: q in AllPoints(ms) ==> q == 0
  {
    hide AllPoints;
    AllPointsNext([], Message(0, []));
    if ms != [] {
      var last := |ms| - 1;
      RayPoints(ms[..last]);
      AllPointsNext(ms[..last], ms[last]);
      assert ms[..last] + [ms[last]] == ms;
    }
  }

  /** Every listed slave point is at a site of another process. */
  lemma ListedIsSlave(m: Mesh, p: Part, q: nat)
    requires ValidPart(m, p) && q in AllPoints(SlaveMsgs(m, p))
    ensures SlavePoint(m, p, q)
  {
    hide Piece, Run, IsAt, AllPoints, Keys, At, Ws, SlavePoint, SlaveMsgs;
    SlavePointsAre(m, p, q);
    if p.mx > 0 && p.my > 0 && q in SiteRun(m, p, 0, 0) {
      SpanHas(At(m, p, 0, 0), |Ws(m, p, 0, 0)|, q);
      ListedAt(m, p, 0, 0, q);
    } else if p.my > 0 && q in Run(m, p, Below, p.nzx + 1) {
      var k := RunPiece(m, p, Below, p.nzx + 1, q);
      PieceSite(m, p, Below, k, q);
      ListedAt(m, p, k, 0, q);
    } else if FarRay(m, p) && q == 0 {
      OriginCarries(m, p);
      ListedAt(m, p, 0, 0, q);
    } else {
      var k := RunPiece(m, p, Left, p.nzy + 1, q);
      PieceSite(m, p, Left, k, q);
      ListedAt(m, p, 0, k, q);
    }
  }

  lemma ListedAt(m: Mesh, p: Part, i: nat, j: nat, q: nat)
    requires i <= p.nzx && j <= p.nzy && SlaveSite(p, i, j)
    requires At(m, p, i, j) <= q < At(m, p, i, j) + |Ws(m, p, i, j)| || IsAt(m, p, i, j, q)
    ensures SlavePoint(m, p, q)
  {
    hide At, Ws;
    assert IsAt(m, p, i, j, q);
  }

  /** Every point at such a site is listed. */
  lemma SlaveIsListed(m: Mesh, p: Part, i: nat, j: nat, q: nat)
    requires ValidPart(m, p) && i <= p.nzx && j <= p.nzy && IsAt(m, p, i, j, q) && SlaveSite(p, i, j)
    ensures q in AllPoints(SlaveMsgs(m, p))
  {
    hide Run, AllPoints, Keys, At, Ws, SlaveMsgs;
    SlavePointsAre(m, p, q);
    SpanHas(At(m, p, i, j), |Ws(m, p, i, j)|, q);
    if p.my > 0 && j == 0 {
      if i == 0 && p.mx > 0 {
      } else {
        PieceInRun(m, p, Below, p.nzx + 1, i, q);
      }
    } else if SharedOrigin(m, p, j) && p.mx > 1 {
      OriginCarries(m, p);
    } else {
      PieceInRun(m, p, Left, p.nzy + 1, j, q);
    }
  }

  /** No listed master point is a slave. */
  lemma MasterIsOwn(m: Mesh, p: Part, q: nat)
    requires ValidPart(m, p) && q in AllPoints(MasterMsgs(m, p))
    ensures !SlavePoint(m, p, q)
  {
    hide Piece, Run, AllPoints, Keys, At, Ws, SlavePoint, MasterMsgs;
    MasterPointsAre(m, p, q);
    if p.mx + 1 < m.numpex && q in Run(m, p, Right, p.nzy + 1) {
      var k := RunPiece(m, p, Right, p.nzy + 1, q);
      if SharedOrigin(m, p, k) {
        RightOrigin(m, p, k, q);
        OriginCarries(m, p);
        SlavePointAt(m, p, 0, 0, q);
      } else {
        PieceSite(m, p, Right, k, q);
        SlavePointAt(m, p, p.nzx, k, q);
      }
    } else if HoldsOrigin(m, p) && q == 0 {
      OriginCarries(m, p);
      SlavePointAt(m, p, 0, 0, q);
    } else if p.my + 1 < m.numpey && q in Run(m, p, Above, p.nzx + 1) {
      var k := RunPiece(m, p, Above, p.nzx + 1, q);
      PieceSite(m, p, Above, k, q);
      SlavePointAt(m, p, k, p.nzy, q);
    } else {
      SpanHas(At(m, p, p.nzx, p.nzy), |Ws(m, p, p.nzx, p.nzy)|, q);
      SlavePointAt(m, p, p.nzx, p.nzy, q);
    }
  }

  lemma RightOrigin(m: Mesh, p: Part, k: nat, q: nat)
    requires q in Piece(m, p, Right, k) && SharedOrigin(m, p, k)
    ensures q == 0 && p.mx == 0
  {
    hide At, Ws;
  }
}
