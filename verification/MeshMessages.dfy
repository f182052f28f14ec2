/** Which points of a block are slaves, which are masters of whom, and why the lists
    that neighbouring processes make by themselves line up. */
module MeshMessages {
  import opened PointExchange
  import opened MeshPoints

  function Rank(m: Mesh, mx: nat, my: nat): nat {
    my * m.numpex + mx
  }

  /** n consecutive points. */
  function Span(a: nat, n: nat): (s: seq<nat>)
    ensures |s| == n && forall t :: 0 <= t < n ==> s[t] == a + t
  {
    seq(n, t requires 0 <= t < n => a + t)
  }

  /** The rays of a pie meet on this row. */
  predicate SharedOrigin(m: Mesh, p: Part, j: nat) {
    m.kind == Pie && p.zy + j == 0
  }

  datatype Side = Below | Left | Above | Right

  /** The first site of a side that the corner message does not take care of. */
  function Lo(p: Part, side: Side): nat {
    match side
    case Below => if p.mx != 0 then 1 else 0
    case Above => if p.mx != 0 then 1 else 0
    case Left => if p.my != 0 then 1 else 0
    case Right => if p.my != 0 then 1 else 0
  }

  function Hi(p: Part, side: Side): nat {
    match side
    case Below => p.nzx + 1
    case Above => p.nzx + 1
    case Left => p.nzy + 1
    case Right => p.nzy + 1
  }

  /** At the far end of a side, the corner's other point belongs to another message. */
  function Shared(m: Mesh, p: Part, i: nat, j: nat, end: bool): (n: nat)
    ensures n <= |Ws(m, p, i, j)|
  {
    if end && |Ws(m, p, i, j)| == 2 then 1 else |Ws(m, p, i, j)|
  }

  /** The points of site k of a side that its message carries. */
  function Piece(m: Mesh, p: Part, side: Side, k: nat): seq<nat> {
    match side
    case Below => Span(At(m, p, k, 0), |Ws(m, p, k, 0)|)
    case Above => Span(At(m, p, k, p.nzy), Shared(m, p, k, p.nzy, k == p.nzx))
    case Left =>
      if SharedOrigin(m, p, k) && p.mx > 1 then [] else Span(At(m, p, 0, k), |Ws(m, p, 0, k)|)
    case Right =>
      if SharedOrigin(m, p, k) then
        if p.mx == 0 then [0] else []
      else
        var n, all := Shared(m, p, p.nzx, k, k == p.nzy), |Ws(m, p, p.nzx, k)|;
        Span(At(m, p, p.nzx, k) + all - n, n)
  }

  /** Which points those are in the whole mesh. */
  function PieceKeys(m: Mesh, p: Part, side: Side, k: nat): seq<Key> {
    match side
    case Below => SiteKeys(m, p, k, 0)
    case Above => SiteKeys(m, p, k, p.nzy)[..Shared(m, p, k, p.nzy, k == p.nzx)]
    case Left =>
      if SharedOrigin(m, p, k) && p.mx > 1 then [] else SiteKeys(m, p, 0, k)
    case Right =>
      if SharedOrigin(m, p, k) then
        if p.mx == 0 then [Key(0, 0, 0)] else []
      else
        SiteKeys(m, p, p.nzx, k)[|Ws(m, p, p.nzx, k)| - Shared(m, p, p.nzx, k, k == p.nzy)..]
  }

  function RunFirst(m: Mesh, p: Part, side: Side, n: nat): seq<nat> {
    if n <= Lo(p, side) then [] else RunFirst(m, p, side, n - 1) + Piece(m, p, side, n - 1)
  }

  /** The points at the sites of a side before site n. */
  function Run(m: Mesh, p: Part, side: Side, n: nat): seq<nat> {
    RunFirst(m, p, side, n)
  }

  lemma RunNext(m: Mesh, p: Part, side: Side, n: nat)
    ensures n <= Lo(p, side) ==> Run(m, p, side, n) == []
    ensures n >= Lo(p, side) ==> Run(m, p, side, n + 1) == Run(m, p, side, n) + Piece(m, p, side, n)
  {
    hide Piece, Lo;
  }

  function RunKeysFirst(m: Mesh, p: Part, side: Side, n: nat): seq<Key> {
    if n <= Lo(p, side) then [] else RunKeysFirst(m, p, side, n - 1) + PieceKeys(m, p, side, n - 1)
  }

  function RunKeys(m: Mesh, p: Part, side: Side, n: nat): seq<Key> {
    RunKeysFirst(m, p, side, n)
  }

  lemma RunKeysNext(m: Mesh, p: Part, side: Side, n: nat)
    ensures n <= Lo(p, side) ==> RunKeys(m, p, side, n) == []
    ensures n >= Lo(p, side) ==> RunKeys(m, p, side, n + 1) == RunKeys(m, p, side, n) + PieceKeys(m, p, side, n)
  {
    hide PieceKeys, Lo;
  }

  // ----- points and their identities

  /** The listed points are these. */
  predicate Carries(keys: seq<Key>, points: seq<nat>, ks: seq<Key>) {
    |points| == |ks| && forall t :: 0 <= t < |points| ==> points[t] < |keys| && keys[points[t]] == ks[t]
  }

  lemma CarriesAdd(keys: seq<Key>, a: seq<nat>, b: seq<nat>, ks: seq<Key>, ls: seq<Key>)
    requires Carries(keys, a, ks) && Carries(keys, b, ls)
    ensures Carries(keys, a + b, ks + ls)
  {
  }

  lemma SiteCarries(m: Mesh, p: Part, i: nat, j: nat, lo: nat, n: nat)
    requires i <= p.nzx && j <= p.nzy && lo + n <= |Ws(m, p, i, j)|
    ensures Carries(Keys(m, p), Span(At(m, p, i, j) + lo, n), SiteKeys(m, p, i, j)[lo..lo + n])
  {
    var points := Span(At(m, p, i, j) + lo, n);
    hide Keys, At, Ws, KeyOf;
    forall t | 0 <= t < n
      ensures points[t] < |Keys(m, p)| && Keys(m, p)[points[t]] == SiteKeys(m, p, i, j)[lo..lo + n][t]
    {
      PointAt(m, p, i, j, lo + t);
    }
  }

  lemma OriginCarries(m: Mesh, p: Part)
    requires m.kind == Pie && p.zy == 0
    ensures Carries(Keys(m, p), [0], [Key(0, 0, 0)]) && At(m, p, 0, 0) == 0 && |Ws(m, p, 0, 0)| == 1
  {
    AtNext(m, p, 0, 0);
    PointAt(m, p, 0, 0, 0);
    hide Keys, At;
  }

  lemma PieceCarries(m: Mesh, p: Part, side: Side, k: nat)
    requires k < Hi(p, side)
    ensures Carries(Keys(m, p), Piece(m, p, side, k), PieceKeys(m, p, side, k))
  {
    hide Keys, At, Ws, Carries, SiteKeys;
    assert Carries(Keys(m, p), [], []) by {
      NothingCarried(m, p);
    }
    match side
    case Below =>
      SiteCarries(m, p, k, 0, 0, |Ws(m, p, k, 0)|);
      assert SiteKeys(m, p, k, 0)[0..0 + |Ws(m, p, k, 0)|] == SiteKeys(m, p, k, 0);
    case Above =>
      SiteCarries(m, p, k, p.nzy, 0, Shared(m, p, k, p.nzy, k == p.nzx));
    case Left =>
      SiteCarries(m, p, 0, k, 0, |Ws(m, p, 0, k)|);
      assert SiteKeys(m, p, 0, k)[0..0 + |Ws(m, p, 0, k)|] == SiteKeys(m, p, 0, k);
    case Right =>
      if SharedOrigin(m, p, k) {
        OriginCarries(m, p);
      } else {
        var n, all := Shared(m, p, p.nzx, k, k == p.nzy), |Ws(m, p, p.nzx, k)|;
        SiteCarries(m, p, p.nzx, k, all - n, n);
        assert SiteKeys(m, p, p.nzx, k)[all - n..all - n + n] == SiteKeys(m, p, p.nzx, k)[all - n..];
      }
  }

  lemma NothingCarried(m: Mesh, p: Part)
    ensures Carries(Keys(m, p), [], [])
  {
  }

  lemma {:induction false} RunCarries(m: Mesh, p: Part, side: Side, n: nat)
    requires n <= Hi(p, side)
    ensures Carries(Keys(m, p), Run(m, p, side, n), RunKeys(m, p, side, n))
  {
    hide Keys, Carries, Piece, PieceKeys, Run, RunKeys, Lo, Hi;
    if n <= Lo(p, side) {
      RunNext(m, p, side, n);
      RunKeysNext(m, p, side, n);
      NothingCarried(m, p);
    } else {
      RunCarries(m, p, side, n - 1);
      RunNext(m, p, side, n - 1);
      RunKeysNext(m, p, side, n - 1);
      PieceCarries(m, p, side, n - 1);
      CarriesAdd(Keys(m, p), Run(m, p, side, n - 1), Piece(m, p, side, n - 1),
                 RunKeys(m, p, side, n - 1), PieceKeys(m, p, side, n - 1));
    }
  }

  // ----- what neighbours list is the same

  /** The block above, or to the right. */
  function Next(m: Mesh, p: Part, side: Side): Part
    requires ValidMesh(m)
  {
    match side
    case Above => PartOf(m, p.mx, p.my + 1)
    case Right => PartOf(m, p.mx + 1, p.my)
    case Below => p
    case Left => p
  }

  function Facing(side: Side): Side {
    match side
    case Above => Below
    case Right => Left
    case Below => Above
    case Left => Right
  }

  /** Master and slave list the same points of every site. */
  lemma PiecesMatch(m: Mesh, mx: nat, my: nat, side: Side, k: nat)
    requires ValidMesh(m) && mx < m.numpex && my < m.numpey
    requires side == Above || side == Right
    requires side == Above ==> my + 1 < m.numpey
    requires side == Right ==> mx + 1 < m.numpex
    requires var p := PartOf(m, mx, my); Lo(p, side) <= k < Hi(p, side)
    ensures var p := PartOf(m, mx, my);
            PieceKeys(m, p, side, k) == PieceKeys(m, Next(m, p, side), Facing(side), k)
  {
    var p := PartOf(m, mx, my);
    PartFacts(m, mx, my);
    PartsAbut(m, mx, my);
    if side == Above {
      PartFacts(m, mx, my + 1);
      SitesAbove(m, p, Next(m, p, side), k);
    } else {
      PartFacts(m, mx + 1, my);
      SitesRight(m, p, Next(m, p, side), k);
    }
  }

  lemma SitesAbove(m: Mesh, p: Part, q: Part, k: nat)
    requires ValidPart(m, p) && ValidPart(m, q) && q.mx == p.mx && q.my == p.my + 1
    requires q.zx == p.zx && q.nzx == p.nzx && q.zy == p.zy + p.nzy && Lo(p, Above) <= k <= p.nzx
    ensures PieceKeys(m, p, Above, k) == PieceKeys(m, q, Below, k)
  {
    hide KeyOf;
    assert q.zy > 0 && q.zy < m.gnzy;
    assert Ws(m, p, k, p.nzy)[..Shared(m, p, k, p.nzy, k == p.nzx)] == Ws(m, q, k, 0);
  }

  lemma SitesRight(m: Mesh, p: Part, q: Part, k: nat)
    requires ValidPart(m, p) && ValidPart(m, q) && q.mx == p.mx + 1 && q.my == p.my
    requires q.zy == p.zy && q.nzy == p.nzy && q.zx == p.zx + p.nzx && Lo(p, Right) <= k <= p.nzy
    ensures PieceKeys(m, p, Right, k) == PieceKeys(m, q, Left, k)
  {
    if SharedOrigin(m, p, k) {
    } else {
      WsRight(m, p, q, k);
      hide KeyOf, Ws, Shared;
      assert p.zx + p.nzx == q.zx + 0;
    }
  }

  lemma WsRight(m: Mesh, p: Part, q: Part, k: nat)
    requires ValidPart(m, p) && ValidPart(m, q) && q.mx == p.mx + 1 && q.my == p.my && !SharedOrigin(m, p, k)
    requires q.zy == p.zy && q.nzy == p.nzy && q.zx == p.zx + p.nzx && Lo(p, Right) <= k <= p.nzy
    ensures Ws(m, p, p.nzx, k)[|Ws(m, p, p.nzx, k)| - Shared(m, p, p.nzx, k, k == p.nzy)..] == Ws(m, q, 0, k)
  {
    assert q.zx > 0 && q.zx < m.gnzx;
  }

  lemma {:induction false} RunsMatch(m: Mesh, mx: nat, my: nat, side: Side, n: nat)
    requires ValidMesh(m) && mx < m.numpex && my < m.numpey
    requires side == Above || side == Right
    requires side == Above ==> my + 1 < m.numpey
    requires side == Right ==> mx + 1 < m.numpex
    requires n <= Hi(PartOf(m, mx, my), side)
    ensures var p := PartOf(m, mx, my);
            RunKeys(m, p, side, n) == RunKeys(m, Next(m, p, side), Facing(side), n)
  {
    var p := PartOf(m, mx, my);
    var q, facing := Next(m, p, side), Facing(side);
    assert Lo(p, side) == Lo(q, facing);
    hide PieceKeys, RunKeys, Lo, Hi, PartOf, Next, Facing;
    if n <= Lo(p, side) {
      RunKeysNext(m, p, side, n);
      RunKeysNext(m, q, facing, n);
    } else {
      RunsMatch(m, mx, my, side, n - 1);
      RunKeysNext(m, p, side, n - 1);
      RunKeysNext(m, q, facing, n - 1);
      PiecesMatch(m, mx, my, side, n - 1);
    }
  }

  /** The four blocks around a corner: its two points are those of the block at its lower
      left and of the one at its upper right. */
  lemma CornersMatch(m: Mesh, p: Part, q: Part)
    requires ValidPart(m, p) && ValidPart(m, q) && q.mx == p.mx + 1 && q.my == p.my + 1
    requires q.zx == p.zx + p.nzx && q.zy == p.zy + p.nzy
    ensures SiteKeys(m, p, p.nzx, p.nzy) == SiteKeys(m, q, 0, 0)
  {
    hide KeyOf;
    assert q.zx > 0 && q.zx < m.gnzx && q.zy > 0 && q.zy < m.gnzy;
    assert Ws(m, p, p.nzx, p.nzy) == Ws(m, q, 0, 0);
  }
}
