/** The points of the three generated meshes: what a process has at each of its grid
    sites, in which order, and under which identity in the whole mesh. */
module MeshPoints {
  import opened PointExchange
  import opened ZoneSplit

  datatype Kind = Rect | Pie | Hex

  datatype Mesh = Mesh(kind: Kind, gnzx: nat, gnzy: nat, numpex: nat, numpey: nat)

  /** No axis has more processes than zones. */
  predicate ValidMesh(m: Mesh) {
    1 <= m.numpex <= m.gnzx && 1 <= m.numpey <= m.gnzy
  }

  /** The block of zones of one process: mypex, mypey, zxoffset, zyoffset, nzx, nzy. */
  datatype Part = Part(mx: nat, my: nat, zx: nat, zy: nat, nzx: nat, nzy: nat)

  function PartOf(m: Mesh, mx: nat, my: nat): Part
    requires ValidMesh(m)
  {
    Part(mx, my, Start(mx, m.gnzx, m.numpex), Start(my, m.gnzy, m.numpey),
         Zones(mx, m.gnzx, m.numpex), Zones(my, m.gnzy, m.numpey))
  }

  predicate ValidPart(m: Mesh, p: Part) {
    && p.mx < m.numpex && p.my < m.numpey && p.nzx >= 1 && p.nzy >= 1
    && p.zx + p.nzx <= m.gnzx && p.zy + p.nzy <= m.gnzy
    && (p.zx == 0 <==> p.mx == 0) && (p.zy == 0 <==> p.my == 0)
    && (p.zx + p.nzx == m.gnzx <==> p.mx == m.numpex - 1) && (p.zy + p.nzy == m.gnzy <==> p.my == m.numpey - 1)
  }

  lemma PartFacts(m: Mesh, mx: nat, my: nat)
    requires ValidMesh(m) && mx < m.numpex && my < m.numpey
    ensures ValidPart(m, PartOf(m, mx, my))
  {
    hide Start;
    StartBounds(mx, m.gnzx, m.numpex);
    StartBounds(mx + 1, m.gnzx, m.numpex);
    StartBounds(my, m.gnzy, m.numpey);
    StartBounds(my + 1, m.gnzy, m.numpey);
  }

  /** The next block along an axis begins where this one ends. */
  lemma PartsAbut(m: Mesh, mx: nat, my: nat)
    requires ValidMesh(m)
    ensures PartOf(m, mx + 1, my).zx == PartOf(m, mx, my).zx + PartOf(m, mx, my).nzx
    ensures PartOf(m, mx, my + 1).zy == PartOf(m, mx, my).zy + PartOf(m, mx, my).nzy
  {
    hide Start;
  }

  // ----- sites

  /** The points at site (i, j) of a block, by number: none or one for each ray of a pie
      at its origin, one on the boundary of a hex mesh, and up to two inside it. */
  function Ws(m: Mesh, p: Part, i: nat, j: nat): (ws: seq<int>)
    ensures |ws| <= 2 && forall t, u :: 0 <= t < u < |ws| ==> ws[t] != ws[u]
  {
    match m.kind
    case Rect => [0]
    case Pie => if p.zy + j == 0 && i > 0 then [] else [0]
    case Hex =>
      if Boundary(m, p.zx + i, p.zy + j) then [0]
      else if i == p.nzx && j == 0 then [1]
      else if i == 0 && j == p.nzy then [2]
      else [1, 2]
  }

  predicate Boundary(m: Mesh, gi: nat, gj: nat) {
    gi == 0 || gi == m.gnzx || gj == 0 || gj == m.gnzy
  }

  /** The rays of a pie meet at one point. */
  function KeyOf(m: Mesh, gi: nat, gj: nat, w: int): Key {
    if m.kind == Pie && gj == 0 then Key(0, 0, 0) else Key(gi, gj, w)
  }

  function SiteKeys(m: Mesh, p: Part, i: nat, j: nat): (ks: seq<Key>)
    ensures |ks| == |Ws(m, p, i, j)|
    ensures forall t :: 0 <= t < |ks| ==> ks[t] == KeyOf(m, p.zx + i, p.zy + j, Ws(m, p, i, j)[t])
  {
    seq(|Ws(m, p, i, j)|, t requires 0 <= t < |Ws(m, p, i, j)| => KeyOf(m, p.zx + i, p.zy + j, Ws(m, p, i, j)[t]))
  }

  function RowFirst(m: Mesh, p: Part, j: nat, n: nat): seq<Key> {
    if n == 0 then [] else RowFirst(m, p, j, n - 1) + SiteKeys(m, p, n - 1, j)
  }

  /** The points at the first n sites of row j. */
  function RowKeys(m: Mesh, p: Part, j: nat, n: nat): seq<Key> {
    RowFirst(m, p, j, n)
  }

  lemma RowNext(m: Mesh, p: Part, j: nat, n: nat)
    ensures RowKeys(m, p, j, 0) == []
    ensures RowKeys(m, p, j, n + 1) == RowKeys(m, p, j, n) + SiteKeys(m, p, n, j)
  {
    hide Ws;
  }

  function RowsFirst(m: Mesh, p: Part, n: nat): seq<Key> {
    if n == 0 then [] else RowsFirst(m, p, n - 1) + RowKeys(m, p, n - 1, p.nzx + 1)
  }

  /** The points of the first n rows. */
  function Rows(m: Mesh, p: Part, n: nat): seq<Key> {
    RowsFirst(m, p, n)
  }

  lemma RowsNext(m: Mesh, p: Part, n: nat)
    ensures Rows(m, p, 0) == []
    ensures Rows(m, p, n + 1) == Rows(m, p, n) + RowKeys(m, p, n, p.nzx + 1)
  {
    hide RowKeys;
  }

  /** All points of a process, in order. */
  function Keys(m: Mesh, p: Part): seq<Key> {
    Rows(m, p, p.nzy + 1)
  }

  /** The local number of the first point at site (i, j). */
  function At(m: Mesh, p: Part, i: nat, j: nat): nat {
    |Rows(m, p, j)| + |RowKeys(m, p, j, i)|
  }

  lemma AtNext(m: Mesh, p: Part, i: nat, j: nat)
    ensures At(m, p, 0, 0) == 0
    ensures At(m, p, i + 1, j) == At(m, p, i, j) + |Ws(m, p, i, j)|
    ensures At(m, p, 0, j + 1) == At(m, p, p.nzx + 1, j)
    ensures At(m, p, 0, j) == |Rows(m, p, j)|
  {
    hide Ws, Rows, RowKeys;
    RowNext(m, p, j, i);
    RowNext(m, p, j + 1, i);
    RowNext(m, p, 0, i);
    RowsNext(m, p, j);
  }

  lemma {:induction false} RowPrefix(m: Mesh, p: Part, j: nat, i: nat, n: nat)
    requires i <= n
    ensures RowKeys(m, p, j, i) <= RowKeys(m, p, j, n)
    decreases n - i
  {
    hide RowKeys, Ws;
    if i < n {
      RowPrefix(m, p, j, i, n - 1);
      RowNext(m, p, j, n - 1);
    }
  }

  lemma {:induction false} RowsPrefix(m: Mesh, p: Part, j: nat, n: nat)
    requires j <= n
    ensures Rows(m, p, j) <= Rows(m, p, n)
    decreases n - j
  {
    hide Rows, RowKeys;
    if j < n {
      RowsPrefix(m, p, j, n - 1);
      RowsNext(m, p, n - 1);
    }
  }

  /** Points are numbered site by site. */
  lemma SiteAt(m: Mesh, p: Part, i: nat, j: nat)
    requires i <= p.nzx && j <= p.nzy
    ensures At(m, p, i, j) + |Ws(m, p, i, j)| <= |Keys(m, p)|
    ensures Keys(m, p)[At(m, p, i, j)..At(m, p, i, j) + |Ws(m, p, i, j)|] == SiteKeys(m, p, i, j)
  {
    hide Rows, RowKeys, Ws;
    RowNext(m, p, j, i);
    RowPrefix(m, p, j, i + 1, p.nzx + 1);
    RowsNext(m, p, j);
    RowsPrefix(m, p, j + 1, p.nzy + 1);
    var row := RowKeys(m, p, j, i) + SiteKeys(m, p, i, j);
    assert Rows(m, p, j) + row <= Rows(m, p, j + 1) <= Keys(m, p);
    PrefixSlice(Rows(m, p, j), RowKeys(m, p, j, i), SiteKeys(m, p, i, j), Keys(m, p));
  }

  lemma PrefixSlice(a: seq<Key>, b: seq<Key>, c: seq<Key>, all: seq<Key>)
    requires a + (b + c) <= all
    ensures |a| + |b| + |c| <= |all| && all[|a| + |b|..|a| + |b| + |c|] == c
  {
    assert all[..|a| + |b| + |c|] == a + (b + c);
  }

  /** Point t of site (i, j). */
  lemma PointAt(m: Mesh, p: Part, i: nat, j: nat, t: nat)
    requires i <= p.nzx && j <= p.nzy && t < |Ws(m, p, i, j)|
    ensures At(m, p, i, j) + t < |Keys(m, p)|
    ensures Keys(m, p)[At(m, p, i, j) + t] == KeyOf(m, p.zx + i, p.zy + j, Ws(m, p, i, j)[t])
  {
    SiteAt(m, p, i, j);
    hide Keys, Ws, At, KeyOf;
    assert Keys(m, p)[At(m, p, i, j)..At(m, p, i, j) + |Ws(m, p, i, j)|][t] == SiteKeys(m, p, i, j)[t];
  }

  lemma {:induction false} AtInRow(m: Mesh, p: Part, i: nat, k: nat, j: nat)
    requires i <= k
    ensures At(m, p, i, j) <= At(m, p, k, j)
    decreases k - i
  {
    hide At, Ws;
    if i < k {
      AtInRow(m, p, i, k - 1, j);
      AtNext(m, p, k - 1, j);
    }
  }

  lemma {:induction false} AtRows(m: Mesh, p: Part, j: nat, l: nat)
    requires j <= l
    ensures At(m, p, 0, j) <= At(m, p, 0, l)
    decreases l - j
  {
    hide At, Ws;
    if j < l {
      AtRows(m, p, j, l - 1);
      AtNext(m, p, 0, l - 1);
      AtInRow(m, p, 0, p.nzx + 1, l - 1);
    }
  }

  /** A later site's points come after all of an earlier one's. */
  lemma AtInOrder(m: Mesh, p: Part, i: nat, j: nat, k: nat, l: nat)
    requires i <= p.nzx && k <= p.nzx && (j < l || (j == l && i < k))
    ensures At(m, p, i, j) + |Ws(m, p, i, j)| <= At(m, p, k, l)
  {
    hide At, Ws;
    AtNext(m, p, i, j);
    if j == l {
      AtInRow(m, p, i + 1, k, j);
    } else {
      AtInRow(m, p, i + 1, p.nzx + 1, j);
      AtNext(m, p, 0, j);
      AtRows(m, p, j + 1, l);
      AtInRow(m, p, 0, k, l);
    }
  }

  /** Every point is at one site. */
  lemma FindSite(m: Mesh, p: Part, q: nat) returns (i: nat, j: nat, t: nat)
    requires q < |Keys(m, p)|
    ensures i <= p.nzx && j <= p.nzy && t < |Ws(m, p, i, j)| && q == At(m, p, i, j) + t
  {
    AtNext(m, p, 0, p.nzy);
    AtNext(m, p, 0, p.nzy + 1);
    assert q < At(m, p, 0, p.nzy + 1);
    hide At, Ws, Keys;
    j := 0;
    AtNext(m, p, 0, 0);
    while At(m, p, 0, j + 1) <= q
      invariant j <= p.nzy && At(m, p, 0, j) <= q
      decreases p.nzy - j
    {
      if j == p.nzy {
        assert false;
      }
      j := j + 1;
    }
    i := 0;
    AtNext(m, p, 0, j);
    while At(m, p, i + 1, j) <= q
      invariant i <= p.nzx && At(m, p, i, j) <= q
      decreases p.nzx - i
    {
      if i == p.nzx {
        assert false;
      }
      i := i + 1;
    }
    AtNext(m, p, i, j);
    t := q - At(m, p, i, j);
  }

  lemma SameSite(m: Mesh, p: Part, i: nat, j: nat, t: nat, k: nat, l: nat, u: nat)
    requires i <= p.nzx && k <= p.nzx && t < |Ws(m, p, i, j)| && u < |Ws(m, p, k, l)|
    requires At(m, p, i, j) + t == At(m, p, k, l) + u
    ensures i == k && j == l && t == u
  {
    hide At, Ws;
    if j < l || (j == l && i < k) {
      AtInOrder(m, p, i, j, k, l);
    } else if l < j || (j == l && k < i) {
      AtInOrder(m, p, k, l, i, j);
    }
  }

  /** The identity of a point tells its site in the whole mesh, except that the rays of
      a pie share their origin. */
  lemma KeyTells(m: Mesh, gi: nat, gj: nat, w: int, gk: nat, gl: nat, v: int)
    requires KeyOf(m, gi, gj, w) == KeyOf(m, gk, gl, v)
    ensures gj == gl
    ensures !(m.kind == Pie && gj == 0) ==> gi == gk && w == v
  {
  }

  /** No process has a point twice. */
  lemma KeysDiffer(m: Mesh, p: Part, q: nat, r: nat)
    requires q < |Keys(m, p)| && r < |Keys(m, p)| && Keys(m, p)[q] == Keys(m, p)[r]
    ensures q == r
  {
    hide Keys, At;
    var i, j, t := FindSite(m, p, q);
    var k, l, u := FindSite(m, p, r);
    PointAt(m, p, i, j, t);
    PointAt(m, p, k, l, u);
    KeyTells(m, p.zx + i, p.zy + j, Ws(m, p, i, j)[t], p.zx + k, p.zy + l, Ws(m, p, k, l)[u]);
  }
}
