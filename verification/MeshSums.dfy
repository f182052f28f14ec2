/** Summing corner values to points on a generated mesh, whatever the number of processes:
    from the generator to the values that every copy of a point ends up with. */
module MeshSums {
  import opened ZoneSplit
  import opened PointExchange
  import opened MeshPoints
  import opened MeshMatch
  import opened MeshBuild
  import opened MeshWorld
  import opened MeshMessages
  import opened MeshChunks
  import MC = MeshCorners
  import MS = MeshSides
  import CS = CornerSums
  import HT = HydroTotals
  import opened MeshGenerate
  import HexMesh

  /** A value for every corner of every zone of the whole mesh: of corner t of zone
      (gi, gj). */
  type Field = (nat, nat, nat) -> real

  // ----- the sum over the whole mesh

  /** What the first n corners of a zone give the point k. */
  ghost function ZoneFirst(g: Mesh, f: Field, k: Key, gi: nat, gj: nat, n: nat): real
    requires n <= |Corners(g, gi, gj)|
  {
    if n == 0 then 0.0
    else ZoneFirst(g, f, k, gi, gj, n - 1) + if Corners(g, gi, gj)[n - 1] == k then f(gi, gj, n - 1) else 0.0
  }

  ghost function ZoneTerm(g: Mesh, f: Field, k: Key, gi: nat, gj: nat): real {
    ZoneFirst(g, f, k, gi, gj, |Corners(g, gi, gj)|)
  }

  ghost function RowFirst(g: Mesh, f: Field, k: Key, gj: nat, lo: nat, n: nat): real {
    if n == 0 then 0.0 else RowFirst(g, f, k, gj, lo, n - 1) + ZoneTerm(g, f, k, lo + n - 1, gj)
  }

  /** What n zones of a row, from lo on, give it. */
  ghost function RowTerm(g: Mesh, f: Field, k: Key, gj: nat, lo: nat, n: nat): real {
    RowFirst(g, f, k, gj, lo, n)
  }

  ghost function BlockFirst(g: Mesh, f: Field, k: Key, xlo: nat, nx: nat, ylo: nat, ny: nat): real {
    if ny == 0 then 0.0 else BlockFirst(g, f, k, xlo, nx, ylo, ny - 1) + RowTerm(g, f, k, ylo + ny - 1, xlo, nx)
  }

  /** What a block of nx by ny zones gives it. */
  ghost function BlockTerm(g: Mesh, f: Field, k: Key, xlo: nat, nx: nat, ylo: nat, ny: nat): real {
    BlockFirst(g, f, k, xlo, nx, ylo, ny)
  }

  /** The mesh on a single process. */
  function Serial(m: Mesh): Mesh {
    Mesh(m.kind, m.gnzx, m.gnzy, 1, 1)
  }

  /** The sum of the corner values at a point, over all zones of the mesh. */
  ghost function MeshSum(g: Mesh, f: Field, k: Key): real {
    BlockTerm(g, f, k, 0, g.gnzx, 0, g.gnzy)
  }

  lemma CornersSerial(m: Mesh, gi: nat, gj: nat)
    ensures Corners(Serial(m), gi, gj) == Corners(m, gi, gj)
  {
  }

  lemma ZoneFirstNext(g: Mesh, f: Field, k: Key, gi: nat, gj: nat, n: nat)
    requires n < |Corners(g, gi, gj)|
    ensures ZoneFirst(g, f, k, gi, gj, n + 1) ==
            ZoneFirst(g, f, k, gi, gj, n) + if Corners(g, gi, gj)[n] == k then f(gi, gj, n) else 0.0
  {
    hide Corners;
  }

  lemma RowNextTerm(g: Mesh, f: Field, k: Key, gj: nat, lo: nat, n: nat)
    ensures RowTerm(g, f, k, gj, lo, 0) == 0.0
    ensures RowTerm(g, f, k, gj, lo, n + 1) == RowTerm(g, f, k, gj, lo, n) + ZoneTerm(g, f, k, lo + n, gj)
  {
    hide ZoneTerm;
  }

  lemma BlockNext(g: Mesh, f: Field, k: Key, xlo: nat, nx: nat, ylo: nat, ny: nat)
    ensures BlockTerm(g, f, k, xlo, nx, ylo, 0) == 0.0
    ensures BlockTerm(g, f, k, xlo, nx, ylo, ny + 1) ==
            BlockTerm(g, f, k, xlo, nx, ylo, ny) + RowTerm(g, f, k, ylo + ny, xlo, nx)
  {
    hide RowTerm;
  }

  lemma {:induction false} RowSplit(g: Mesh, f: Field, k: Key, gj: nat, lo: nat, n: nat, more: nat)
    ensures RowTerm(g, f, k, gj, lo, n + more) == RowTerm(g, f, k, gj, lo, n) + RowTerm(g, f, k, gj, lo + n, more)
  {
    hide *;
    RowNextTerm(g, f, k, gj, lo + n, 0);
    if more > 0 {
      RowSplit(g, f, k, gj, lo, n, more - 1);
      RowNextTerm(g, f, k, gj, lo, n + more - 1);
      RowNextTerm(g, f, k, gj, lo + n, more - 1);
      assert lo + (n + more - 1) == lo + n + (more - 1);
    }
  }

  /** Blocks side by side. */
  lemma {:induction false} BlockSplitX(g: Mesh, f: Field, k: Key, xlo: nat, nx: nat, more: nat, ylo: nat, ny: nat)
    ensures BlockTerm(g, f, k, xlo, nx + more, ylo, ny) ==
            BlockTerm(g, f, k, xlo, nx, ylo, ny) + BlockTerm(g, f, k, xlo + nx, more, ylo, ny)
  {
    hide *;
    BlockNext(g, f, k, xlo, nx + more, ylo, 0);
    BlockNext(g, f, k, xlo, nx, ylo, 0);
    BlockNext(g, f, k, xlo + nx, more, ylo, 0);
    if ny > 0 {
      BlockSplitX(g, f, k, xlo, nx, more, ylo, ny - 1);
      BlockNext(g, f, k, xlo, nx + more, ylo, ny - 1);
      BlockNext(g, f, k, xlo, nx, ylo, ny - 1);
      BlockNext(g, f, k, xlo + nx, more, ylo, ny - 1);
      RowSplit(g, f, k, ylo + (ny - 1), xlo, nx, more);
    }
  }

  /** Blocks one above the other. */
  lemma {:induction false} BlockSplitY(g: Mesh, f: Field, k: Key, xlo: nat, nx: nat, ylo: nat, ny: nat, more: nat)
    ensures BlockTerm(g, f, k, xlo, nx, ylo, ny + more) ==
            BlockTerm(g, f, k, xlo, nx, ylo, ny) + BlockTerm(g, f, k, xlo, nx, ylo + ny, more)
  {
    hide *;
    BlockNext(g, f, k, xlo, nx, ylo + ny, 0);
    if more > 0 {
      BlockSplitY(g, f, k, xlo, nx, ylo, ny, more - 1);
      BlockNext(g, f, k, xlo, nx, ylo, ny + more - 1);
      BlockNext(g, f, k, xlo, nx, ylo + ny, more - 1);
      assert ylo + (ny + more - 1) == ylo + ny + (more - 1);
    }
  }

  /** A block without columns. */
  lemma {:induction false} BlockNarrow(g: Mesh, f: Field, k: Key, xlo: nat, ylo: nat, ny: nat)
    ensures BlockTerm(g, f, k, xlo, 0, ylo, ny) == 0.0
  {
    hide *;
    BlockNext(g, f, k, xlo, 0, ylo, 0);
    if ny > 0 {
      BlockNarrow(g, f, k, xlo, ylo, ny - 1);
      BlockNext(g, f, k, xlo, 0, ylo, ny - 1);
      RowNextTerm(g, f, k, ylo + (ny - 1), xlo, 0);
    }
  }

  // ----- the sum over the blocks of all processes

  /** What the block of process (mx, my) gives the point. */
  ghost function PartTerm(m: Mesh, f: Field, k: Key, mx: nat, my: nat): real
    requires ValidMesh(m)
  {
    BlockTerm(Serial(m), f, k, Start(mx, m.gnzx, m.numpex), Zones(mx, m.gnzx, m.numpex), Start(my, m.gnzy, m.numpey),
              Zones(my, m.gnzy, m.numpey))
  }

  /** Every process has what its block gives. */
  ghost predicate Parts(m: Mesh, f: Field, k: Key, vals: seq<real>) {
    && ValidMesh(m) && |vals| == NumPe(m)
    && forall a :: 0 <= a < |vals| ==> vals[a] == PartTerm(m, f, k, XOf(m, a), YOf(m, a))
  }

  lemma PartIs(m: Mesh, f: Field, k: Key, vals: seq<real>, mx: nat, my: nat)
    requires Parts(m, f, k, vals) && OnGrid(m, mx, my)
    ensures ValidMesh(m) && Rank(m, mx, my) < |vals| && vals[Rank(m, mx, my)] == PartTerm(m, f, k, mx, my)
  {
    RankInside(m, mx, my);
    hide PartTerm, XOf, YOf, Rank;
  }

  lemma AddNext(vals: seq<real>, n: nat)
    requires n < |vals|
    ensures AddFirst(vals, 0) == 0.0 && AddFirst(vals, n + 1) == AddFirst(vals, n) + vals[n]
  {
  }

  /** What the first n columns of process row my give the point. */
  ghost function ColumnsTo(m: Mesh, f: Field, k: Key, my: nat, n: nat): real
    requires ValidMesh(m)
  {
    BlockTerm(Serial(m), f, k, 0, Start(n, m.gnzx, m.numpex), Start(my, m.gnzy, m.numpey), Zones(my, m.gnzy, m.numpey))
  }

  lemma ZonesUpTo(k: nat, g: nat, n: nat)
    requires 1 <= n <= g
    ensures Start(k + 1, g, n) == Start(k, g, n) + Zones(k, g, n)
  {
    StartGrows(k, g, n);
    hide Start;
  }

  lemma ColumnsAre(m: Mesh, f: Field, k: Key, my: nat, n: nat)
    requires ValidMesh(m)
    ensures ColumnsTo(m, f, k, my, n) ==
            BlockTerm(Serial(m), f, k, 0, Start(n, m.gnzx, m.numpex), Start(my, m.gnzy, m.numpey),
                      Zones(my, m.gnzy, m.numpey))
    ensures PartTerm(m, f, k, n, my) ==
            BlockTerm(Serial(m), f, k, Start(n, m.gnzx, m.numpex), Zones(n, m.gnzx, m.numpex),
                      Start(my, m.gnzy, m.numpey), Zones(my, m.gnzy, m.numpey))
    ensures Start(n + 1, m.gnzx, m.numpex) == Start(n, m.gnzx, m.numpex) + Zones(n, m.gnzx, m.numpex)
  {
    ZonesUpTo(n, m.gnzx, m.numpex);
    hide Start, BlockTerm, Serial, Zones;
  }

  lemma ColumnsNext(m: Mesh, f: Field, k: Key, mx: nat, my: nat)
    requires ValidMesh(m) && OnGrid(m, mx, my)
    ensures ColumnsTo(m, f, k, my, mx + 1) == ColumnsTo(m, f, k, my, mx) + PartTerm(m, f, k, mx, my)
  {
    GridValid(m);
    hide *;
    ColumnsAre(m, f, k, my, mx);
    ColumnsAre(m, f, k, my, mx + 1);
    BlockSplitX(Serial(m), f, k, 0, Start(mx, m.gnzx, m.numpex), Zones(mx, m.gnzx, m.numpex),
                Start(my, m.gnzy, m.numpey), Zones(my, m.gnzy, m.numpey));
  }

  lemma GridValid(m: Mesh)
    requires ValidMesh(m)
    ensures 1 <= m.numpex <= m.gnzx && 1 <= m.numpey <= m.gnzy
  {
  }

  lemma ColumnsNone(m: Mesh, f: Field, k: Key, my: nat)
    requires ValidMesh(m)
    ensures ColumnsTo(m, f, k, my, 0) == 0.0
  {
    StartEnds(m.gnzx, m.numpex);
    BlockNarrow(Serial(m), f, k, 0, Start(my, m.gnzy, m.numpey), Zones(my, m.gnzy, m.numpey));
    hide Start, BlockTerm;
  }

  /** One more process of a row. */
  lemma OneMoreRank(m: Mesh, f: Field, k: Key, vals: seq<real>, mx: nat, my: nat)
    requires Parts(m, f, k, vals) && OnGrid(m, mx, my) && ValidMesh(m) && Rank(m, mx, my) <= |vals|
    requires AddFirst(vals, Rank(m, mx, my)) == AddFirst(vals, Rank(m, 0, my)) + ColumnsTo(m, f, k, my, mx)
    ensures Rank(m, mx + 1, my) <= |vals|
    ensures AddFirst(vals, Rank(m, mx + 1, my)) == AddFirst(vals, Rank(m, 0, my)) + ColumnsTo(m, f, k, my, mx + 1)
  {
    hide *;
    PartIs(m, f, k, vals, mx, my);
    AddNext(vals, Rank(m, mx, my));
    ColumnsNext(m, f, k, mx, my);
    RankNext(m, mx, my);
  }

  /** The first n processes of a row. */
  lemma {:induction false} RanksOfRow(m: Mesh, f: Field, k: Key, vals: seq<real>, my: nat, n: nat)
    requires Parts(m, f, k, vals) && my < m.numpey && n <= m.numpex && ValidMesh(m)
    ensures Rank(m, 0, my) <= |vals| && Rank(m, n, my) <= |vals|
    ensures AddFirst(vals, Rank(m, n, my)) == AddFirst(vals, Rank(m, 0, my)) + ColumnsTo(m, f, k, my, n)
  {
    hide *;
    GridHas(m, my);
    PartIs(m, f, k, vals, 0, my);
    if n == 0 {
      ColumnsNone(m, f, k, my);
    } else {
      RanksOfRow(m, f, k, vals, my, n - 1);
      GridAt(m, n - 1, my);
      OneMoreRank(m, f, k, vals, n - 1, my);
    }
  }

  lemma PartsMean(m: Mesh, f: Field, k: Key, vals: seq<real>)
    requires Parts(m, f, k, vals)
    ensures ValidMesh(m) && |vals| == NumPe(m) && m.numpex >= 1 && m.numpey >= 1
  {
  }

  lemma GridHas(m: Mesh, my: nat)
    requires ValidMesh(m) && my < m.numpey
    ensures OnGrid(m, 0, my)
  {
  }

  lemma GridAt(m: Mesh, mx: nat, my: nat)
    requires mx < m.numpex && my < m.numpey
    ensures OnGrid(m, mx, my)
  {
  }

  lemma RankNext(m: Mesh, mx: nat, my: nat)
    ensures Rank(m, mx + 1, my) == Rank(m, mx, my) + 1
    ensures Rank(m, 0, my + 1) == Rank(m, m.numpex, my)
    ensures Rank(m, 0, 0) == 0 && Rank(m, 0, m.numpey) == NumPe(m)
  {
    assert (my + 1) * m.numpex == my * m.numpex + m.numpex;
  }

  /** What the first n process rows give the point. */
  ghost function RowsTo(m: Mesh, f: Field, k: Key, n: nat): real
    requires ValidMesh(m)
  {
    BlockTerm(Serial(m), f, k, 0, m.gnzx, 0, Start(n, m.gnzy, m.numpey))
  }

  lemma RowsNone(m: Mesh, f: Field, k: Key)
    requires ValidMesh(m)
    ensures RowsTo(m, f, k, 0) == 0.0
    ensures RowsTo(m, f, k, m.numpey) == MeshSum(Serial(m), f, k)
  {
    StartEnds(m.gnzy, m.numpey);
    hide Start, BlockTerm;
    BlockNext(Serial(m), f, k, 0, m.gnzx, 0, 0);
  }

  lemma RowsAre(m: Mesh, f: Field, k: Key, n: nat)
    requires ValidMesh(m)
    ensures RowsTo(m, f, k, n) == BlockTerm(Serial(m), f, k, 0, m.gnzx, 0, Start(n, m.gnzy, m.numpey))
    ensures Start(n + 1, m.gnzy, m.numpey) == Start(n, m.gnzy, m.numpey) + Zones(n, m.gnzy, m.numpey)
    ensures Start(m.numpex, m.gnzx, m.numpex) == m.gnzx
  {
    ZonesUpTo(n, m.gnzy, m.numpey);
    StartEnds(m.gnzx, m.numpex);
    hide Start, BlockTerm, Serial, Zones;
  }

  lemma NextRow(m: Mesh, f: Field, k: Key, my: nat)
    requires ValidMesh(m) && my < m.numpey
    ensures RowsTo(m, f, k, my + 1) == RowsTo(m, f, k, my) + ColumnsTo(m, f, k, my, m.numpex)
  {
    GridValid(m);
    hide *;
    RowsAre(m, f, k, my);
    RowsAre(m, f, k, my + 1);
    ColumnsAre(m, f, k, my, m.numpex);
    BlockSplitY(Serial(m), f, k, 0, m.gnzx, 0, Start(my, m.gnzy, m.numpey), Zones(my, m.gnzy, m.numpey));
  }

  /** The processes of the first n rows. */
  lemma {:induction false} RanksOfRows(m: Mesh, f: Field, k: Key, vals: seq<real>, n: nat)
    requires Parts(m, f, k, vals) && n <= m.numpey && ValidMesh(m)
    ensures Rank(m, 0, n) <= |vals|
    ensures AddFirst(vals, Rank(m, 0, n)) == RowsTo(m, f, k, n)
  {
    hide *;
    if n == 0 {
      RankNext(m, 0, 0);
      AddNone(vals);
      RowsNone(m, f, k);
    } else {
      RanksOfRows(m, f, k, vals, n - 1);
      RanksOfRow(m, f, k, vals, n - 1, m.numpex);
      RankNext(m, 0, n - 1);
      NextRow(m, f, k, n - 1);
    }
  }

  lemma AddNone(vals: seq<real>)
    ensures AddFirst(vals, 0) == 0.0
  {
  }

  /** The blocks of all processes make up the mesh: what they give a point adds up to the
      sum over the whole mesh. */
  lemma PartsAddUp(m: Mesh, f: Field, k: Key, vals: seq<real>)
    requires Parts(m, f, k, vals)
    ensures AddAll(vals) == MeshSum(Serial(m), f, k)
  {
    PartsMean(m, f, k, vals);
    hide MeshSum, RowsTo, Parts, Start, AddFirst, Rank, NumPe;
    RanksOfRows(m, f, k, vals, m.numpey);
    RankNext(m, 0, 0);
    RowsNone(m, f, k);
  }

  // ----- the sum over one block

  /** What the first n corners of a process give the point k. */
  ghost function KeySum(keys: seq<Key>, points: seq<nat>, cv: seq<real>, k: Key, n: nat): real
    requires n <= |points| == |cv|
  {
    if n == 0 then 0.0
    else
      KeySum(keys, points, cv, k, n - 1)
      + if points[n - 1] < |keys| && keys[points[n - 1]] == k then cv[n - 1] else 0.0
  }

  lemma KeySumNext(keys: seq<Key>, points: seq<nat>, cv: seq<real>, k: Key, n: nat)
    requires n < |points| == |cv|
    ensures KeySum(keys, points, cv, k, n + 1) ==
            KeySum(keys, points, cv, k, n) + if points[n] < |keys| && keys[points[n]] == k then cv[n] else 0.0
  {
  }

  lemma KeySumNone(keys: seq<Key>, points: seq<nat>, cv: seq<real>, k: Key)
    requires |points| == |cv|
    ensures KeySum(keys, points, cv, k, 0) == 0.0
  {
  }

  /** The local number of zone (i, j) of a block. */
  ghost function ZoneNumber(m: Mesh, p: Part, i: nat, j: nat): nat {
    |ZoneRows(m, p, j)| + i
  }

  /** Zones are numbered row by row. */
  lemma {:induction false} ZoneNumberIs(m: Mesh, p: Part, i: nat, j: nat)
    ensures ZoneNumber(m, p, i, j) == j * p.nzx + i
  {
    hide ZoneRows, ZoneRow;
    ZoneNext(m, p, 0, 0);
    if j > 0 {
      ZoneNumberIs(m, p, i, j - 1);
      ZoneNext(m, p, j - 1, 0);
      MC.RowLength(m, p, j - 1, p.nzx);
      assert (j - 1) * p.nzx + p.nzx == j * p.nzx;
    }
  }

  /** Zone z of the lists has the corners of zone (gi, gj), and their values are the
      field's. */
  ghost predicate FieldAt(m: Mesh, zl: ZoneLists, f: Field, cv: seq<real>, z: nat, gi: nat, gj: nat) {
    && z < |zl.start| && zl.start[z] + |Corners(m, gi, gj)| <= |cv|
    && forall t :: 0 <= t < |Corners(m, gi, gj)| ==> cv[zl.start[z] + t] == f(gi, gj, t)
  }

  /** A process's corner values are those of the field. */
  ghost predicate FieldOn(m: Mesh, p: Part, zl: ZoneLists, f: Field, cv: seq<real>) {
    && |cv| == |zl.points|
    && forall i: nat, j: nat :: i < p.nzx && j < p.nzy ==>
         FieldAt(m, zl, f, cv, ZoneNumber(m, p, i, j), p.zx + i, p.zy + j)
  }

  /** The lists of one process. */
  ghost predicate Lists(m: Mesh, p: Part, zl: ZoneLists, f: Field, cv: seq<real>) {
    ListsZones(Keys(m, p), zl, ZoneRows(m, p, p.nzy)) && FieldOn(m, p, zl, f, cv)
  }

  lemma ListsMean(m: Mesh, p: Part, zl: ZoneLists, f: Field, cv: seq<real>)
    requires Lists(m, p, zl, f, cv)
    ensures |cv| == |zl.points| && MS.Layout(zl.start, zl.size, |zl.points|)
    ensures |zl.start| == |zl.size| == |ZoneRows(m, p, p.nzy)| && |zl.points| == MS.Start(zl.size, |zl.size|)
  {
    MS.LayoutTotal(zl.start, zl.size, |zl.points|);
    hide Keys, ZoneRows, MS.Layout, MS.Start;
  }

  /** Zone (i, j) in the lists. */
  lemma {:induction false} ZoneAt(m: Mesh, p: Part, i: nat, j: nat, n: nat)
    requires i < p.nzx && j < n
    ensures ZoneNumber(m, p, i, j) < |ZoneRows(m, p, n)|
    ensures ZoneRows(m, p, n)[ZoneNumber(m, p, i, j)] == Corners(m, p.zx + i, p.zy + j)
  {
    hide ZoneRow, ZoneRows, Corners;
    ZoneNext(m, p, n - 1, 0);
    MC.RowLength(m, p, n - 1, p.nzx);
    if j < n - 1 {
      ZoneAt(m, p, i, j, n - 1);
    }
  }

  /** The corner t places behind base is corner t of zone (gi, gj), with the field's
      value. */
  ghost predicate CornerHeld(m: Mesh, keys: seq<Key>, points: seq<nat>, f: Field, cv: seq<real>, gi: nat, gj: nat,
                             base: nat, t: nat) {
    && base + t < |points| == |cv| && t < |Corners(m, gi, gj)| && points[base + t] < |keys|
    && keys[points[base + t]] == Corners(m, gi, gj)[t] && cv[base + t] == f(gi, gj, t)
  }

  /** The first n corners of a zone, from base on. */
  ghost predicate ZoneHeld(m: Mesh, keys: seq<Key>, points: seq<nat>, f: Field, cv: seq<real>, gi: nat, gj: nat,
                           base: nat, n: nat) {
    && n <= |Corners(m, gi, gj)| && base + n <= |points| == |cv|
    && forall t: nat :: t < n ==> CornerHeld(m, keys, points, f, cv, gi, gj, base, t)
  }

  /** The corners of zone (i, j) and their values. */
  lemma ZoneHolds(m: Mesh, p: Part, zl: ZoneLists, f: Field, cv: seq<real>, i: nat, j: nat)
    requires Lists(m, p, zl, f, cv) && i < p.nzx && j < p.nzy && |cv| == |zl.points| && |zl.start| == |zl.size|
    ensures var z := ZoneNumber(m, p, i, j);
            && z < |zl.start| && zl.size[z] == |Corners(m, p.zx + i, p.zy + j)| && zl.start[z] + zl.size[z] <= |cv|
            && ZoneHeld(m, Keys(m, p), zl.points, f, cv, p.zx + i, p.zy + j, zl.start[z], zl.size[z])
  {
    hide Keys, ZoneRows, MS.Layout, Corners, ZoneNumber;
    ZoneAt(m, p, i, j, p.nzy);
    var z, gi, gj := ZoneNumber(m, p, i, j), p.zx + i, p.zy + j;
    var ks := Corners(m, gi, gj);
    assert ListsZone(Keys(m, p), zl, z, ks);
    assert FieldAt(m, zl, f, cv, z, gi, gj);
    var a, n := zl.start[z], zl.size[z];
    forall t: nat | t < |ks|
      ensures CornerHeld(m, Keys(m, p), zl.points, f, cv, gi, gj, a, t)
    {
      assert zl.points[a..a + n][t] == zl.points[a + t];
      assert zl.points[a..a + n][t] < |Keys(m, p)| && Keys(m, p)[zl.points[a..a + n][t]] == ks[t];
    }
  }

  lemma HeldLess(m: Mesh, keys: seq<Key>, points: seq<nat>, f: Field, cv: seq<real>, gi: nat, gj: nat, base: nat,
                 n: nat)
    requires ZoneHeld(m, keys, points, f, cv, gi, gj, base, n + 1)
    ensures ZoneHeld(m, keys, points, f, cv, gi, gj, base, n)
    ensures CornerHeld(m, keys, points, f, cv, gi, gj, base, n)
    ensures n < |Corners(m, gi, gj)| && base + n < |points| == |cv|
  {
    hide Corners, CornerHeld;
  }

  /** One more corner of a zone. */
  lemma SumOfCorner(m: Mesh, keys: seq<Key>, points: seq<nat>, f: Field, cv: seq<real>, k: Key, gi: nat, gj: nat,
                    base: nat, n: nat)
    requires CornerHeld(m, keys, points, f, cv, gi, gj, base, n) && n <= |Corners(Serial(m), gi, gj)|
    requires base + n < |points| == |cv|
    requires KeySum(keys, points, cv, k, base + n) ==
             KeySum(keys, points, cv, k, base) + ZoneFirst(Serial(m), f, k, gi, gj, n)
    ensures n + 1 <= |Corners(Serial(m), gi, gj)|
    ensures KeySum(keys, points, cv, k, base + n + 1) ==
            KeySum(keys, points, cv, k, base) + ZoneFirst(Serial(m), f, k, gi, gj, n + 1)
  {
    CornersSerial(m, gi, gj);
    hide Corners, KeySum, ZoneFirst, Serial;
    KeySumNext(keys, points, cv, k, base + n);
    ZoneFirstNext(Serial(m), f, k, gi, gj, n);
  }

  lemma {:induction false} SumOfZone(m: Mesh, keys: seq<Key>, points: seq<nat>, f: Field, cv: seq<real>, k: Key,
                                     gi: nat, gj: nat, base: nat, n: nat)
    requires ZoneHeld(m, keys, points, f, cv, gi, gj, base, n) && base + n <= |points| == |cv|
    ensures n <= |Corners(Serial(m), gi, gj)|
    ensures KeySum(keys, points, cv, k, base + n) ==
            KeySum(keys, points, cv, k, base) + ZoneFirst(Serial(m), f, k, gi, gj, n)
  {
    hide *;
    if n == 0 {
      NoCorner(Serial(m), f, k, gi, gj);
    } else {
      HeldLess(m, keys, points, f, cv, gi, gj, base, n - 1);
      SumOfZone(m, keys, points, f, cv, k, gi, gj, base, n - 1);
      SumOfCorner(m, keys, points, f, cv, k, gi, gj, base, n - 1);
    }
  }

  lemma NoCorner(g: Mesh, f: Field, k: Key, gi: nat, gj: nat)
    ensures ZoneFirst(g, f, k, gi, gj, 0) == 0.0
  {
  }

  /** The sides of the zones before zone number z. */
  ghost function SumBefore(m: Mesh, p: Part, zl: ZoneLists, cv: seq<real>, k: Key, z: nat): real
    requires |cv| == |zl.points| && z <= |zl.size| && MS.Start(zl.size, z) <= |cv|
  {
    KeySum(Keys(m, p), zl.points, cv, k, MS.Start(zl.size, z))
  }

  lemma SumOfListed(m: Mesh, p: Part, zl: ZoneLists, f: Field, cv: seq<real>, k: Key, i: nat, j: nat)
    requires Lists(m, p, zl, f, cv) && i < p.nzx && j < p.nzy && |cv| == |zl.points| && |zl.start| == |zl.size|
    ensures var z := ZoneNumber(m, p, i, j);
            && z < |zl.start| && zl.start[z] + zl.size[z] <= |cv|
            && KeySum(Keys(m, p), zl.points, cv, k, zl.start[z] + zl.size[z]) ==
               KeySum(Keys(m, p), zl.points, cv, k, zl.start[z]) +
               ZoneTerm(Serial(m), f, k, p.zx + i, p.zy + j)
  {
    hide Lists, Keys, Corners, ZoneNumber, KeySum, ZoneFirst, Serial;
    ZoneHolds(m, p, zl, f, cv, i, j);
    var z := ZoneNumber(m, p, i, j);
    CornersSerial(m, p.zx + i, p.zy + j);
    SumOfZone(m, Keys(m, p), zl.points, f, cv, k, p.zx + i, p.zy + j, zl.start[z], zl.size[z]);
  }

  lemma SumOfOneZone(m: Mesh, p: Part, zl: ZoneLists, f: Field, cv: seq<real>, k: Key, i: nat, j: nat)
    requires Lists(m, p, zl, f, cv) && i < p.nzx && j < p.nzy
    ensures |cv| == |zl.points|
    ensures var z := ZoneNumber(m, p, i, j);
            && z < |zl.size| && MS.Start(zl.size, z) <= |cv| && MS.Start(zl.size, z + 1) <= |cv|
            && SumBefore(m, p, zl, cv, k, z + 1) ==
               SumBefore(m, p, zl, cv, k, z) + ZoneTerm(Serial(m), f, k, p.zx + i, p.zy + j)
  {
    hide Lists, Keys, ZoneRows, MS.Layout, MS.Start, Corners, ZoneNumber, KeySum, ZoneTerm, Serial;
    ListsMean(m, p, zl, f, cv);
    SumOfListed(m, p, zl, f, cv, k, i, j);
    var z := ZoneNumber(m, p, i, j);
    MS.StartNext(zl.size, z);
    MS.LayoutAt(zl.start, zl.size, |zl.points|, z);
  }

  lemma StartsFit(m: Mesh, p: Part, zl: ZoneLists, f: Field, cv: seq<real>, z: nat)
    requires Lists(m, p, zl, f, cv) && z <= |zl.size|
    ensures |cv| == |zl.points| && MS.Start(zl.size, z) <= |cv|
  {
    hide Lists, ZoneRows, MS.Layout, MS.Start;
    ListsMean(m, p, zl, f, cv);
    MS.StartsInOrder(zl.size, z, |zl.size|);
  }

  /** The zones before zone (n, j), of row j. */
  lemma {:induction false} SumOfRow(m: Mesh, p: Part, zl: ZoneLists, f: Field, cv: seq<real>, k: Key, j: nat, n: nat)
    requires Lists(m, p, zl, f, cv) && j < p.nzy && n <= p.nzx && p.nzx >= 1
    ensures |cv| == |zl.points|
    ensures var z := ZoneNumber(m, p, 0, j);
            && z + n <= |zl.size| && MS.Start(zl.size, z) <= |cv| && MS.Start(zl.size, z + n) <= |cv|
            && SumBefore(m, p, zl, cv, k, z + n) ==
               SumBefore(m, p, zl, cv, k, z) + RowTerm(Serial(m), f, k, p.zy + j, p.zx, n)
  {
    hide *;
    RowNextTerm(Serial(m), f, k, p.zy + j, p.zx, 0);
    if n == 0 {
      SumOfOneZone(m, p, zl, f, cv, k, 0, j);
    } else {
      SumOfRow(m, p, zl, f, cv, k, j, n - 1);
      NumbersRun(m, p, n - 1, j);
      SumOfOneZone(m, p, zl, f, cv, k, n - 1, j);
      RowNextTerm(Serial(m), f, k, p.zy + j, p.zx, n - 1);
    }
  }

  lemma NumbersRun(m: Mesh, p: Part, i: nat, j: nat)
    ensures ZoneNumber(m, p, i, j) == ZoneNumber(m, p, 0, j) + i
  {
    hide ZoneRows;
  }

  lemma RowsRun(m: Mesh, p: Part, j: nat)
    ensures ZoneNumber(m, p, 0, 0) == 0
    ensures ZoneNumber(m, p, 0, j + 1) == ZoneNumber(m, p, 0, j) + p.nzx
    ensures ZoneNumber(m, p, 0, j) == |ZoneRows(m, p, j)|
  {
    hide ZoneRow, ZoneRows;
    ZoneNext(m, p, j, 0);
    MC.RowLength(m, p, j, p.nzx);
  }

  /** The zones of the first n rows. */
  lemma {:induction false} SumOfRows(m: Mesh, p: Part, zl: ZoneLists, f: Field, cv: seq<real>, k: Key, n: nat)
    requires Lists(m, p, zl, f, cv) && n <= p.nzy && p.nzx >= 1
    ensures |cv| == |zl.points|
    ensures var z := ZoneNumber(m, p, 0, n);
            && z <= |zl.size| && MS.Start(zl.size, z) <= |cv|
            && SumBefore(m, p, zl, cv, k, z) == BlockTerm(Serial(m), f, k, p.zx, p.nzx, p.zy, n)
  {
    hide *;
    BlockNext(Serial(m), f, k, p.zx, p.nzx, p.zy, 0);
    if n == 0 {
      ListsMean(m, p, zl, f, cv);
      RowsRun(m, p, 0);
      StartsFit(m, p, zl, f, cv, 0);
      NothingBefore(m, p, zl, cv, k);
    } else {
      SumOfRows(m, p, zl, f, cv, k, n - 1);
      SumOfRow(m, p, zl, f, cv, k, n - 1, p.nzx);
      RowsRun(m, p, n - 1);
      BlockNext(Serial(m), f, k, p.zx, p.nzx, p.zy, n - 1);
    }
  }

  lemma NothingBefore(m: Mesh, p: Part, zl: ZoneLists, cv: seq<real>, k: Key)
    requires |cv| == |zl.points|
    ensures MS.Start(zl.size, 0) <= |cv| && SumBefore(m, p, zl, cv, k, 0) == 0.0
  {
    hide Keys;
  }

  /** All corners of a process. */
  lemma SumOfBlock(m: Mesh, p: Part, zl: ZoneLists, f: Field, cv: seq<real>, k: Key)
    requires Lists(m, p, zl, f, cv) && p.nzx >= 1
    ensures |cv| == |zl.points|
    ensures KeySum(Keys(m, p), zl.points, cv, k, |cv|) == BlockTerm(Serial(m), f, k, p.zx, p.nzx, p.zy, p.nzy)
  {
    hide Lists, Keys, ZoneRows, MS.Layout, MS.Start, KeySum, BlockTerm, Serial, ZoneNumber;
    SumOfRows(m, p, zl, f, cv, k, p.nzy);
    ListsMean(m, p, zl, f, cv);
    RowsRun(m, p, p.nzy);
  }

  // ----- any field can be held

  /** The zones of the block before zone (i, j). */
  predicate IsBefore(x: nat, y: nat, i: nat, j: nat) {
    y < j || (y == j && x < i)
  }

  ghost predicate FieldTo(m: Mesh, p: Part, zl: ZoneLists, f: Field, cv: seq<real>, i: nat, j: nat) {
    forall x: nat, y: nat :: x < p.nzx && y < p.nzy && IsBefore(x, y, i, j) ==>
      FieldAt(m, zl, f, cv, ZoneNumber(m, p, x, y), p.zx + x, p.zy + y)
  }

  lemma FieldStays(m: Mesh, zl: ZoneLists, f: Field, cv: seq<real>, more: seq<real>, z: nat, gi: nat, gj: nat)
    requires FieldAt(m, zl, f, cv, z, gi, gj)
    ensures FieldAt(m, zl, f, cv + more, z, gi, gj)
  {
    hide Corners;
  }

  ghost function ZoneValues(m: Mesh, f: Field, gi: nat, gj: nat): seq<real> {
    seq(|Corners(m, gi, gj)|, t requires 0 <= t < |Corners(m, gi, gj)| => f(gi, gj, t))
  }

  lemma FieldAdded(m: Mesh, zl: ZoneLists, f: Field, cv: seq<real>, z: nat, gi: nat, gj: nat)
    requires z < |zl.start| && |cv| == zl.start[z]
    ensures FieldAt(m, zl, f, cv + ZoneValues(m, f, gi, gj), z, gi, gj)
  {
    hide Corners;
  }

  /** Where the values of zone (i, j) go. */
  lemma ZoneRoom(m: Mesh, p: Part, zl: ZoneLists, f: Field, cv: seq<real>, i: nat, j: nat)
    requires ListsZones(Keys(m, p), zl, ZoneRows(m, p, p.nzy)) && i < p.nzx && j < p.nzy
    requires ZoneNumber(m, p, i, j) < |zl.size| && |cv| == MS.Start(zl.size, ZoneNumber(m, p, i, j))
    ensures ZoneNumber(m, p, i, j) < |zl.start| && |cv| == zl.start[ZoneNumber(m, p, i, j)]
    ensures |cv + ZoneValues(m, f, p.zx + i, p.zy + j)| == MS.Start(zl.size, ZoneNumber(m, p, i, j) + 1)
  {
    var z, ks := ZoneNumber(m, p, i, j), Corners(m, p.zx + i, p.zy + j);
    ZoneAt(m, p, i, j, p.nzy);
    MS.StartNext(zl.size, z);
    MS.LayoutAt(zl.start, zl.size, |zl.points|, z);
    assert ListsZone(Keys(m, p), zl, z, ks);
    hide Keys, ZoneRows, MS.Layout, MS.Start, ListsEach, Corners, ZoneNumber;
  }

  /** The values of one more zone. */
  lemma FieldMore(m: Mesh, p: Part, zl: ZoneLists, f: Field, cv: seq<real>, i: nat, j: nat) returns (next: seq<real>)
    requires ListsZones(Keys(m, p), zl, ZoneRows(m, p, p.nzy)) && i < p.nzx && j < p.nzy
    requires ZoneNumber(m, p, i, j) < |zl.size| && |cv| == MS.Start(zl.size, ZoneNumber(m, p, i, j))
    requires FieldTo(m, p, zl, f, cv, i, j)
    ensures |next| == MS.Start(zl.size, ZoneNumber(m, p, i, j) + 1) && FieldTo(m, p, zl, f, next, i + 1, j)
  {
    ZoneRoom(m, p, zl, f, cv, i, j);
    next := cv + ZoneValues(m, f, p.zx + i, p.zy + j);
    FieldAdded(m, zl, f, cv, ZoneNumber(m, p, i, j), p.zx + i, p.zy + j);
    hide *;
    FieldGrows(m, p, zl, f, cv, ZoneValues(m, f, p.zx + i, p.zy + j), i, j);
  }

  lemma FieldGrows(m: Mesh, p: Part, zl: ZoneLists, f: Field, cv: seq<real>, more: seq<real>, i: nat, j: nat)
    requires FieldTo(m, p, zl, f, cv, i, j)
    requires FieldAt(m, zl, f, cv + more, ZoneNumber(m, p, i, j), p.zx + i, p.zy + j)
    ensures FieldTo(m, p, zl, f, cv + more, i + 1, j)
  {
    hide FieldAt, ZoneNumber;
    forall x: nat, y: nat | x < p.nzx && y < p.nzy && IsBefore(x, y, i + 1, j)
      ensures FieldAt(m, zl, f, cv + more, ZoneNumber(m, p, x, y), p.zx + x, p.zy + y)
    {
      if IsBefore(x, y, i, j) {
        FieldStays(m, zl, f, cv, more, ZoneNumber(m, p, x, y), p.zx + x, p.zy + y);
      }
    }
  }

  /** Whatever the field, the corners of a process can hold its values. */
  lemma FieldExists(m: Mesh, p: Part, zl: ZoneLists, f: Field) returns (cv: seq<real>)
    requires ListsZones(Keys(m, p), zl, ZoneRows(m, p, p.nzy)) && p.nzx >= 1
    ensures FieldOn(m, p, zl, f, cv)
  {
    hide *;
    cv := [];
    RowsRun(m, p, 0);
    ListsSize(m, p, zl);
    NothingYet(m, p, zl, f);
    for j := 0 to p.nzy
      invariant ZoneNumber(m, p, 0, j) <= |zl.size| && |cv| == MS.Start(zl.size, ZoneNumber(m, p, 0, j))
      invariant FieldTo(m, p, zl, f, cv, 0, j)
    {
      for i := 0 to p.nzx
        invariant ZoneNumber(m, p, 0, j) + i <= |zl.size|
        invariant |cv| == MS.Start(zl.size, ZoneNumber(m, p, 0, j) + i)
        invariant FieldTo(m, p, zl, f, cv, i, j)
      {
        NumbersRun(m, p, i, j);
        ZoneAt(m, p, i, j, p.nzy);
        cv := FieldMore(m, p, zl, f, cv, i, j);
      }
      RowsRun(m, p, j);
      NextRowOf(m, p, zl, f, cv, j);
    }
    RowsRun(m, p, p.nzy);
    FieldDone(m, p, zl, f, cv);
  }

  lemma ListsSize(m: Mesh, p: Part, zl: ZoneLists)
    requires ListsZones(Keys(m, p), zl, ZoneRows(m, p, p.nzy))
    ensures |zl.size| == |ZoneRows(m, p, p.nzy)| && |zl.points| == MS.Start(zl.size, |zl.size|)
  {
    MS.LayoutTotal(zl.start, zl.size, |zl.points|);
    hide Keys, ZoneRows, MS.Layout, MS.Start;
  }

  lemma NothingYet(m: Mesh, p: Part, zl: ZoneLists, f: Field)
    ensures MS.Start(zl.size, 0) == 0 && FieldTo(m, p, zl, f, [], 0, 0)
  {
    hide FieldAt;
  }

  lemma NextRowOf(m: Mesh, p: Part, zl: ZoneLists, f: Field, cv: seq<real>, j: nat)
    requires FieldTo(m, p, zl, f, cv, p.nzx, j)
    ensures FieldTo(m, p, zl, f, cv, 0, j + 1)
  {
    hide FieldAt;
  }

  lemma FieldDone(m: Mesh, p: Part, zl: ZoneLists, f: Field, cv: seq<real>)
    requires FieldTo(m, p, zl, f, cv, 0, p.nzy) && |cv| == |zl.points|
    ensures FieldOn(m, p, zl, f, cv)
  {
    hide FieldAt;
  }

  // ----- the sum at one local point

  ghost predicate Different(keys: seq<Key>) {
    forall c, d :: 0 <= c < |keys| && 0 <= d < |keys| && keys[c] == keys[d] ==> c == d
  }

  /** The corners of a local point are those with its key. */
  lemma {:induction false} PointSumIs(keys: seq<Key>, points: seq<nat>, cv: seq<real>, q: nat, n: nat)
    requires n <= |points| == |cv| && q < |keys| && Different(keys)
    requires forall s :: 0 <= s < |points| ==> points[s] < |keys|
    ensures HT.PartialPoint(points, cv, q, n) == KeySum(keys, points, cv, keys[q], n)
  {
    hide HT.PartialPoint, KeySum;
    if n == 0 {
      KeySumNone(keys, points, cv, keys[q]);
      NoPoint(points, cv, q);
    } else {
      PointSumIs(keys, points, cv, q, n - 1);
      HT.PartialPointNext(points, cv, q, n - 1);
      KeySumNext(keys, points, cv, keys[q], n - 1);
    }
  }

  lemma NoPoint(points: seq<nat>, cv: seq<real>, q: nat)
    requires |points| == |cv|
    ensures HT.PartialPoint(points, cv, q, 0) == 0.0
  {
  }

  lemma {:induction false} KeySumAbsent(keys: seq<Key>, points: seq<nat>, cv: seq<real>, k: Key, n: nat)
    requires n <= |points| == |cv| && forall q :: 0 <= q < |keys| ==> keys[q] != k
    ensures KeySum(keys, points, cv, k, n) == 0.0
  {
    if n > 0 {
      KeySumAbsent(keys, points, cv, k, n - 1);
    }
  }

  /** A process's points hold the sums of its corners. */
  ghost predicate SummedOn(keys: seq<Key>, points: seq<nat>, cv: seq<real>, v: seq<real>) {
    && |points| == |cv| && |v| == |keys| && Different(keys)
    && (forall s :: 0 <= s < |points| ==> points[s] < |keys|)
    && forall q :: 0 <= q < |v| ==> v[q] == CS.PointSum(points, cv, q)
  }

  lemma SummedValue(keys: seq<Key>, points: seq<nat>, cv: seq<real>, v: seq<real>, q: nat)
    requires SummedOn(keys, points, cv, v) && q < |keys|
    ensures |points| == |cv| && |v| == |keys| && v[q] == KeySum(keys, points, cv, keys[q], |cv|)
  {
    hide KeySum;
    assert CS.PointSum(points, cv, q) == HT.PartialPoint(points, cv, q, |cv|);
    hide CS.PointSum, HT.PartialPoint;
    PointSumIs(keys, points, cv, q, |cv|);
  }

  /** What a process adds to the total of a point. */
  lemma ValIs(w: seq<Pe>, v: seq<seq<real>>, a: nat, points: seq<nat>, cv: seq<real>, k: Key)
    requires Sizes(w, v) && a < |w| && SummedOn(w[a].keys, points, cv, v[a])
    ensures |points| == |cv| && Val(w, v, a, k) == KeySum(w[a].keys, points, cv, k, |cv|)
  {
    hide KeySum, CS.PointSum;
    var q := FindKey(w[a].keys, k);
    if q < |w[a].keys| {
      SummedValue(w[a].keys, points, cv, v[a], q);
    } else {
      KeySumAbsent(w[a].keys, points, cv, k, |cv|);
    }
  }

  // ----- all processes

  /** What mesh initialization leaves on one process. */
  datatype Local = Local(pe: Pe, zl: ZoneLists, maps: seq<MS.Side>, mapsp1: seq<nat>, mappcfirst: seq<int>,
                         mapccnext: seq<int>, pchpfirst: seq<nat>, pchplast: seq<nat>)

  function BlockOf(m: Mesh, a: nat): Part
    requires ValidMesh(m)
  {
    PartOf(m, XOf(m, a), YOf(m, a))
  }

  /** Every point has a corner, and its list leads through all of them. */
  ghost predicate ListsLinked(l: Local, nump: nat) {
    && |l.mappcfirst| == nump && |l.mapccnext| == |l.mapsp1|
    && forall q :: 0 <= q < nump ==>
         CS.Corners(l.mapsp1, q) != [] && CS.Linked(l.mapsp1, l.mappcfirst, l.mapccnext, q)
  }

  /** The process with rank a is initialized. */
  ghost predicate Built(m: Mesh, a: nat, l: Local) {
    && ValidMesh(m) && a < NumPe(m) && l.pe == PeAt(m, BlockOf(m, a))
    && ListsZones(Keys(m, BlockOf(m, a)), l.zl, ZoneRows(m, BlockOf(m, a), BlockOf(m, a).nzy))
    && MS.Mapped(l.zl.size, l.zl.points, l.maps) && l.mapsp1 == l.zl.points
    && (forall s :: 0 <= s < |l.mapsp1| ==> l.mapsp1[s] < |l.pe.keys|)
    && ListsLinked(l, |l.pe.keys|) && Covers(l.pchpfirst, l.pchplast, |l.pe.keys|)
  }

  /** The first point of a side is the point listed for it. */
  lemma FirstPoints(zl: ZoneLists, maps: seq<MS.Side>, s: nat)
    requires MS.Layout(zl.start, zl.size, |zl.points|) && MS.Mapped(zl.size, zl.points, maps) && s < |maps|
    ensures |maps| == |zl.points| && maps[s].p1 == zl.points[s]
  {
    MS.MappedTotal(zl.size, zl.points, maps);
    hide MS.Layout, MS.Mapped, MS.Start, MS.InZone;
    var z := MS.ZoneOf(zl.start, zl.size, zl.points, maps, s);
    MS.MappedIs(zl.start, zl.size, zl.points, maps, z, s);
  }

  /** The zone that lists entry s. */
  lemma ZoneOfEntry(zl: ZoneLists, s: nat) returns (z: nat)
    requires MS.Layout(zl.start, zl.size, |zl.points|) && s < |zl.points|
    ensures z < |zl.start| == |zl.size| && zl.start[z] <= s < zl.start[z] + zl.size[z]
  {
    MS.LayoutTotal(zl.start, zl.size, |zl.points|);
    hide *;
    z := MS.FindZone(zl.size, s);
    MS.InZoneMeans(zl.size, z, s);
    MS.LayoutAt(zl.start, zl.size, |zl.points|, z);
  }

  /** The listed points exist. */
  lemma ListedExist(keys: seq<Key>, zl: ZoneLists, zones: seq<seq<Key>>, s: nat)
    requires ListsZones(keys, zl, zones) && s < |zl.points|
    ensures zl.points[s] < |keys|
  {
    ListsLayout(keys, zl, zones);
    hide *;
    var z := ZoneOfEntry(zl, s);
    ListsAt(keys, zl, zones, z);
    ListedIn(keys, zl, z, zones[z], s);
  }

  lemma ListsLayout(keys: seq<Key>, zl: ZoneLists, zones: seq<seq<Key>>)
    requires ListsZones(keys, zl, zones)
    ensures MS.Layout(zl.start, zl.size, |zl.points|) && |zl.start| == |zl.size| == |zones|
  {
    hide MS.Layout, ListsZone;
  }

  lemma ListsAt(keys: seq<Key>, zl: ZoneLists, zones: seq<seq<Key>>, z: nat)
    requires ListsZones(keys, zl, zones) && z < |zl.start|
    ensures |zl.start| == |zl.size| == |zones| && ListsZone(keys, zl, z, zones[z])
  {
    hide MS.Layout, ListsZone;
  }

  lemma ListedIn(keys: seq<Key>, zl: ZoneLists, z: nat, corners: seq<Key>, s: nat)
    requires z < |zl.start| == |zl.size| && ListsZone(keys, zl, z, corners)
    requires zl.start[z] <= s < zl.start[z] + zl.size[z]
    ensures s < |zl.points| && zl.points[s] < |keys|
  {
    var a, n := zl.start[z], zl.size[z];
    assert zl.points[a..a + n][s - a] == zl.points[s];
  }

  // ----- initialization

  lemma {:induction false} RowsSmall(m: Mesh, p: Part, n: nat)
    ensures forall z :: 0 <= z < |ZoneRows(m, p, n)| ==> |ZoneRows(m, p, n)[z]| <= 6
  {
    hide ZoneRow, ZoneRows;
    ZoneNext(m, p, 0, 0);
    if n > 0 {
      RowsSmall(m, p, n - 1);
      ZoneNext(m, p, n - 1, 0);
      MC.RowLength(m, p, n - 1, p.nzx);
      var row := ZoneRow(m, p, n - 1, p.nzx);
      forall a | 0 <= a < |row|
        ensures |row[a]| <= 6
      {
        FewCorners(m, p.zx + a, p.zy + n - 1);
      }
    }
  }

  lemma FewCorners(m: Mesh, gi: nat, gj: nat)
    ensures |Corners(m, gi, gj)| <= 6
  {
  }

  /** No generated zone has more than six sides. */
  lemma ZonesSmall(m: Mesh, p: Part, zl: ZoneLists, z: nat)
    requires ListsZones(Keys(m, p), zl, ZoneRows(m, p, p.nzy)) && z < |zl.size|
    ensures zl.size[z] <= 6
  {
    RowsSmall(m, p, p.nzy);
    hide Keys, ZoneRows, MS.Layout;
    assert ListsZone(Keys(m, p), zl, z, ZoneRows(m, p, p.nzy)[z]);
  }

  /** Zones that are no larger than a chunk fit in one. */
  lemma SidesFit(start: seq<nat>, size: seq<nat>, nodes: seq<nat>, maps: seq<MS.Side>, chunksize: nat)
    requires MS.Layout(start, size, |nodes|) && MS.Mapped(size, nodes, maps)
    requires forall z :: 0 <= z < |size| ==> size[z] <= chunksize
    ensures ZonesFit(MS.ZonesOf(maps), chunksize)
  {
    hide MS.Layout, MS.Mapped, MS.Start, MS.InZone;
    var mapsz := MS.ZonesOf(maps);
    forall s | 0 <= s && s + chunksize < |mapsz|
      ensures mapsz[s] != mapsz[s + chunksize]
    {
      MS.SideZone(start, size, nodes, maps, s);
      MS.SideZone(start, size, nodes, maps, s + chunksize);
      MS.InZoneMeans(size, maps[s].z, s);
      if maps[s].z == maps[s + chunksize].z {
        MS.InZoneMeans(size, maps[s].z, s + chunksize);
      }
    }
  }

  /** The constructor of the mesh on one process: generate, then the maps, the chunks and
      the lists of corners. */
  method InitMesh(m: Mesh, a: nat, chunksize: nat) returns (l: Local)
    requires ValidMesh(m) && a < NumPe(m) && (m.kind == Hex ==> HexMesh.HexFits(m))
    requires chunksize == 0 || chunksize >= 6
    ensures Built(m, a, l)
  {
    hide *;
    var nodepos, zl, slave, master := Generate(m, a);
    GeneratedBlock(m, a, Pe(slave, master, nodepos), zl);
    var sides := MS.InitSides(zl.start, zl.size, zl.points);
    var maps := sides[..];
    var mapsp1 := FirstPointsOf(m, a, zl, maps);
    ghost var p := BlockOf(m, a);
    ChunksFit(m, p, zl, maps, chunksize);
    var size, sf, sl, zf, zel, pfirst, plast, zcf, zcl :=
      InitChunks(MS.ZonesOf(maps), |zl.size|, |nodepos|, chunksize);
    PointsExist(m, p, zl);
    var mappcfirst, mapccnext := InitLists(|nodepos|, mapsp1);
    l := Local(Pe(slave, master, nodepos), zl, maps, mapsp1, mappcfirst, mapccnext, pfirst, plast);
    ListsNow(m, p, l, |nodepos|);
    BuiltNow(m, a, l);
  }

  lemma GeneratedBlock(m: Mesh, a: nat, pe: Pe, zl: ZoneLists)
    requires ValidMesh(m) && a < NumPe(m) && a < |World(m)| && pe == World(m)[a]
    requires var p := PartOf(m, XOf(m, a), YOf(m, a)); ListsZones(pe.keys, zl, ZoneRows(m, p, p.nzy))
    ensures pe == PeAt(m, BlockOf(m, a)) && pe.keys == Keys(m, BlockOf(m, a)) && ValidPart(m, BlockOf(m, a))
    ensures ListsZones(Keys(m, BlockOf(m, a)), zl, ZoneRows(m, BlockOf(m, a), BlockOf(m, a).nzy))
    ensures MS.Layout(zl.start, zl.size, |zl.points|)
  {
    IndexOnGrid(m, a);
    PartFacts(m, XOf(m, a), YOf(m, a));
    hide Keys, ZoneRows, ListsEach, MS.Layout, PartOf, ValidPart;
  }

  /** mapsp1, which names the point of every corner. */
  method FirstPointsOf(ghost m: Mesh, ghost a: nat, ghost zl: ZoneLists, maps: seq<MS.Side>)
    returns (mapsp1: seq<nat>)
    requires MS.Layout(zl.start, zl.size, |zl.points|) && MS.Mapped(zl.size, zl.points, maps)
    ensures mapsp1 == zl.points && |maps| == |zl.points|
    ensures forall s :: 0 <= s < |maps| ==> mapsp1[s] == maps[s].p1
  {
    hide MS.Layout, MS.Mapped;
    MS.MappedTotal(zl.size, zl.points, maps);
    mapsp1 := seq(|maps|, s requires 0 <= s < |maps| => maps[s].p1);
    forall s | 0 <= s < |maps|
      ensures mapsp1[s] == zl.points[s]
    {
      FirstPoints(zl, maps, s);
    }
  }

  lemma ChunksFit(m: Mesh, p: Part, zl: ZoneLists, maps: seq<MS.Side>, chunksize: nat)
    requires ListsZones(Keys(m, p), zl, ZoneRows(m, p, p.nzy)) && MS.Layout(zl.start, zl.size, |zl.points|)
    requires MS.Mapped(zl.size, zl.points, maps)
    ensures ZoneBySide(MS.ZonesOf(maps), |zl.size|)
    ensures chunksize >= 6 ==> ZonesFit(MS.ZonesOf(maps), chunksize)
  {
    hide *;
    MS.SidesByZone(zl.start, zl.size, zl.points, maps);
    if chunksize >= 6 {
      forall z | 0 <= z < |zl.size|
        ensures zl.size[z] <= chunksize
      {
        ZonesSmall(m, p, zl, z);
      }
      SidesFit(zl.start, zl.size, zl.points, maps, chunksize);
    }
  }

  /** mappcfirst and mapccnext. */
  method InitLists(nump: nat, mapsp1: seq<nat>) returns (mappcfirst: seq<int>, mapccnext: seq<int>)
    requires forall c :: 0 <= c < |mapsp1| ==> mapsp1[c] < nump
    ensures |mappcfirst| == nump && |mapccnext| == |mapsp1|
    ensures forall q :: 0 <= q < nump ==> CS.Linked(mapsp1, mappcfirst, mapccnext, q)
  {
    var first, next := new int[nump](_ => 0), new int[|mapsp1|](_ => 0);
    CS.InitInvMap(mapsp1, first, next);
    mappcfirst, mapccnext := first[..], next[..];
  }

  lemma PointsExist(m: Mesh, p: Part, zl: ZoneLists)
    requires ListsZones(Keys(m, p), zl, ZoneRows(m, p, p.nzy))
    ensures forall s :: 0 <= s < |zl.points| ==> zl.points[s] < |Keys(m, p)|
  {
    hide *;
    forall s | 0 <= s < |zl.points|
      ensures zl.points[s] < |Keys(m, p)|
    {
      ListedExist(Keys(m, p), zl, ZoneRows(m, p, p.nzy), s);
    }
  }

  lemma ListsNow(m: Mesh, p: Part, l: Local, nump: nat)
    requires ValidPart(m, p) && ListsZones(Keys(m, p), l.zl, ZoneRows(m, p, p.nzy)) && nump == |Keys(m, p)|
    requires MS.Mapped(l.zl.size, l.zl.points, l.maps) && |l.maps| == |l.mapsp1|
    requires forall s :: 0 <= s < |l.maps| ==> l.mapsp1[s] == l.maps[s].p1
    requires |l.mappcfirst| == nump && |l.mapccnext| == |l.mapsp1|
    requires forall q :: 0 <= q < nump ==> CS.Linked(l.mapsp1, l.mappcfirst, l.mapccnext, q)
    ensures ListsLinked(l, nump)
  {
    hide Keys, ZoneRows, ListsZones, ValidPart, MS.Mapped, CS.Corners, CS.Linked;
    forall q | 0 <= q < nump
      ensures CS.Corners(l.mapsp1, q) != []
    {
      MC.EveryPointSummed(m, p, l.zl, l.maps, l.mapsp1, q);
    }
  }

  lemma BuiltNow(m: Mesh, a: nat, l: Local)
    requires ValidMesh(m) && a < NumPe(m) && l.pe == PeAt(m, BlockOf(m, a)) && l.pe.keys == Keys(m, BlockOf(m, a))
    requires ListsZones(Keys(m, BlockOf(m, a)), l.zl, ZoneRows(m, BlockOf(m, a), BlockOf(m, a).nzy))
    requires MS.Mapped(l.zl.size, l.zl.points, l.maps) && l.mapsp1 == l.zl.points
    requires forall s :: 0 <= s < |l.zl.points| ==> l.zl.points[s] < |Keys(m, BlockOf(m, a))|
    requires ListsLinked(l, |l.pe.keys|) && Covers(l.pchpfirst, l.pchplast, |l.pe.keys|)
    ensures Built(m, a, l)
  {
    hide Keys, ZoneRows, ListsZones, BlockOf, PeAt, MS.Mapped, ListsLinked, Covers;
  }

  /** All processes initialized. */
  ghost predicate AllBuilt(m: Mesh, ls: seq<Local>) {
    ValidMesh(m) && |ls| == NumPe(m) && forall a :: 0 <= a < |ls| ==> Built(m, a, ls[a])
  }

  /** Every process initializes its part of the mesh. */
  method InitAll(m: Mesh, chunksize: nat) returns (ls: seq<Local>)
    requires ValidMesh(m) && (m.kind == Hex ==> HexMesh.HexFits(m))
    requires chunksize == 0 || chunksize >= 6
    ensures AllBuilt(m, ls)
  {
    hide Built, NumPe, ValidMesh, HexMesh.HexFits;
    ls := [];
    for a := 0 to NumPe(m)
      invariant |ls| == a && forall b :: 0 <= b < a ==> Built(m, b, ls[b])
    {
      var l := InitMesh(m, a, chunksize);
      ls := ls + [l];
    }
  }

  // ----- summing to points

  /** Every process has the values of the field at its corners. */
  ghost predicate HoldField(m: Mesh, ls: seq<Local>, f: Field, cv: seq<seq<real>>) {
    && ValidMesh(m) && |cv| == |ls| == NumPe(m)
    && forall a :: 0 <= a < |ls| ==> FieldOn(m, BlockOf(m, a), ls[a].zl, f, cv[a])
  }

  /** The points of process a hold the sums of its own corners. */
  ghost predicate OwnSums(l: Local, cv: seq<real>, v: seq<real>) {
    && |l.mapsp1| == |cv| && |v| == |l.pe.keys|
    && forall q :: 0 <= q < |v| ==> v[q] == CS.PointSum(l.mapsp1, cv, q)
  }

  /** sumOnProc on one process. */
  method SumOwn(m: Mesh, a: nat, l: Local, cv: seq<real>) returns (v: seq<real>)
    requires Built(m, a, l) && |cv| == |l.mapsp1|
    ensures OwnSums(l, cv, v)
  {
    hide CS.Corners, CS.Linked, CS.PointSum, Covers, ListsZones, MS.Mapped, Keys;
    var pvar := new real[|l.pe.keys|](_ => 0.0);
    CS.SumOnProc(l.mapsp1, l.pchpfirst, l.pchplast, l.mappcfirst, l.mapccnext, cv, pvar);
    v := pvar[..];
  }

  lemma BlockParts(m: Mesh, f: Field, k: Key, a: nat)
    requires ValidMesh(m) && a < NumPe(m)
    ensures var p := BlockOf(m, a);
            p.nzx >= 1 &&
            BlockTerm(Serial(m), f, k, p.zx, p.nzx, p.zy, p.nzy) == PartTerm(m, f, k, XOf(m, a), YOf(m, a))
  {
    hide BlockTerm, Start, Serial;
  }

  /** What is known of one process. */
  lemma BuiltAt(m: Mesh, ls: seq<Local>, f: Field, cv: seq<seq<real>>, w: seq<Pe>, v: seq<seq<real>>, a: nat)
    requires AllBuilt(m, ls) && HoldField(m, ls, f, cv) && w == World(m) && Sizes(w, v)
    requires a < |ls| && |cv| == |ls| && |v| == |ls| && OwnSums(ls[a], cv[a], v[a])
    ensures ValidMesh(m) && a < NumPe(m) && a < |w|
    ensures w[a].keys == Keys(m, BlockOf(m, a)) && Lists(m, BlockOf(m, a), ls[a].zl, f, cv[a])
    ensures SummedOn(w[a].keys, ls[a].zl.points, cv[a], v[a])
  {
    BuiltSize(m, ls);
    hide OwnSums, NumPe, BlockOf, Lists, SummedOn, PeAt, Keys, Built, FieldOn;
    assert Built(m, a, ls[a]);
    assert FieldOn(m, BlockOf(m, a), ls[a].zl, f, cv[a]);
    BuiltMeans(m, a, ls[a], f, cv[a], v[a]);
  }

  lemma BuiltMeans(m: Mesh, a: nat, l: Local, f: Field, cv: seq<real>, v: seq<real>)
    requires ValidMesh(m) && Built(m, a, l) && FieldOn(m, BlockOf(m, a), l.zl, f, cv) && OwnSums(l, cv, v)
    ensures l.pe.keys == Keys(m, BlockOf(m, a)) && Lists(m, BlockOf(m, a), l.zl, f, cv)
    ensures SummedOn(l.pe.keys, l.zl.points, cv, v)
  {
    hide Keys, ZoneRows, ListsZones, BlockOf, CS.PointSum, FieldOn, MS.Mapped, ListsLinked, Covers, OwnSums, SummedOn;
    KeysDistinct(m, BlockOf(m, a));
    SummedBy(l, cv, v);
  }

  lemma KeysDistinct(m: Mesh, p: Part)
    ensures Different(Keys(m, p))
  {
    MC.AllDiffer(m, p);
    hide Keys;
  }

  lemma SummedBy(l: Local, cv: seq<real>, v: seq<real>)
    requires OwnSums(l, cv, v) && l.mapsp1 == l.zl.points && Different(l.pe.keys)
    requires forall s :: 0 <= s < |l.mapsp1| ==> l.mapsp1[s] < |l.pe.keys|
    ensures SummedOn(l.pe.keys, l.zl.points, cv, v)
  {
    hide CS.PointSum, Different;
  }

  /** What a process adds to the total of a point is what its block gives it. */
  lemma BlockVal(m: Mesh, ls: seq<Local>, f: Field, cv: seq<seq<real>>, w: seq<Pe>, v: seq<seq<real>>, a: nat, k: Key)
    requires AllBuilt(m, ls) && HoldField(m, ls, f, cv) && w == World(m) && Sizes(w, v)
    requires a < |ls| && |cv| == |ls| && |v| == |ls| && OwnSums(ls[a], cv[a], v[a])
    ensures ValidMesh(m) && |v| == |w| && a < |w| && |v[a]| == |w[a].keys|
    ensures Val(w, v, a, k) == PartTerm(m, f, k, XOf(m, a), YOf(m, a))
  {
    SizeAt(w, v);
    hide *;
    BuiltAt(m, ls, f, cv, w, v, a);
    BlockParts(m, f, k, a);
    ValIs(w, v, a, ls[a].zl.points, cv[a], k);
    SumOfBlock(m, BlockOf(m, a), ls[a].zl, f, cv[a], k);
  }

  lemma SizeAt(w: seq<Pe>, v: seq<seq<real>>)
    requires Sizes(w, v)
    ensures |v| == |w| && forall b :: 0 <= b < |w| ==> |v[b]| == |w[b].keys|
  {
  }

  /** All processes have summed their own corners. */
  ghost predicate AllSummed(ls: seq<Local>, cv: seq<seq<real>>, v: seq<seq<real>>) {
    |v| == |ls| == |cv| && forall a :: 0 <= a < |ls| ==> OwnSums(ls[a], cv[a], v[a])
  }

  /** The total over the copies of a point is the sum over the zones of the whole mesh. */
  lemma TotalIsMeshSum(m: Mesh, ls: seq<Local>, f: Field, cv: seq<seq<real>>, w: seq<Pe>, v: seq<seq<real>>, k: Key)
    requires AllBuilt(m, ls) && HoldField(m, ls, f, cv) && w == World(m) && Sizes(w, v) && AllSummed(ls, cv, v)
    ensures Total(w, v, k) == MeshSum(Serial(m), f, k)
  {
    var vals := ValsOf(w, v, k);
    BuiltSize(m, ls);
    hide AllBuilt, HoldField, OwnSums, Val, PartTerm, MeshSum, AddAll, XOf, YOf, NumPe;
    forall a | 0 <= a < |vals|
      ensures vals[a] == PartTerm(m, f, k, XOf(m, a), YOf(m, a))
    {
      BlockVal(m, ls, f, cv, w, v, a, k);
    }
    PartsAddUp(m, f, k, vals);
  }

  lemma BuiltSize(m: Mesh, ls: seq<Local>)
    requires AllBuilt(m, ls)
    ensures ValidMesh(m) && |ls| == NumPe(m) == |World(m)|
    ensures forall a :: 0 <= a < |ls| ==> ls[a].pe == World(m)[a]
  {
    forall a | 0 <= a < |ls|
      ensures ls[a].pe == World(m)[a]
    {
      assert Built(m, a, ls[a]);
    }
  }

  /** The points of one process alone are all the points there are. */
  lemma AloneIsTotal(w: seq<Pe>, v: seq<seq<real>>, q: nat)
    requires Sizes(w, v) && |w| == 1 && q < |w[0].keys| && Different(w[0].keys)
    ensures v[0][q] == Total(w, v, w[0].keys[q])
  {
    var vals := ValsOf(w, v, w[0].keys[q]);
    AddNext(vals, 0);
    hide AddFirst;
  }

  /** Every copy of every point holds the sum over the zones of the mesh g. */
  ghost predicate AllMeshSums(w: seq<Pe>, g: Mesh, f: Field, out: seq<seq<real>>) {
    && Sizes(w, out)
    && forall a, q :: 0 <= a < |w| && 0 <= q < |w[a].keys| ==> out[a][q] == MeshSum(g, f, w[a].keys[q])
  }

  /** Every copy of every point has the sum over all copies. */
  ghost predicate HaveTotals(w: seq<Pe>, v: seq<seq<real>>, out: seq<seq<real>>) {
    && Sizes(w, v) && Sizes(w, out)
    && forall b, q :: 0 <= b < |w| && 0 <= q < |w[b].keys| ==> out[b][q] == Total(w, v, w[b].keys[q])
  }

  lemma TotalsAreMeshSums(m: Mesh, ls: seq<Local>, f: Field, cv: seq<seq<real>>, w: seq<Pe>, v: seq<seq<real>>,
                          out: seq<seq<real>>)
    requires AllBuilt(m, ls) && HoldField(m, ls, f, cv) && AllSummed(ls, cv, v) && w == World(m)
    requires HaveTotals(w, v, out)
    ensures AllMeshSums(w, Serial(m), f, out)
  {
    hide AllBuilt, HoldField, AllSummed, MeshSum, Serial, Total, PeAt, NumPe, World;
    forall a, q | 0 <= a < |w| && 0 <= q < |w[a].keys|
      ensures out[a][q] == MeshSum(Serial(m), f, w[a].keys[q])
    {
      TotalIsMeshSum(m, ls, f, cv, w, v, w[a].keys[q]);
    }
  }

  /** A single process has the totals already. */
  lemma AloneHasTotals(m: Mesh, v: seq<seq<real>>)
    requires ValidMesh(m) && Sizes(World(m), v) && |World(m)| == 1
    ensures HaveTotals(World(m), v, v)
  {
    WorldDiffers(m);
    hide Total, Different, PeAt, NumPe;
    var w := World(m);
    forall b, q | 0 <= b < |w| && 0 <= q < |w[b].keys|
      ensures v[b][q] == Total(w, v, w[b].keys[q])
    {
      AloneIsTotal(w, v, q);
    }
  }

  lemma TotalsFrom(w: seq<Pe>, v: seq<seq<real>>, out: seq<seq<real>>)
    requires Sizes(w, v) && Sizes(w, out)
    requires forall b, q :: 0 <= b < |w| && 0 <= q < |w[b].keys| ==> out[b][q] == Total(w, v, w[b].keys[q])
    ensures HaveTotals(w, v, out)
  {
    hide Total;
  }

  /** sumToPoints on all processes of a generated mesh, from the corner values to the
      points: whatever the number of processes and the order in which messages arrive, every
      copy of a point is left with the sum that a single process would compute, over the
      zones of the whole mesh. */
  method SumToPoints(m: Mesh, ls: seq<Local>, ghost f: Field, cv: seq<seq<real>>, gatherOrders: seq<seq<nat>>,
                     scatterOrders: seq<seq<nat>>)
    returns (out: seq<seq<real>>)
    requires AllBuilt(m, ls) && HoldField(m, ls, f, cv) && ValidMesh(m)
    requires ArrivalOrders(World(m), gatherOrders, false) && ArrivalOrders(World(m), scatterOrders, true)
    ensures AllMeshSums(World(m), Serial(m), f, out)
  {
    hide *;
    var v := SumAllOwn(m, ls, f, cv);
    BuiltSize(m, ls);
    ListsMatch(m);
    var w := PesOf(ls, m);
    out := v;
    if |ls| > 1 {
      out := SumAcrossProcs(w, v, gatherOrders, scatterOrders);
      TotalsFrom(w, v, out);
    } else {
      WorldDiffers(m);
      AloneHasTotals(m, v);
    }
    TotalsAreMeshSums(m, ls, f, cv, w, v, out);
  }

  method PesOf(ls: seq<Local>, ghost m: Mesh) returns (w: seq<Pe>)
    requires ValidMesh(m) && |ls| == |World(m)| && forall a :: 0 <= a < |ls| ==> ls[a].pe == World(m)[a]
    ensures w == World(m)
  {
    w := seq(|ls|, a requires 0 <= a < |ls| => ls[a].pe);
    hide World;
  }

  lemma WorldDiffers(m: Mesh)
    requires ValidMesh(m)
    ensures |World(m)| >= 1 && Different(World(m)[0].keys)
  {
    WorldAt(m, 0, 0);
    assert World(m)[0].keys == Keys(m, BlockOf(m, 0));
    KeysDistinct(m, BlockOf(m, 0));
    hide Keys, Different;
  }

  /** sumOnProc on all processes. */
  method SumAllOwn(m: Mesh, ls: seq<Local>, ghost f: Field, cv: seq<seq<real>>) returns (v: seq<seq<real>>)
    requires AllBuilt(m, ls) && HoldField(m, ls, f, cv)
    ensures AllSummed(ls, cv, v) && ValidMesh(m) && Sizes(World(m), v)
  {
    hide *;
    v := [];
    HoldSize(m, ls, f, cv);
    for a := 0 to |ls|
      invariant |v| == a && SummedTo(ls, cv, v)
    {
      ProcessAt(m, ls, f, cv, a);
      var x := SumOwn(m, a, ls[a], cv[a]);
      SummedMore(ls, cv, v, x);
      v := v + [x];
    }
    SummedAll(m, ls, cv, v);
  }

  /** The first processes have summed their own corners. */
  ghost predicate SummedTo(ls: seq<Local>, cv: seq<seq<real>>, v: seq<seq<real>>) {
    |v| <= |ls| == |cv| && forall a :: 0 <= a < |v| ==> OwnSums(ls[a], cv[a], v[a])
  }

  lemma SummedMore(ls: seq<Local>, cv: seq<seq<real>>, v: seq<seq<real>>, x: seq<real>)
    requires SummedTo(ls, cv, v) && |v| < |ls| == |cv| && OwnSums(ls[|v|], cv[|v|], x)
    ensures SummedTo(ls, cv, v + [x])
  {
    hide OwnSums;
  }

  lemma HoldSize(m: Mesh, ls: seq<Local>, f: Field, cv: seq<seq<real>>)
    requires HoldField(m, ls, f, cv)
    ensures |cv| == |ls| && SummedTo(ls, cv, [])
  {
    hide FieldOn;
  }

  lemma ProcessAt(m: Mesh, ls: seq<Local>, f: Field, cv: seq<seq<real>>, a: nat)
    requires AllBuilt(m, ls) && HoldField(m, ls, f, cv) && a < |ls| && |cv| == |ls|
    ensures Built(m, a, ls[a]) && |cv[a]| == |ls[a].mapsp1|
  {
    assert Built(m, a, ls[a]);
    assert FieldOn(m, BlockOf(m, a), ls[a].zl, f, cv[a]);
    hide ListsZones, MS.Mapped, ListsLinked, Covers, FieldAt, BlockOf, PeAt;
  }

  lemma SummedAll(m: Mesh, ls: seq<Local>, cv: seq<seq<real>>, v: seq<seq<real>>)
    requires AllBuilt(m, ls) && SummedTo(ls, cv, v) && |v| == |ls|
    ensures AllSummed(ls, cv, v) && ValidMesh(m) && Sizes(World(m), v)
  {
    hide AllBuilt, OwnSums, PeAt, NumPe;
    BuiltSize(m, ls);
    forall a | 0 <= a < |v|
      ensures |v[a]| == |World(m)[a].keys|
    {
      OwnSize(ls[a], cv[a], v[a]);
    }
  }

  lemma OwnSize(l: Local, cv: seq<real>, v: seq<real>)
    requires OwnSums(l, cv, v)
    ensures |v| == |l.pe.keys|
  {
  }
}
