/** The numbering of link cells: CoMD stores the 3D grid of cells, with its
    surrounding shell of halo cells, in one array.  Local cells come first, in
    the usual row-major order; then the two x planes, the two y planes and the
    two z planes of halo cells, each plane larger than the one before because it
    includes the edges it shares with the earlier ones. */
module LinkCellIndex {
  import opened Triples

  /** Every axis has at least one local cell. */
  predicate ValidGrid(g: Triple<int>) {
    g.x >= 1 && g.y >= 1 && g.z >= 1
  }

  function NLocalBoxes(g: Triple<int>): int {
    g.x * g.y * g.z
  }

  function NHaloBoxes(g: Triple<int>): int {
    2 * ((g.x + 2) * (g.y + g.z + 2) + g.y * g.z)
  }

  function NTotalBoxes(g: Triple<int>): int {
    NLocalBoxes(g) + NHaloBoxes(g)
  }

  /** Grid coordinates range from -1 to the grid size, both included. */
  predicate ValidTuple(g: Triple<int>, t: Triple<int>) {
    InRange(Triple(-1, -1, -1), t, Triple(g.x + 1, g.y + 1, g.z + 1))
  }

  predicate LocalTuple(g: Triple<int>, t: Triple<int>) {
    InRange(Triple(0, 0, 0), t, g)
  }

  function GetBoxFromTuple(g: Triple<int>, t: Triple<int>): int {
    var nLocal := NLocalBoxes(g);
    if t.z == g.z then
      nLocal + 2 * g.z * g.y + 2 * g.z * (g.x + 2) + (g.x + 2) * (g.y + 2) + (g.x + 2) * (t.y + 1) + (t.x + 1)
    else if t.z == -1 then
      nLocal + 2 * g.z * g.y + 2 * g.z * (g.x + 2) + (g.x + 2) * (t.y + 1) + (t.x + 1)
    else if t.y == g.y then
      nLocal + 2 * g.z * g.y + g.z * (g.x + 2) + (g.x + 2) * t.z + (t.x + 1)
    else if t.y == -1 then
      nLocal + 2 * g.z * g.y + t.z * (g.x + 2) + (t.x + 1)
    else if t.x == g.x then
      nLocal + g.y * g.z + t.z * g.y + t.y
    else if t.x == -1 then
      nLocal + t.z * g.y + t.y
    else
      t.x + g.x * t.y + g.x * g.y * t.z
  }

  function GetTuple(g: Triple<int>, iBox: int): Triple<int>
    requires ValidGrid(g)
  {
    var nLocal := NLocalBoxes(g);
    if iBox < nLocal then
      Triple(iBox % g.x, (iBox / g.x) % g.y, (iBox / g.x) / g.y)
    else
      var ink := iBox - nLocal;
      if ink < 2 * g.y * g.z then
        var inPlane := if ink < g.y * g.z then ink else ink - g.y * g.z;
        var ix := if ink < g.y * g.z then 0 else g.x + 1;
        Triple(ix - 1, inPlane % g.y, inPlane / g.y)
      else if ink < 2 * g.z * (g.y + g.x + 2) then
        var inY := ink - 2 * g.z * g.y;
        var inPlane := if inY < (g.x + 2) * g.z then inY else inY - (g.x + 2) * g.z;
        var iy := if inY < (g.x + 2) * g.z then 0 else g.y + 1;
        Triple(inPlane % (g.x + 2) - 1, iy - 1, inPlane / (g.x + 2))
      else
        var inZ := ink - 2 * g.z * (g.y + g.x + 2);
        var inPlane := if inZ < (g.x + 2) * (g.y + 2) then inZ else inZ - (g.x + 2) * (g.y + 2);
        var iz := if inZ < (g.x + 2) * (g.y + 2) then 0 else g.z + 1;
        Triple(inPlane % (g.x + 2) - 1, inPlane / (g.x + 2) - 1, iz - 1)
  }

  /** The shell sizes, written as the three pairs of planes the numbering uses. */
  lemma HaloPlanes(g: Triple<int>)
    ensures NHaloBoxes(g) == 2 * (g.z * g.y) + 2 * (g.z * (g.x + 2)) + 2 * ((g.y + 2) * (g.x + 2))
    ensures 2 * g.z * g.y == 2 * (g.z * g.y)
    ensures 2 * g.y * g.z == 2 * (g.z * g.y)
    ensures 2 * g.z * (g.x + 2) == 2 * (g.z * (g.x + 2))
    ensures 2 * g.z * (g.y + g.x + 2) == 2 * (g.z * g.y) + 2 * (g.z * (g.x + 2))
  {
    assert g.z * (g.y + g.x + 2) == g.z * g.y + g.z * (g.x + 2);
    assert (g.x + 2) * (g.y + g.z + 2) == (g.x + 2) * (g.y + 2) + (g.x + 2) * g.z;
  }

  lemma LocalRoundTrip(g: Triple<int>, t: Triple<int>)
    requires ValidGrid(g) && LocalTuple(g, t)
    ensures 0 <= GetBoxFromTuple(g, t) < NLocalBoxes(g)
    ensures GetTuple(g, GetBoxFromTuple(g, t)) == t
  {
    var row := t.z * g.y + t.y;
    RowMajorBound(t.z, g.z, t.y, g.y);
    RowMajorBound(row, g.z * g.y, t.x, g.x);
    assert GetBoxFromTuple(g, t) == row * g.x + t.x by {
      assert row * g.x == (t.z * g.y) * g.x + t.y * g.x;
      assert g.x * g.y * t.z == (t.z * g.y) * g.x;
    }
    assert (g.z * g.y) * g.x == NLocalBoxes(g);
    DivModUnique(row, t.x, g.x);
    DivModUnique(t.z, t.y, g.y);
  }

  lemma HaloZRoundTrip(g: Triple<int>, t: Triple<int>)
    requires ValidGrid(g) && ValidTuple(g, t) && (t.z == -1 || t.z == g.z)
    ensures NLocalBoxes(g) <= GetBoxFromTuple(g, t) < NTotalBoxes(g)
    ensures GetTuple(g, GetBoxFromTuple(g, t)) == t
  {
    HaloPlanes(g);
    var nLocal, w := NLocalBoxes(g), g.x + 2;
    RowMajorBound(t.y + 1, g.y + 2, t.x + 1, w);
    DivModUnique(t.y + 1, t.x + 1, w);
    RowMajorBound(0, g.z, 0, g.y);
    RowMajorBound(0, g.z, 0, w);
    var inPlane := (t.y + 1) * w + (t.x + 1);
    var plane := (g.y + 2) * w;
    assert (g.x + 2) * (t.y + 1) == (t.y + 1) * w;
    assert (g.x + 2) * (g.y + 2) == plane;
    var before := 2 * g.z * (g.y + g.x + 2);
    assert GetBoxFromTuple(g, t) == nLocal + before + inPlane + (if t.z == g.z then plane else 0);
  }

  lemma HaloYRoundTrip(g: Triple<int>, t: Triple<int>)
    requires ValidGrid(g) && ValidTuple(g, t) && 0 <= t.z < g.z && (t.y == -1 || t.y == g.y)
    ensures NLocalBoxes(g) <= GetBoxFromTuple(g, t) < NTotalBoxes(g)
    ensures GetTuple(g, GetBoxFromTuple(g, t)) == t
  {
    HaloPlanes(g);
    var nLocal, w := NLocalBoxes(g), g.x + 2;
    RowMajorBound(t.z, g.z, t.x + 1, w);
    DivModUnique(t.z, t.x + 1, w);
    RowMajorBound(0, g.z, 0, g.y);
    RowMajorBound(0, g.y + 2, 0, w);
    var inPlane := t.z * w + (t.x + 1);
    var plane := g.z * w;
    assert (g.x + 2) * t.z == t.z * w;
    assert (g.x + 2) * g.z == plane;
    var before := 2 * g.y * g.z;
    assert GetBoxFromTuple(g, t) == nLocal + before + inPlane + (if t.y == g.y then plane else 0);
  }

  lemma HaloXRoundTrip(g: Triple<int>, t: Triple<int>)
    requires ValidGrid(g) && ValidTuple(g, t) && 0 <= t.z < g.z && 0 <= t.y < g.y && (t.x == -1 || t.x == g.x)
    ensures NLocalBoxes(g) <= GetBoxFromTuple(g, t) < NTotalBoxes(g)
    ensures GetTuple(g, GetBoxFromTuple(g, t)) == t
  {
    HaloPlanes(g);
    var nLocal, w := NLocalBoxes(g), g.x + 2;
    RowMajorBound(t.z, g.z, t.y, g.y);
    DivModUnique(t.z, t.y, g.y);
    RowMajorBound(0, g.z, 0, w);
    RowMajorBound(0, g.y + 2, 0, w);
    var inPlane := t.z * g.y + t.y;
    var plane := g.z * g.y;
    assert g.y * g.z == plane;
    assert GetBoxFromTuple(g, t) == nLocal + inPlane + (if t.x == g.x then plane else 0);
  }

  lemma HaloRoundTrip(g: Triple<int>, t: Triple<int>)
    requires ValidGrid(g) && ValidTuple(g, t) && !LocalTuple(g, t)
    ensures NLocalBoxes(g) <= GetBoxFromTuple(g, t) < NTotalBoxes(g)
    ensures GetTuple(g, GetBoxFromTuple(g, t)) == t
  {
    if t.z == -1 || t.z == g.z {
      HaloZRoundTrip(g, t);
    } else if t.y == -1 || t.y == g.y {
      HaloYRoundTrip(g, t);
    } else {
      HaloXRoundTrip(g, t);
    }
  }

  /** getTuple undoes getBoxFromTuple, and the local tuples are exactly the first
      nLocalBoxes cells. */
  lemma TupleRoundTrip(g: Triple<int>, t: Triple<int>)
    requires ValidGrid(g) && ValidTuple(g, t)
    ensures 0 <= GetBoxFromTuple(g, t) < NTotalBoxes(g)
    ensures GetTuple(g, GetBoxFromTuple(g, t)) == t
    ensures GetBoxFromTuple(g, t) < NLocalBoxes(g) <==> LocalTuple(g, t)
  {
    RowMajorBound(0, g.x, 0, g.y);
    RowMajorBound(0, g.x * g.y, 0, g.z);
    HaloPlanes(g);
    RowMajorBound(0, g.z, 0, g.y);
    RowMajorBound(0, g.z, 0, g.x + 2);
    RowMajorBound(0, g.y + 2, 0, g.x + 2);
    if LocalTuple(g, t) {
      LocalRoundTrip(g, t);
    } else {
      HaloRoundTrip(g, t);
    }
  }

  lemma LocalBoxRoundTrip(g: Triple<int>, iBox: int)
    requires ValidGrid(g) && 0 <= iBox < NLocalBoxes(g)
    ensures LocalTuple(g, GetTuple(g, iBox))
    ensures GetBoxFromTuple(g, GetTuple(g, iBox)) == iBox
  {
    SplitLocal(iBox, g.x, g.y, g.z);
  }

  lemma SplitLocal(k: int, nx: int, ny: int, nz: int)
    requires nx >= 1 && ny >= 1 && nz >= 1 && 0 <= k < nx * ny * nz
    ensures 0 <= k % nx < nx && 0 <= (k / nx) % ny < ny && 0 <= (k / nx) / ny < nz
    ensures k % nx + nx * ((k / nx) % ny) + nx * ny * ((k / nx) / ny) == k
  {
    MixedRadixSplit(k, nx, ny, nz);
    var j, i := (k / nx) % ny, (k / nx) / ny;
    assert nx * (j + ny * i) == nx * j + nx * (ny * i);
    assert nx * (ny * i) == nx * ny * i;
  }

  /** A plane of m rows of n halo cells, the second of a pair following the first. */
  lemma SplitPlane(ink: int, m: int, n: int)
    requires m >= 1 && n >= 1 && 0 <= ink < 2 * (m * n)
    ensures var inPlane := if ink < m * n then ink else ink - m * n;
            && 0 <= inPlane < m * n && 0 <= inPlane % n < n && 0 <= inPlane / n < m
            && inPlane == n * (inPlane / n) + inPlane % n
  {
    var inPlane := if ink < m * n then ink else ink - m * n;
    RowMajorSplit(inPlane, m, n);
    assert n * (inPlane / n) == (inPlane / n) * n;
  }

  lemma HaloXBoxRoundTrip(g: Triple<int>, iBox: int)
    requires ValidGrid(g) && 0 <= iBox - NLocalBoxes(g) < 2 * (g.z * g.y)
    ensures ValidTuple(g, GetTuple(g, iBox))
    ensures GetBoxFromTuple(g, GetTuple(g, iBox)) == iBox
  {
    HaloPlanes(g);
    SplitPlane(iBox - NLocalBoxes(g), g.z, g.y);
    var t := GetTuple(g, iBox);
    assert t.z * g.y == g.y * t.z;
  }

  lemma HaloYBoxRoundTrip(g: Triple<int>, iBox: int)
    requires ValidGrid(g) && 0 <= iBox - NLocalBoxes(g) - 2 * (g.z * g.y) < 2 * (g.z * (g.x + 2))
    ensures ValidTuple(g, GetTuple(g, iBox))
    ensures GetBoxFromTuple(g, GetTuple(g, iBox)) == iBox
  {
    HaloPlanes(g);
    SplitPlane(iBox - NLocalBoxes(g) - 2 * (g.z * g.y), g.z, g.x + 2);
    assert (g.x + 2) * g.z == g.z * (g.x + 2);
    var t := GetTuple(g, iBox);
    assert t.z * (g.x + 2) == (g.x + 2) * t.z;
  }

  lemma HaloZBoxRoundTrip(g: Triple<int>, iBox: int)
    requires ValidGrid(g)
    requires 0 <= iBox - NLocalBoxes(g) - 2 * (g.z * g.y) - 2 * (g.z * (g.x + 2)) < 2 * ((g.y + 2) * (g.x + 2))
    ensures ValidTuple(g, GetTuple(g, iBox))
    ensures GetBoxFromTuple(g, GetTuple(g, iBox)) == iBox
  {
    HaloPlanes(g);
    SplitPlane(iBox - NLocalBoxes(g) - 2 * (g.z * g.y) - 2 * (g.z * (g.x + 2)), g.y + 2, g.x + 2);
    assert (g.x + 2) * (g.y + 2) == (g.y + 2) * (g.x + 2);
  }

  lemma HaloBoxRoundTrip(g: Triple<int>, iBox: int)
    requires ValidGrid(g) && NLocalBoxes(g) <= iBox < NTotalBoxes(g)
    ensures ValidTuple(g, GetTuple(g, iBox))
    ensures GetBoxFromTuple(g, GetTuple(g, iBox)) == iBox
  {
    HaloPlanes(g);
    hide GetTuple, GetBoxFromTuple;
    var ink := iBox - NLocalBoxes(g);
    if ink < 2 * (g.z * g.y) {
      HaloXBoxRoundTrip(g, iBox);
    } else if ink < 2 * (g.z * g.y) + 2 * (g.z * (g.x + 2)) {
      HaloYBoxRoundTrip(g, iBox);
    } else {
      HaloZBoxRoundTrip(g, iBox);
    }
  }

  /** getBoxFromTuple undoes getTuple, so the two are inverse bijections between
      [0, nTotalBoxes) and [-1..nx] x [-1..ny] x [-1..nz]. */
  lemma BoxRoundTrip(g: Triple<int>, iBox: int)
    requires ValidGrid(g) && 0 <= iBox < NTotalBoxes(g)
    ensures ValidTuple(g, GetTuple(g, iBox))
    ensures GetBoxFromTuple(g, GetTuple(g, iBox)) == iBox
  {
    if iBox < NLocalBoxes(g) {
      LocalBoxRoundTrip(g, iBox);
    } else {
      HaloBoxRoundTrip(g, iBox);
    }
  }
}
