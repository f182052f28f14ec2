/** Three-component values, indexed either by field or by axis, and the
    arithmetic of row-major indices that every grid numbering here relies on. */
module Triples {

  datatype Axis = X | Y | Z

  datatype Triple<T> = Triple(x: T, y: T, z: T) {
    function At(ax: Axis): T {
      match ax
      case X => x
      case Y => y
      case Z => z
    }

    function With(ax: Axis, v: T): Triple<T> {
      match ax
      case X => Triple(v, y, z)
      case Y => Triple(x, v, z)
      case Z => Triple(x, y, v)
    }
  }

  /** lo <= t < hi in every component. */
  predicate InRange(lo: Triple<int>, t: Triple<int>, hi: Triple<int>) {
    lo.x <= t.x < hi.x && lo.y <= t.y < hi.y && lo.z <= t.z < hi.z
  }

  /** Quotient and remainder are determined by q * n + r with 0 <= r < n. */
  lemma DivModUnique(q: int, r: int, n: int)
    requires 0 <= r < n
    ensures (q * n + r) / n == q
    ensures (q * n + r) % n == r
  {
    var a := q * n + r;
    var d := a / n - q;
    assert a == (a / n) * n + a % n;
    assert d * n == r - a % n by {
      assert d * n == (a / n) * n - q * n;
    }
    if d >= 1 {
      MulMono(1, d, n);
    } else if d <= -1 {
      MulMono(d, -1, n);
    }
  }

  lemma MulMono(a: int, b: int, n: int)
    requires a <= b && 0 <= n
    ensures a * n <= b * n
  {
  }

  /** A row-major index below the product of the two extents. */
  lemma RowMajorBound(q: int, m: int, r: int, n: int)
    requires 0 <= q < m && 0 <= r < n
    ensures 0 <= q * n + r < m * n
  {
    MulMono(q, m - 1, n);
    MulMono(0, q, n);
    assert (m - 1) * n == m * n - n;
  }

  /** Splitting a row-major index gives components inside the extents. */
  lemma RowMajorSplit(k: int, m: int, n: int)
    requires 0 < n && 0 <= k < m * n
    ensures 0 <= k / n < m
    ensures 0 <= k % n < n
    ensures k == (k / n) * n + k % n
  {
    var q := k / n;
    if q >= m {
      MulMono(m, q, n);
      assert false;
    }
    if q < 0 {
      MulMono(q, -1, n);
      assert false;
    }
  }

  /** Splitting an index into its three row-major digits and putting them back. */
  lemma MixedRadixSplit(k: int, nx: int, ny: int, nz: int)
    requires nx >= 1 && ny >= 1 && nz >= 1 && 0 <= k < nx * ny * nz
    ensures 0 <= k % nx < nx && 0 <= (k / nx) % ny < ny && 0 <= (k / nx) / ny < nz
    ensures k % nx + nx * ((k / nx) % ny + ny * ((k / nx) / ny)) == k
  {
    assert (nz * ny) * nx == nx * ny * nz;
    RowMajorSplit(k, nz * ny, nx);
    RowMajorSplit(k / nx, nz, ny);
  }
}
