/** How the cells of a box are laid out in memory: pencils along i, planes of pencils with
    padding, and a padded volume of planes. */
module BoxLayout {
  import opened Triples
  import opened GhostAxis

  /** Distances between neighbouring cells in j and k, and the number of elements. */
  datatype Shape = Shape(pencil: int, plane: int, volume: int)

  /** The cells of a box of the given extents, ghost cells included, have their own
      places. */
  predicate Fits(s: Shape, extent: Triple<int>) {
    && s.pencil >= extent.x && s.plane >= Times(extent.y, s.pencil) && s.volume >= Times(extent.z, s.plane)
  }

  function Index(s: Shape, x: Triple<int>): int {
    x.x + Times(x.y, s.pencil) + Times(x.z, s.plane)
  }

  lemma IndexInside(s: Shape, extent: Triple<int>, x: Triple<int>)
    requires Fits(s, extent) && InRange(Triple(0, 0, 0), x, extent)
    ensures 0 <= Index(s, x) < s.volume
    ensures 0 <= x.x + Times(x.y, s.pencil) < s.plane
  {
    hide Times;
    TimesBound(x.y, extent.y, x.x, s.pencil);
    TimesBound(x.z, extent.z, x.x + Times(x.y, s.pencil), s.plane);
  }

  /** Different cells have different places. */
  lemma IndexInjective(s: Shape, extent: Triple<int>, x: Triple<int>, y: Triple<int>)
    requires Fits(s, extent) && InRange(Triple(0, 0, 0), x, extent) && InRange(Triple(0, 0, 0), y, extent)
    requires Index(s, x) == Index(s, y)
    ensures x == y
  {
    IndexInside(s, extent, x);
    IndexInside(s, extent, y);
    DivModUnique(x.z, x.x + Times(x.y, s.pencil), s.plane);
    DivModUnique(y.z, y.x + Times(y.y, s.pencil), s.plane);
    DivModUnique(x.y, x.x, s.pencil);
    DivModUnique(y.y, y.x, s.pencil);
  }

  /** n rounded up to a multiple of 8. */
  function RoundUp8(n: int): int {
    (n + 7) / 8 * 8
  }

  /** create_box: planes are padded for the unrolled stencil and rounded to 64 bytes, and
      the volume of a large box is moved away from power-of-two strides. */
  method CreateBox(dim: Triple<int>, ghosts: int) returns (s: Shape)
    requires dim.x >= 1 && dim.y >= 1 && dim.z >= 1 && ghosts >= 0
    ensures Fits(s, Triple(dim.x + 2 * ghosts, dim.y + 2 * ghosts, dim.z + 2 * ghosts))
    ensures s.pencil == dim.x + 2 * ghosts && s.plane % 8 == 0 && s.volume % 8 == 0
    ensures s.plane < Times(dim.y + 2 * ghosts, s.pencil) + 22
    ensures dim.x >= 32 ==> s.volume % 512 == 64 && s.volume < Times(dim.z + 2 * ghosts, s.plane) + 512
    ensures dim.x < 32 ==> s.volume == Times(dim.z + 2 * ghosts, s.plane)
  {
    var pencil := dim.x + 2 * ghosts;
    var maxUnrolling := 16;
    var padding := 0;
    if pencil + 1 < maxUnrolling - 1 {
      padding := (maxUnrolling - 1) - (pencil + 1);
    }
    var plane := RoundUp8(Times(dim.y + 2 * ghosts, pencil) + padding);
    var volume := Times(dim.z + 2 * ghosts, plane);
    PlanesOf8(dim.z + 2 * ghosts, plane);
    if dim.x >= 32 {
      volume := PadVolume(volume);
    }
    s := Shape(pencil, plane, volume);
  }

  lemma PlanesOf8(n: int, plane: int)
    requires plane % 8 == 0
    ensures Times(n, plane) % 8 == 0
  {
    var q := plane / 8;
    assert n * plane == (n * q) * 8;
  }

  function Mod(a: int, n: int): int
    requires n > 0
  {
    a % n
  }

  /** In units of 8 elements: how far it is to where the padding loop stops. */
  function ToStop(q: int): int {
    if q % 64 <= 8 then 8 - q % 64 else 72 - q % 64
  }

  lemma PaddedEighths(q: int)
    ensures 0 <= ToStop(q) < 64
    ensures Mod(8 * q, 8) == 0
    ensures Mod(8 * q, 512) == 64 <==> ToStop(q) == 0
    ensures ToStop(q) > 0 ==> ToStop(q + 1) == ToStop(q) - 1
  {
    var d, m := q / 64, q % 64;
    assert 8 * q == d * 512 + 8 * m;
    DivModUnique(d, 8 * m, 512);
    DivModUnique(q, 0, 8);
    if m < 63 {
      DivModUnique(d, m + 1, 64);
    } else {
      DivModUnique(d + 1, 0, 64);
    }
  }

  lemma WholeEighths(n: int)
    ensures Mod(n, 8) == 0 ==> n == 8 * (n / 8)
  {
  }

  /** The padding loop ends because the volume is a multiple of 8 to begin with. */
  method PadVolume(start: int) returns (volume: int)
    requires Mod(start, 8) == 0
    ensures Mod(volume, 8) == 0 && Mod(volume, 512) == 64 && start <= volume < start + 512
  {
    hide Mod, ToStop;
    ghost var first := start / 8;
    ghost var q := first;
    WholeEighths(start);
    PaddedEighths(q);
    volume := start;
    while Mod(volume, 512) != 64
      invariant volume == 8 * q && first <= q && q + ToStop(q) == first + ToStop(first)
      invariant 0 <= ToStop(q) && (Mod(volume, 512) == 64 <==> ToStop(q) == 0)
      decreases ToStop(q)
    {
      PaddedEighths(q);
      volume := volume + 8;
      q := q + 1;
      PaddedEighths(q);
    }
    PaddedEighths(q);
  }
}
