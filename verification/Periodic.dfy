/** Which cells of which ranks a coordinate has an image in, along one periodic
    axis of p bricks of g cells.  Cells are counted from the global origin. */
module Periodic {
  import opened Triples
  import opened Decomposition

  /** Cell t of brick rho is the given cell, up to whole periods. */
  predicate ImageCell(cell: int, rho: int, t: int, p: int, g: int)
    requires p >= 1 && g >= 1
  {
    MulPositive(p, g);
    (rho * g + t - cell) % (p * g) == 0
  }

  lemma MulPositive(p: int, g: int)
    requires p >= 1 && g >= 1
    ensures p * g >= 1
  {
  }

  /** The number of periods between a cell and its image. */
  function Periods(cell: int, rho: int, t: int, p: int, g: int): int
    requires p >= 1 && g >= 1
  {
    MulPositive(p, g);
    (rho * g + t - cell) / (p * g)
  }

  lemma PeriodsExact(cell: int, rho: int, t: int, p: int, g: int)
    requires p >= 1 && g >= 1
    ensures ImageCell(cell, rho, t, p, g) ==> rho * g + t == cell + Periods(cell, rho, t, p, g) * (p * g)
  {
  }

  lemma PeriodsUnique(cell: int, rho: int, t: int, p: int, g: int, k: int)
    requires p >= 1 && g >= 1 && rho * g + t == cell + k * (p * g)
    ensures ImageCell(cell, rho, t, p, g) && Periods(cell, rho, t, p, g) == k
  {
    MulPositive(p, g);
    DivModUnique(k, 0, p * g);
  }

  /** Before the exchange along this axis: the atom's owner is brick rho and its
      cell there is t. */
  predicate OwnCell(owner: int, cell: int, rho: int, t: int, g: int) {
    owner == rho && cell == rho * g + t
  }

  function Minus(rho: int, p: int): int
    requires p >= 1
  {
    (rho - 1 + p) % p
  }

  function Plus(rho: int, p: int): int
    requires p >= 1
  {
    (rho + 1 + p) % p
  }

  /** Two integers congruent modulo m and less than m apart are equal; stated for a
      difference that is u * g + v. */
  lemma SmallMultiple(u: int, v: int, k: int, p: int, g: int)
    requires p >= 1 && g >= 1 && u * g + v == k * (p * g) && -g < v < g
    ensures v == 0 && u == k * p
  {
    assert k * (p * g) == (k * p) * g;
    assert (k * p - u) * g == v;
    var w := k * p - u;
    if w >= 1 {
      MulMono(1, w, g);
    } else if w <= -1 {
      MulMono(w, -1, g);
    }
  }

  lemma RankMultiple(u: int, k: int, p: int)
    requires p >= 1 && u == k * p && -2 * p < u < 2 * p
    ensures -1 <= k <= 1
  {
    if k >= 2 {
      MulMono(2, k, p);
    } else if k <= -2 {
      MulMono(k, -2, p);
    }
  }

  /** An atom within one cell of its owner's brick has an image in cell t of brick
      rho exactly when it is already stored there, or when the minus neighbour
      holds it one brick above, or the plus neighbour one brick below; and then
      the number of periods is the shift its sender applies. */
  lemma OneAxisCovers(owner: int, cell: int, rho: int, t: int, p: int, g: int)
    requires p >= 1 && g >= 2
    requires 0 <= owner < p && 0 <= rho < p && -1 <= t <= g
    requires -1 <= cell - owner * g <= g
    ensures OwnCell(owner, cell, rho, t, g) ==>
              ImageCell(cell, rho, t, p, g) && Periods(cell, rho, t, p, g) == 0
    ensures t <= 0 && OwnCell(owner, cell, Minus(rho, p), t + g, g) ==>
              ImageCell(cell, rho, t, p, g) && Periods(cell, rho, t, p, g) == (if Minus(rho, p) == p - 1 then -1 else 0)
    ensures t >= g - 1 && OwnCell(owner, cell, Plus(rho, p), t - g, g) ==>
              ImageCell(cell, rho, t, p, g) && Periods(cell, rho, t, p, g) == (if Plus(rho, p) == 0 then 1 else 0)
    ensures ImageCell(cell, rho, t, p, g) ==>
              || OwnCell(owner, cell, rho, t, g)
              || (t <= 0 && OwnCell(owner, cell, Minus(rho, p), t + g, g))
              || (t >= g - 1 && OwnCell(owner, cell, Plus(rho, p), t - g, g))
  {
    hide ImageCell, Periods, Minus, Plus;
    if OwnCell(owner, cell, rho, t, g) {
      PeriodsUnique(cell, rho, t, p, g, 0);
    }
    if OwnCell(owner, cell, Minus(rho, p), t + g, g) {
      ImageFromMinus(cell, rho, t, p, g);
    }
    if OwnCell(owner, cell, Plus(rho, p), t - g, g) {
      ImageFromPlus(cell, rho, t, p, g);
    }
    if ImageCell(cell, rho, t, p, g) {
      PeriodsExact(cell, rho, t, p, g);
      ImageOrigin(owner, cell - owner * g, rho, t, p, g, Periods(cell, rho, t, p, g));
    }
  }

  lemma ImageFromMinus(cell: int, rho: int, t: int, p: int, g: int)
    requires p >= 1 && g >= 2 && 0 <= rho < p && cell == Minus(rho, p) * g + (t + g)
    ensures ImageCell(cell, rho, t, p, g) && Periods(cell, rho, t, p, g) == (if Minus(rho, p) == p - 1 then -1 else 0)
  {
    hide ImageCell, Periods;
    ModStep(rho, -1, p);
    var m := Minus(rho, p);
    var k := if m == p - 1 then -1 else 0;
    assert rho == m + 1 + k * p;
    SumOfBricks(rho, m + 1, k, p, g);
    assert (m + 1) * g == m * g + g;
    PeriodsUnique(cell, rho, t, p, g, k);
  }

  lemma ImageFromPlus(cell: int, rho: int, t: int, p: int, g: int)
    requires p >= 1 && g >= 2 && 0 <= rho < p && cell == Plus(rho, p) * g + (t - g)
    ensures ImageCell(cell, rho, t, p, g) && Periods(cell, rho, t, p, g) == (if Plus(rho, p) == 0 then 1 else 0)
  {
    hide ImageCell, Periods;
    ModStep(rho, 1, p);
    var q := Plus(rho, p);
    var k := if q == 0 then 1 else 0;
    assert rho == q - 1 + k * p;
    SumOfBricks(rho, q - 1, k, p, g);
    assert (q - 1) * g == q * g - g;
    PeriodsUnique(cell, rho, t, p, g, k);
  }

  lemma SumOfBricks(rho: int, m: int, k: int, p: int, g: int)
    requires rho == m + k * p
    ensures rho * g == m * g + k * (p * g)
  {
    assert (m + k * p) * g == m * g + (k * p) * g;
    assert (k * p) * g == k * (p * g);
  }

  lemma ImageOrigin(owner: int, v: int, rho: int, t: int, p: int, g: int, k: int)
    requires p >= 1 && g >= 2
    requires 0 <= owner < p && 0 <= rho < p && -1 <= t <= g && -1 <= v <= g
    requires rho * g + t == owner * g + v + k * (p * g)
    ensures || (owner == rho && v == t)
            || (t <= 0 && v == t + g && owner == Minus(rho, p))
            || (t >= g - 1 && v == t - g && owner == Plus(rho, p))
  {
    ModStep(rho, -1, p);
    ModStep(rho, 1, p);
    assert (rho - owner) * g == rho * g - owner * g;
    if -g < t - v < g {
      SmallMultiple(rho - owner, t - v, k, p, g);
      RankMultiple(rho - owner, k, p);
    } else if t - v <= -g {
      assert (rho - owner - 1) * g == (rho - owner) * g - g;
      SmallMultiple(rho - owner - 1, t - v + g, k, p, g);
      RankMultiple(rho - owner - 1, k, p);
    } else {
      assert (rho - owner + 1) * g == (rho - owner) * g + g;
      SmallMultiple(rho - owner + 1, t - v - g, k, p, g);
      RankMultiple(rho - owner + 1, k, p);
    }
  }
}
