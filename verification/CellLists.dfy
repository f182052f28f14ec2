/** Lists of link cells in the order three nested loops visit a block of the grid. */
module CellLists {
  import opened Triples
  import opened LinkCellIndex

  function ZRun(x: int, y: int, z: int, hz: int): seq<Triple<int>>
    decreases hz - z
  {
    if z >= hz then [] else [Triple(x, y, z)] + ZRun(x, y, z + 1, hz)
  }

  function YRuns(x: int, y: int, hy: int, lz: int, hz: int): seq<Triple<int>>
    decreases hy - y
  {
    if y >= hy then [] else ZRun(x, y, lz, hz) + YRuns(x, y + 1, hy, lz, hz)
  }

  function XRuns(x: int, hx: int, ly: int, hy: int, lz: int, hz: int): seq<Triple<int>>
    decreases hx - x
  {
    if x >= hx then [] else YRuns(x, ly, hy, lz, hz) + XRuns(x + 1, hx, ly, hy, lz, hz)
  }

  /** The tuples t with lo <= t < hi, x slowest and z fastest. */
  function Block(lo: Triple<int>, hi: Triple<int>): seq<Triple<int>> {
    XRuns(lo.x, hi.x, lo.y, hi.y, lo.z, hi.z)
  }

  predicate Distinct<T(==)>(s: seq<T>) {
    forall i, j :: 0 <= i < j < |s| ==> s[i] != s[j]
  }

  lemma {:induction false} ZRunFacts(x: int, y: int, z: int, hz: int)
    ensures forall t :: t in ZRun(x, y, z, hz) <==> t.x == x && t.y == y && z <= t.z < hz
    ensures Distinct(ZRun(x, y, z, hz))
    decreases hz - z
  {
    if z < hz {
      ZRunFacts(x, y, z + 1, hz);
    }
  }

  lemma {:induction false} YRunsFacts(x: int, y: int, hy: int, lz: int, hz: int)
    ensures forall t :: t in YRuns(x, y, hy, lz, hz) <==> t.x == x && y <= t.y < hy && lz <= t.z < hz
    ensures Distinct(YRuns(x, y, hy, lz, hz))
    decreases hy - y
  {
    if y < hy {
      ZRunFacts(x, y, lz, hz);
      YRunsFacts(x, y + 1, hy, lz, hz);
      DistinctConcat(ZRun(x, y, lz, hz), YRuns(x, y + 1, hy, lz, hz));
    }
  }

  lemma {:induction false} XRunsFacts(x: int, hx: int, ly: int, hy: int, lz: int, hz: int)
    ensures forall t :: t in XRuns(x, hx, ly, hy, lz, hz) <==> x <= t.x < hx && ly <= t.y < hy && lz <= t.z < hz
    ensures Distinct(XRuns(x, hx, ly, hy, lz, hz))
    decreases hx - x
  {
    if x < hx {
      YRunsFacts(x, ly, hy, lz, hz);
      XRunsFacts(x + 1, hx, ly, hy, lz, hz);
      DistinctConcat(YRuns(x, ly, hy, lz, hz), XRuns(x + 1, hx, ly, hy, lz, hz));
    }
  }

  lemma DistinctConcat<T>(s: seq<T>, u: seq<T>)
    requires Distinct(s) && Distinct(u)
    requires forall t :: t in s ==> t !in u
    ensures Distinct(s + u)
  {
    forall i, j | 0 <= i < j < |s + u|
      ensures (s + u)[i] != (s + u)[j]
    {
      if i < |s| <= j {
        assert (s + u)[i] in s && (s + u)[j] in u;
      }
    }
  }

  /** The block lists every tuple in its range exactly once. */
  lemma BlockFacts(lo: Triple<int>, hi: Triple<int>)
    ensures forall t :: t in Block(lo, hi) <==> InRange(lo, t, hi)
    ensures Distinct(Block(lo, hi))
  {
    XRunsFacts(lo.x, hi.x, lo.y, hi.y, lo.z, hi.z);
  }

  lemma {:induction false} RunLengths(x: int, hx: int, ly: int, hy: int, lz: int, hz: int)
    requires x <= hx && ly <= hy && lz <= hz
    ensures |XRuns(x, hx, ly, hy, lz, hz)| == (hx - x) * ((hy - ly) * (hz - lz))
    decreases hx - x
  {
    if x < hx {
      YRunLengths(x, ly, hy, lz, hz);
      RunLengths(x + 1, hx, ly, hy, lz, hz);
      assert (hx - x) * ((hy - ly) * (hz - lz)) == (hx - (x + 1)) * ((hy - ly) * (hz - lz)) + (hy - ly) * (hz - lz);
    }
  }

  lemma {:induction false} YRunLengths(x: int, y: int, hy: int, lz: int, hz: int)
    requires y <= hy && lz <= hz
    ensures |YRuns(x, y, hy, lz, hz)| == (hy - y) * (hz - lz)
    decreases hy - y
  {
    if y < hy {
      ZRunLength(x, y, lz, hz);
      YRunLengths(x, y + 1, hy, lz, hz);
      assert (hy - y) * (hz - lz) == (hy - (y + 1)) * (hz - lz) + (hz - lz);
    }
  }

  lemma {:induction false} ZRunLength(x: int, y: int, z: int, hz: int)
    requires z <= hz
    ensures |ZRun(x, y, z, hz)| == hz - z
    decreases hz - z
  {
    if z < hz {
      ZRunLength(x, y, z + 1, hz);
    }
  }

  /** A block has as many cells as the product of its extents. */
  lemma BlockLength(lo: Triple<int>, hi: Triple<int>)
    requires lo.x <= hi.x && lo.y <= hi.y && lo.z <= hi.z
    ensures |Block(lo, hi)| == (hi.x - lo.x) * ((hi.y - lo.y) * (hi.z - lo.z))
  {
    RunLengths(lo.x, hi.x, lo.y, hi.y, lo.z, hi.z);
  }

  function Plus3(t: Triple<int>, v: Triple<int>): Triple<int> {
    Triple(t.x + v.x, t.y + v.y, t.z + v.z)
  }

  lemma {:induction false} ZRunShift(x: int, y: int, z: int, hz: int, v: Triple<int>)
    ensures var s := ZRun(x, y, z, hz);
            var u := ZRun(x + v.x, y + v.y, z + v.z, hz + v.z);
            |u| == |s| && forall k :: 0 <= k < |s| ==> u[k] == Plus3(s[k], v)
    decreases hz - z
  {
    if z < hz {
      ZRunShift(x, y, z + 1, hz, v);
    }
  }

  lemma {:induction false} YRunsShift(x: int, y: int, hy: int, lz: int, hz: int, v: Triple<int>)
    ensures var s := YRuns(x, y, hy, lz, hz);
            var u := YRuns(x + v.x, y + v.y, hy + v.y, lz + v.z, hz + v.z);
            |u| == |s| && forall k :: 0 <= k < |s| ==> u[k] == Plus3(s[k], v)
    decreases hy - y
  {
    hide ZRun;
    if y < hy {
      ZRunShift(x, y, lz, hz, v);
      YRunsShift(x, y + 1, hy, lz, hz, v);
    }
  }

  lemma {:induction false} XRunsShift(x: int, hx: int, ly: int, hy: int, lz: int, hz: int, v: Triple<int>)
    ensures var s := XRuns(x, hx, ly, hy, lz, hz);
            var u := XRuns(x + v.x, hx + v.x, ly + v.y, hy + v.y, lz + v.z, hz + v.z);
            |u| == |s| && forall k :: 0 <= k < |s| ==> u[k] == Plus3(s[k], v)
    decreases hx - x
  {
    hide YRuns;
    if x < hx {
      YRunsShift(x, ly, hy, lz, hz, v);
      XRunsShift(x + 1, hx, ly, hy, lz, hz, v);
    }
  }

  /** Shifting a block shifts its list entry by entry. */
  lemma BlockShift(lo: Triple<int>, hi: Triple<int>, v: Triple<int>)
    ensures var s := Block(lo, hi);
            var u := Block(Plus3(lo, v), Plus3(hi, v));
            |u| == |s| && forall k :: 0 <= k < |s| ==> u[k] == Plus3(s[k], v)
  {
    XRunsShift(lo.x, hi.x, lo.y, hi.y, lo.z, hi.z, v);
  }

  function Boxes(g: Triple<int>, tuples: seq<Triple<int>>): (boxes: seq<int>)
    ensures |boxes| == |tuples|
    ensures forall k :: 0 <= k < |tuples| ==> boxes[k] == GetBoxFromTuple(g, tuples[k])
  {
    if tuples == [] then [] else [GetBoxFromTuple(g, tuples[0])] + Boxes(g, tuples[1..])
  }

  /** The nested loops of mkAtomCellList, mkForceSendCellList and
      mkForceRecvCellList: every cell of the block, by its array index. */
  method MakeCellList(g: Triple<int>, lo: Triple<int>, hi: Triple<int>) returns (list: seq<int>)
    requires lo.x <= hi.x && lo.y <= hi.y && lo.z <= hi.z
    ensures list == Boxes(g, Block(lo, hi))
  {
    hide GetBoxFromTuple, Boxes, YRuns, ZRun;
    list := [];
    ghost var tuples := [];
    NoBoxes(g);
    var ix := lo.x;
    while ix < hi.x
      invariant lo.x <= ix <= hi.x && list == Boxes(g, tuples)
      invariant tuples + XRuns(ix, hi.x, lo.y, hi.y, lo.z, hi.z) == Block(lo, hi)
    {
      ghost var rest := XRuns(ix + 1, hi.x, lo.y, hi.y, lo.z, hi.z);
      var iy := lo.y;
      while iy < hi.y
        invariant lo.y <= iy <= hi.y && list == Boxes(g, tuples)
        invariant tuples + (YRuns(ix, iy, hi.y, lo.z, hi.z) + rest) == Block(lo, hi)
      {
        ghost var restY := YRuns(ix, iy + 1, hi.y, lo.z, hi.z) + rest;
        YStep(ix, iy, hi.y, lo.z, hi.z, tuples, rest);
        var iz := lo.z;
        while iz < hi.z
          invariant lo.z <= iz <= hi.z && list == Boxes(g, tuples)
          invariant tuples + (ZRun(ix, iy, iz, hi.z) + restY) == Block(lo, hi)
        {
          var t := Triple(ix, iy, iz);
          ZStep(ix, iy, iz, hi.z, tuples, restY);
          BoxesSnoc(g, tuples, t);
          list := list + [GetBoxFromTuple(g, t)];
          tuples := tuples + [t];
          iz := iz + 1;
        }
        ZEnd(ix, iy, iz, hi.z, restY);
        iy := iy + 1;
      }
      YEnd(ix, iy, hi.y, lo.z, hi.z, rest);
      ix := ix + 1;
    }
    assert tuples + [] == tuples;
  }

  lemma NoBoxes(g: Triple<int>)
    ensures Boxes(g, []) == []
  {
  }

  lemma BoxesSnoc(g: Triple<int>, s: seq<Triple<int>>, t: Triple<int>)
    ensures Boxes(g, s + [t]) == Boxes(g, s) + [GetBoxFromTuple(g, t)]
  {
    hide GetBoxFromTuple;
    var both := Boxes(g, s + [t]);
    assert forall k :: 0 <= k < |s| ==> both[k] == Boxes(g, s)[k];
  }

  lemma YStep(x: int, y: int, hy: int, lz: int, hz: int, done: seq<Triple<int>>, rest: seq<Triple<int>>)
    requires y < hy
    ensures done + (YRuns(x, y, hy, lz, hz) + rest) ==
              done + (ZRun(x, y, lz, hz) + (YRuns(x, y + 1, hy, lz, hz) + rest))
  {
    hide ZRun;
    var z, r := ZRun(x, y, lz, hz), YRuns(x, y + 1, hy, lz, hz);
    assert (z + r) + rest == z + (r + rest);
  }

  lemma ZStep(x: int, y: int, z: int, hz: int, done: seq<Triple<int>>, rest: seq<Triple<int>>)
    requires z < hz
    ensures done + (ZRun(x, y, z, hz) + rest) == (done + [Triple(x, y, z)]) + (ZRun(x, y, z + 1, hz) + rest)
  {
    var t, r := Triple(x, y, z), ZRun(x, y, z + 1, hz);
    assert done + (([t] + r) + rest) == (done + [t]) + (r + rest);
  }

  lemma ZEnd(x: int, y: int, z: int, hz: int, rest: seq<Triple<int>>)
    requires z >= hz
    ensures ZRun(x, y, z, hz) + rest == rest
  {
  }

  lemma YEnd(x: int, y: int, hy: int, lz: int, hz: int, rest: seq<Triple<int>>)
    requires y >= hy
    ensures YRuns(x, y, hy, lz, hz) + rest == rest
  {
  }
}
