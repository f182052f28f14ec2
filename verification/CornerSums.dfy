/** The inverse map from points to their corners, kept as one linked list per point,
    and the sums of corner values that follow it. */
module CornerSums {
  import opened MeshChunks

  /** The corners of point p among the first n, in increasing order; mapsp1 gives the
      point of each corner. */
  function CornersOf(mapsp1: seq<nat>, p: nat, n: nat): (cs: seq<nat>)
    requires n <= |mapsp1|
    ensures forall k :: 0 <= k < |cs| ==> cs[k] < n && mapsp1[cs[k]] == p
    ensures forall j, k :: 0 <= j < k < |cs| ==> cs[j] < cs[k]
  {
    if n == 0 then
      []
    else
      CornersOf(mapsp1, p, n - 1) + if mapsp1[n - 1] == p then [n - 1] else []
  }

  function Corners(mapsp1: seq<nat>, p: nat): (cs: seq<nat>)
    ensures forall k :: 0 <= k < |cs| ==> cs[k] < |mapsp1| && mapsp1[cs[k]] == p
    ensures forall j, k :: 0 <= j < k < |cs| ==> cs[j] < cs[k]
  {
    CornersOf(mapsp1, p, |mapsp1|)
  }

  lemma {:induction false} CornersOfComplete(mapsp1: seq<nat>, p: nat, n: nat, c: nat)
    requires n <= |mapsp1| && c < n && mapsp1[c] == p
    ensures c in CornersOf(mapsp1, p, n)
  {
    if c < n - 1 {
      CornersOfComplete(mapsp1, p, n - 1, c);
    }
  }

  // ----- sorting the pairs (point, corner)

  predicate Before(mapsp1: seq<nat>, c: nat, d: nat)
    requires c < |mapsp1| && d < |mapsp1|
  {
    mapsp1[c] < mapsp1[d] || (mapsp1[c] == mapsp1[d] && c < d)
  }

  /** A listing of all corners in the order of their pairs. */
  ghost predicate Listing(mapsp1: seq<nat>, order: seq<nat>) {
    && (forall i :: 0 <= i < |order| ==> order[i] < |mapsp1|)
    && (forall i, j :: 0 <= i < j < |order| ==> Before(mapsp1, order[i], order[j]))
    && (forall c :: 0 <= c < |mapsp1| ==> c in order)
  }

  /** std::sort on the pairs: where the next corner goes among those already in order. */
  method Place(mapsp1: seq<nat>, order: seq<nat>, c: nat) returns (next: seq<nat>)
    requires c < |mapsp1| && c !in order
    requires forall i :: 0 <= i < |order| ==> order[i] < |mapsp1|
    requires forall i, j :: 0 <= i < j < |order| ==> Before(mapsp1, order[i], order[j])
    ensures forall i :: 0 <= i < |next| ==> next[i] < |mapsp1|
    ensures forall i, j :: 0 <= i < j < |next| ==> Before(mapsp1, next[i], next[j])
    ensures forall d :: d in next <==> d == c || d in order
  {
    var k := |order|;
    while k > 0 && Before(mapsp1, c, order[k - 1])
      invariant 0 <= k <= |order|
      invariant forall i :: k <= i < |order| ==> Before(mapsp1, c, order[i])
    {
      k := k - 1;
    }
    next := order[..k] + [c] + order[k..];
    forall i | 0 <= i < k
      ensures Before(mapsp1, order[i], c)
    {
      if i < k - 1 {
        assert Before(mapsp1, order[i], order[k - 1]);
      }
    }
  }

  method SortPairs(mapsp1: seq<nat>) returns (order: seq<nat>)
    ensures Listing(mapsp1, order)
  {
    order := [];
    for c := 0 to |mapsp1|
      invariant forall i :: 0 <= i < |order| ==> order[i] < |mapsp1|
      invariant forall i, j :: 0 <= i < j < |order| ==> Before(mapsp1, order[i], order[j])
      invariant forall d :: d in order <==> 0 <= d < c
    {
      order := Place(mapsp1, order, c);
    }
  }

  // ----- the linked lists

  /** first and next hold the corners of p as a list that ends at -1. */
  ghost predicate Linked(mapsp1: seq<nat>, first: seq<int>, next: seq<int>, p: nat)
    requires |next| == |mapsp1| && p < |first|
  {
    var cs := Corners(mapsp1, p);
    cs != [] ==>
      && first[p] == cs[0]
      && forall k :: 0 <= k < |cs| ==> next[cs[k]] == if k + 1 < |cs| then cs[k + 1] else -1
  }

  /** The block of a listing that holds the corners of one point. */
  ghost predicate Block(mapsp1: seq<nat>, order: seq<nat>, p: nat, lo: nat, hi: nat) {
    && Listing(mapsp1, order) && lo <= hi <= |order|
    && (forall i :: 0 <= i < |order| ==> (lo <= i < hi <==> mapsp1[order[i]] == p))
  }

  lemma HasFirst(a: seq<nat>)
    requires a != []
    ensures a[0] in a
  {
  }

  lemma HasLast(a: seq<nat>)
    ensures a != [] ==> a[|a| - 1] in a
  {
  }

  /** Two increasing lists with the same elements are the same list. */
  lemma {:induction false} IncreasingEqual(a: seq<nat>, b: seq<nat>)
    requires forall j, k :: 0 <= j < k < |a| ==> a[j] < a[k]
    requires forall j, k :: 0 <= j < k < |b| ==> b[j] < b[k]
    requires forall x :: x in a <==> x in b
    ensures a == b
  {
    if a == [] {
      if b != [] {
        HasFirst(b);
      }
    } else {
      HasLast(a);
      HasLast(b);
      var m := |a| - 1;
      assert a[m] == b[|b| - 1];
      var x, y := a[..m], b[..|b| - 1];
      forall z
        ensures z in x <==> z in y
      {
        if z in x {
          assert z in a && z < a[m];
          assert z in b;
        }
        if z in y {
          assert z in b && z < a[m];
          assert z in a;
        }
      }
      IncreasingEqual(x, y);
      assert a == x + [a[m]] && b == y + [a[m]];
    }
  }

  /** The block of a point is the list of its corners. */
  lemma BlockIsCorners(mapsp1: seq<nat>, order: seq<nat>, p: nat, lo: nat, hi: nat)
    requires Block(mapsp1, order, p, lo, hi)
    ensures order[lo..hi] == Corners(mapsp1, p)
  {
    var a, b := order[lo..hi], Corners(mapsp1, p);
    forall j, k | 0 <= j < k < |a|
      ensures a[j] < a[k]
    {
      assert Before(mapsp1, order[lo + j], order[lo + k]);
    }
    forall x
      ensures x in a <==> x in b
    {
      if x in a {
        CornersOfComplete(mapsp1, p, |mapsp1|, x);
      }
      if x in b {
        assert x in order;
      }
    }
    IncreasingEqual(a, b);
  }

  /** The points along a listing do not decrease. */
  lemma PointsInOrder(mapsp1: seq<nat>, order: seq<nat>, i: nat, j: nat)
    requires Listing(mapsp1, order) && i <= j < |order|
    ensures mapsp1[order[i]] <= mapsp1[order[j]]
  {
    if i < j {
      assert Before(mapsp1, order[i], order[j]);
    }
  }

  lemma FindBlock(mapsp1: seq<nat>, order: seq<nat>, p: nat) returns (lo: nat, hi: nat)
    requires Listing(mapsp1, order)
    ensures Block(mapsp1, order, p, lo, hi)
  {
    lo := 0;
    while lo < |order| && mapsp1[order[lo]] < p
      invariant lo <= |order| && forall i :: 0 <= i < lo ==> mapsp1[order[i]] < p
    {
      lo := lo + 1;
    }
    hi := lo;
    while hi < |order| && mapsp1[order[hi]] == p
      invariant lo <= hi <= |order| && forall i :: lo <= i < hi ==> mapsp1[order[i]] == p
    {
      hi := hi + 1;
    }
    forall i | 0 <= i < |order|
      ensures lo <= i < hi <==> mapsp1[order[i]] == p
    {
      if i >= hi {
        PointsInOrder(mapsp1, order, hi, i);
        if lo < hi {
          PointsInOrder(mapsp1, order, lo, hi);
        }
      }
    }
  }

  /** The corner that follows the k-th of the listing in its point's list. */
  function NextIn(mapsp1: seq<nat>, order: seq<nat>, k: nat): int
    requires k < |order| && forall i :: 0 <= i < |order| ==> order[i] < |mapsp1|
  {
    if k + 1 == |order| || mapsp1[order[k]] != mapsp1[order[k + 1]] then -1 else order[k + 1]
  }

  predicate Starts(mapsp1: seq<nat>, order: seq<nat>, k: nat)
    requires k < |order| && forall i :: 0 <= i < |order| ==> order[i] < |mapsp1|
  {
    k == 0 || mapsp1[order[k]] != mapsp1[order[k - 1]]
  }

  /** What the loop writes for every corner of the listing is the linked list of every
      point. */
  lemma WrittenLinks(mapsp1: seq<nat>, order: seq<nat>, first: seq<int>, next: seq<int>, p: nat)
    requires Listing(mapsp1, order) && |next| == |mapsp1| && p < |first|
    requires forall c :: 0 <= c < |mapsp1| ==> mapsp1[c] < |first|
    requires forall k :: 0 <= k < |order| ==> next[order[k]] == NextIn(mapsp1, order, k)
    requires forall k :: 0 <= k < |order| && Starts(mapsp1, order, k) ==> first[mapsp1[order[k]]] == order[k]
    ensures Linked(mapsp1, first, next, p)
  {
    var lo, hi := FindBlock(mapsp1, order, p);
    BlockIsCorners(mapsp1, order, p, lo, hi);
    var cs := Corners(mapsp1, p);
    if cs != [] {
      assert mapsp1[order[lo]] == p;
      assert Starts(mapsp1, order, lo);
      forall k | 0 <= k < |cs|
        ensures next[cs[k]] == if k + 1 < |cs| then cs[k + 1] else -1
      {
        assert cs[k] == order[lo + k];
        if k + 1 < |cs| {
          assert cs[k + 1] == order[lo + k + 1];
        }
      }
    }
  }

  lemma OrderDistinct(mapsp1: seq<nat>, order: seq<nat>, i: nat, j: nat)
    requires Listing(mapsp1, order) && i < j < |order|
    ensures order[i] != order[j]
  {
    assert Before(mapsp1, order[i], order[j]);
  }

  lemma StartsDistinct(mapsp1: seq<nat>, order: seq<nat>, i: nat, j: nat)
    requires Listing(mapsp1, order) && i < j < |order| && Starts(mapsp1, order, j)
    ensures mapsp1[order[i]] != mapsp1[order[j]]
  {
    PointsInOrder(mapsp1, order, i, j - 1);
    PointsInOrder(mapsp1, order, j - 1, j);
  }

  /** initInvMap */
  method InitInvMap(mapsp1: seq<nat>, mappcfirst: array<int>, mapccnext: array<int>)
    requires mapccnext.Length == |mapsp1| && mappcfirst != mapccnext
    requires forall c :: 0 <= c < |mapsp1| ==> mapsp1[c] < mappcfirst.Length
    modifies mappcfirst, mapccnext
    ensures forall p :: 0 <= p < mappcfirst.Length ==> Linked(mapsp1, mappcfirst[..], mapccnext[..], p)
  {
    var order := SortPairs(mapsp1);
    hide Listing, Before;
    ListingFacts(mapsp1, order);
    var i := 0;
    while i < |order|
      invariant 0 <= i <= |order|
      invariant forall k :: 0 <= k < i ==> mapccnext[order[k]] == NextIn(mapsp1, order, k)
      invariant forall k :: 0 <= k < i && Starts(mapsp1, order, k) ==> mappcfirst[mapsp1[order[k]]] == order[k]
    {
      var c := order[i];
      var p := mapsp1[c];
      if i == 0 || p != mapsp1[order[i - 1]] {
        forall k | 0 <= k < i
          ensures mapsp1[order[k]] != p
        {
          StartsDistinct(mapsp1, order, k, i);
        }
        mappcfirst[p] := c;
      }
      forall k | 0 <= k < i
        ensures order[k] != c
      {
        OrderDistinct(mapsp1, order, k, i);
      }
      if i + 1 == |order| || p != mapsp1[order[i + 1]] {
        mapccnext[c] := -1;
      } else {
        mapccnext[c] := order[i + 1];
      }
      i := i + 1;
    }
    forall p | 0 <= p < mappcfirst.Length
      ensures Linked(mapsp1, mappcfirst[..], mapccnext[..], p)
    {
      WrittenLinks(mapsp1, order, mappcfirst[..], mapccnext[..], p);
    }
  }

  lemma ListingFacts(mapsp1: seq<nat>, order: seq<nat>)
    requires Listing(mapsp1, order)
    ensures forall i :: 0 <= i < |order| ==> order[i] < |mapsp1|
  {
  }

  // ----- sums over corners

  function SumOver(cvar: seq<real>, cs: seq<nat>): real
    requires forall k :: 0 <= k < |cs| ==> cs[k] < |cvar|
  {
    if cs == [] then 0.0 else SumOver(cvar, cs[..|cs| - 1]) + cvar[cs[|cs| - 1]]
  }

  /** The sum of the corner values of point p. */
  function PointSum(mapsp1: seq<nat>, cvar: seq<real>, p: nat): real
    requires |cvar| == |mapsp1|
  {
    SumOver(cvar, Corners(mapsp1, p))
  }

  /** sumOnProc: chunk by chunk, every point gets the sum over its list. */
  method SumOnProc(mapsp1: seq<nat>, pchpfirst: seq<nat>, pchplast: seq<nat>, mappcfirst: seq<int>,
                   mapccnext: seq<int>, cvar: seq<real>, pvar: array<real>)
    requires Covers(pchpfirst, pchplast, pvar.Length)
    requires |mappcfirst| == pvar.Length && |mapccnext| == |mapsp1| == |cvar|
    requires forall p :: 0 <= p < pvar.Length ==>
               Corners(mapsp1, p) != [] && Linked(mapsp1, mappcfirst, mapccnext, p)
    modifies pvar
    ensures forall p :: 0 <= p < pvar.Length ==> pvar[p] == PointSum(mapsp1, cvar, p)
  {
    var pch := 0;
    ghost var done := 0;
    while pch < |pchpfirst|
      invariant 0 <= pch <= |pchpfirst|
      invariant done == if pch == 0 then 0 else pchplast[pch - 1]
      invariant done <= pvar.Length
      invariant forall p :: 0 <= p < done ==> pvar[p] == PointSum(mapsp1, cvar, p)
    {
      var pfirst, plast := pchpfirst[pch], pchplast[pch];
      var p := pfirst;
      while p < plast
        invariant pfirst <= p <= plast
        invariant forall q :: 0 <= q < p ==> pvar[q] == PointSum(mapsp1, cvar, q)
      {
        var x := SumList(mapsp1, mappcfirst, mapccnext, cvar, p);
        pvar[p] := x;
        p := p + 1;
      }
      done := plast;
      pch := pch + 1;
    }
  }

  /** The walk along one list. */
  method SumList(mapsp1: seq<nat>, mappcfirst: seq<int>, mapccnext: seq<int>, cvar: seq<real>, p: nat)
    returns (x: real)
    requires p < |mappcfirst| && |mapccnext| == |mapsp1| == |cvar|
    requires Corners(mapsp1, p) != [] && Linked(mapsp1, mappcfirst, mapccnext, p)
    ensures x == PointSum(mapsp1, cvar, p)
  {
    ghost var cs := Corners(mapsp1, p);
    ghost var k := 0;
    x := 0.0;
    var c := mappcfirst[p];
    while c >= 0
      invariant 0 <= k <= |cs| && c == if k < |cs| then cs[k] else -1
      invariant x == SumOver(cvar, cs[..k])
      decreases |cs| - k
    {
      assert cs[..k + 1][..k] == cs[..k];
      x := x + cvar[c];
      c := mapccnext[c];
      k := k + 1;
    }
    assert cs[..k] == cs;
  }
}
