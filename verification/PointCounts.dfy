/** How many points a distributed mesh has: every process counts its points that are not
    slaves, and the sum counts every point of the mesh once. */
module PointCounts {
  import opened PointExchange

  /** The points that the process has, but not as slaves. */
  ghost function OwnKeys(pe: Pe, n: nat): set<Key>
    requires n <= |pe.keys|
  {
    set p: nat | p < n && p !in pe.slave.points :: pe.keys[p]
  }

  ghost function Positions(n: nat): set<nat> {
    set p: nat {:trigger Below(p, n)} | p < n && Below(p, n)
  }

  predicate Below(p: nat, n: nat) {
    p < n
  }

  lemma {:induction false} PositionsCount(n: nat)
    ensures |Positions(n)| == n
  {
    if n > 0 {
      PositionsCount(n - 1);
      assert Positions(n) == Positions(n - 1) + {n - 1};
    } else {
      assert Positions(0) == {};
    }
  }

  function Elements(s: seq<nat>): set<nat> {
    set x | x in s
  }

  lemma {:induction false} ElementsCount(s: seq<nat>)
    requires forall d, e :: 0 <= d < e < |s| ==> s[d] != s[e]
    ensures |Elements(s)| == |s|
  {
    if s == [] {
      assert Elements(s) == {};
    } else {
      var last := |s| - 1;
      ElementsCount(s[..last]);
      assert s == s[..last] + [s[last]];
      assert Elements(s) == Elements(s[..last]) + {s[last]};
    }
  }

  ghost function OwnPositions(pe: Pe, n: nat): set<nat> {
    set p: nat | p < n && p !in pe.slave.points
  }

  lemma OwnNext(pe: Pe, q: nat)
    requires q < |pe.keys|
    ensures OwnKeys(pe, q + 1) == OwnKeys(pe, q) + if q in pe.slave.points then {} else {pe.keys[q]}
    ensures OwnPositions(pe, q + 1) == OwnPositions(pe, q) + if q in pe.slave.points then {} else {q}
  {
    if q !in pe.slave.points {
      assert pe.keys[q] in OwnKeys(pe, q + 1);
    }
  }

  lemma {:induction false} OwnKeysCount(pe: Pe, n: nat)
    requires (forall p, q :: 0 <= p < q < |pe.keys| ==> pe.keys[p] != pe.keys[q]) && n <= |pe.keys|
    ensures |OwnKeys(pe, n)| == |OwnPositions(pe, n)|
  {
    hide OwnKeys, OwnPositions;
    if n == 0 {
      NoneOwn(pe);
    } else {
      var q := n - 1;
      OwnKeysCount(pe, q);
      OwnNext(pe, q);
      NotYetOwn(pe, q);
    }
  }

  lemma NoneOwn(pe: Pe)
    ensures OwnKeys(pe, 0) == {} && OwnPositions(pe, 0) == {}
  {
  }

  lemma NotYetOwn(pe: Pe, q: nat)
    requires (forall p, r :: 0 <= p < r < |pe.keys| ==> pe.keys[p] != pe.keys[r]) && q < |pe.keys|
    ensures pe.keys[q] !in OwnKeys(pe, q) && q !in OwnPositions(pe, q)
  {
  }

  /** nump - numslv is the number of own points. */
  lemma OwnCount(pe: Pe)
    requires ValidPe(pe)
    ensures |OwnKeys(pe, |pe.keys|)| == |pe.keys| - |pe.slave.points|
  {
    var n := |pe.keys|;
    OwnKeysCount(pe, n);
    PositionsCount(n);
    ElementsCount(pe.slave.points);
    assert OwnPositions(pe, n) == Positions(n) - Elements(pe.slave.points);
    assert Elements(pe.slave.points) <= Positions(n) by {
      forall x | x in Elements(pe.slave.points)
        ensures x in Positions(n)
      {
        var e :| 0 <= e < |pe.slave.points| && pe.slave.points[e] == x;
      }
    }
  }

  /** The own points of the first n processes. */
  ghost function Owned(w: seq<Pe>, n: nat): set<Key>
    requires n <= |w|
  {
    set a: nat, p: nat | a < n && p < |w[a].keys| && OwnCopy(w, a, p) :: w[a].keys[p]
  }

  /** The points of the whole mesh. */
  ghost function MeshKeys(w: seq<Pe>): set<Key> {
    set a: nat, p: nat | a < |w| && p < |w[a].keys| :: w[a].keys[p]
  }

  lemma OwnedNext(w: seq<Pe>, n: nat)
    requires Matched(w) && n < |w|
    ensures Owned(w, n + 1) == Owned(w, n) + OwnKeys(w[n], |w[n].keys|)
    ensures Owned(w, n) !! OwnKeys(w[n], |w[n].keys|)
  {
    hide Matched;
    var own := OwnKeys(w[n], |w[n].keys|);
    forall k | k in own
      ensures k in Owned(w, n + 1) && k !in Owned(w, n)
    {
      var p: nat :| p < |w[n].keys| && p !in w[n].slave.points && w[n].keys[p] == k;
      assert OwnCopy(w, n, p);
      if k in Owned(w, n) {
        var a: nat, q: nat :| a < n && q < |w[a].keys| && OwnCopy(w, a, q) && w[a].keys[q] == k;
        OneOwner(w, n, p, a, q);
      }
    }
    forall k | k in Owned(w, n + 1)
      ensures k in Owned(w, n) || k in own
    {
      var a: nat, p: nat :| a < n + 1 && p < |w[a].keys| && OwnCopy(w, a, p) && w[a].keys[p] == k;
    }
  }

  /** Every point has an own copy somewhere. */
  lemma AllOwned(w: seq<Pe>)
    requires Matched(w)
    ensures Owned(w, |w|) == MeshKeys(w)
  {
    hide Matched, ValidPe, Offset;
    forall k | k in MeshKeys(w)
      ensures k in Owned(w, |w|)
    {
      var b: nat, q: nat :| b < |w| && q < |w[b].keys| && w[b].keys[q] == k;
      if q in w[b].slave.points {
        var a, j, i, t, p := MasterOf(w, b, q);
        assert OwnCopy(w, a, p) && w[a].keys[p] == k;
      } else {
        assert OwnCopy(w, b, q);
      }
    }
    forall k | k in Owned(w, |w|)
      ensures k in MeshKeys(w)
    {
      var a: nat, p: nat :| a < |w| && p < |w[a].keys| && OwnCopy(w, a, p) && w[a].keys[p] == k;
    }
  }

  /** A single process has no slaves. */
  lemma AloneNoSlaves(w: seq<Pe>)
    requires Matched(w) && |w| == 1
    ensures |w[0].slave.points| == 0
  {
    PeOf(w, 0);
    hide Matched, Offset;
    if |w[0].slave.pes| > 0 {
      var j := ReceiverOf(w, 0, 0);
      assert false;
    }
    OffsetZero(w[0].slave.counts);
  }

  /** One process adds its own points. */
  lemma CountNext(w: seq<Pe>, a: nat)
    requires Matched(w) && a < |w|
    ensures |w[a].slave.points| <= |w[a].keys|
    ensures |Owned(w, a + 1)| == |Owned(w, a)| + |w[a].keys| - |w[a].slave.points|
    ensures |w| == 1 ==> |w[a].slave.points| == 0
  {
    hide *;
    PeOf(w, a);
    OwnCount(w[a]);
    OwnedNext(w, a);
    if |w| == 1 {
      AloneNoSlaves(w);
    }
  }

  lemma NoneOwned(w: seq<Pe>)
    ensures Owned(w, 0) == {}
  {
  }

  /** The point count of writeStats: the sum over all processes. */
  method CountPoints(w: seq<Pe>) returns (gnump: nat)
    requires Matched(w)
    ensures gnump == |MeshKeys(w)|
  {
    hide *;
    AllOwned(w);
    NoneOwned(w);
    gnump := 0;
    for a := 0 to |w|
      invariant gnump == |Owned(w, a)|
    {
      CountNext(w, a);
      var nump := |w[a].keys|;
      if |w| > 1 {
        nump := nump - |w[a].slave.points|;
      }
      gnump := gnump + nump;
    }
  }
}
