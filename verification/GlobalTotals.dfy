/** What the sums across processes conserve: summed over the distinct points of the whole
    mesh, point values add up to what the processes put in. */
module GlobalTotals {
  import opened PointExchange
  import opened PointCounts
  import opened RealSums
  import HT = HydroTotals
  import MS = MeshSides

  // ----- the points of one process, by their keys

  ghost function TotalOf(w: seq<Pe>, v: seq<seq<real>>): Key -> real
    requires Sizes(w, v)
  {
    (k: Key) => Total(w, v, k)
  }

  ghost function ValOn(w: seq<Pe>, v: seq<seq<real>>, b: nat): Key -> real
    requires Sizes(w, v) && b < |w|
  {
    (k: Key) => Val(w, v, b, k)
  }

  /** The first n processes' part of each total. */
  ghost function PartOf(w: seq<Pe>, v: seq<seq<real>>, n: nat): Key -> real
    requires Sizes(w, v) && n <= |w|
  {
    (k: Key) => AddFirst(ValsOf(w, v, k), n)
  }

  lemma {:induction false} FindDistinct(keys: seq<Key>, p: nat)
    requires p < |keys| && forall q, r :: 0 <= q < r < |keys| ==> keys[q] != keys[r]
    ensures FindKey(keys, keys[p]) == p
  {
  }

  ghost function KeysTo(pe: Pe, n: nat): set<Key>
    requires n <= |pe.keys|
  {
    set p: nat | p < n :: pe.keys[p]
  }

  lemma KeysNext(pe: Pe, n: nat)
    requires n < |pe.keys| && forall q, r :: 0 <= q < r < |pe.keys| ==> pe.keys[q] != pe.keys[r]
    ensures KeysTo(pe, 0) == {}
    ensures pe.keys[n] !in KeysTo(pe, n) && KeysTo(pe, n + 1) == KeysTo(pe, n) + {pe.keys[n]}
  {
    forall k
      ensures k in KeysTo(pe, n + 1) <==> k in KeysTo(pe, n) + {pe.keys[n]}
    {
      if k in KeysTo(pe, n) {
        var p: nat :| p < n && pe.keys[p] == k;
        assert p < n + 1;
      }
    }
  }

  lemma {:induction false} OneProcess(w: seq<Pe>, v: seq<seq<real>>, b: nat, n: nat)
    requires Matched(w) && Sizes(w, v) && b < |w| && n <= |w[b].keys| == |v[b]|
    ensures SumOf(KeysTo(w[b], n), ValOn(w, v, b)) == HT.SumTo(v[b], n)
  {
    PeOf(w, b);
    hide Matched, SumOf, HT.SumTo, FindKey, KeysTo;
    if n == 0 {
      SumOfEmpty(ValOn(w, v, b));
      HT.SumNone(v[b]);
      NoKeys(w[b]);
    } else {
      OneProcess(w, v, b, n - 1);
      KeysNext(w[b], n - 1);
      FindDistinct(w[b].keys, n - 1);
      SumOfNext(KeysTo(w[b], n - 1), ValOn(w, v, b), w[b].keys[n - 1], KeysTo(w[b], n));
      HT.SumNext(v[b], n - 1);
    }
  }

  lemma NoKeys(pe: Pe)
    ensures KeysTo(pe, 0) == {}
  {
  }

  /** Over all points of the mesh, a process adds up its own values. */
  lemma ProcessSum(w: seq<Pe>, v: seq<seq<real>>, b: nat)
    requires Matched(w) && Sizes(w, v) && b < |w|
    ensures |w[b].keys| == |v[b]|
    ensures SumOf(MeshKeys(w), ValOn(w, v, b)) == HT.SumTo(v[b], |v[b]|)
  {
    var own := KeysTo(w[b], |w[b].keys|);
    assert own <= MeshKeys(w);
    forall k | k in MeshKeys(w) - own
      ensures ValOn(w, v, b)(k) == 0.0
    {
    }
    hide Matched, SumOf, HT.SumTo, FindKey, KeysTo, ValOn, MeshKeys;
    SumOfWithin(MeshKeys(w), own, ValOn(w, v, b));
    OneProcess(w, v, b, |w[b].keys|);
  }

  // ----- all processes

  /** What the first n processes put in. */
  ghost function PutIn(v: seq<seq<real>>, n: nat): real
    requires n <= |v|
  {
    if n == 0 then 0.0 else PutIn(v, n - 1) + HT.SumTo(v[n - 1], |v[n - 1]|)
  }

  lemma {:induction false} PartsAddUp(w: seq<Pe>, v: seq<seq<real>>, n: nat)
    requires Matched(w) && Sizes(w, v) && n <= |w|
    ensures SumOf(MeshKeys(w), PartOf(w, v, n)) == PutIn(v, n)
  {
    hide Matched, SumOf, HT.SumTo, MeshKeys, Val;
    if n == 0 {
      SumOfZeros(MeshKeys(w), PartOf(w, v, 0));
    } else {
      PartsAddUp(w, v, n - 1);
      ProcessSum(w, v, n - 1);
      SumOfPairs(MeshKeys(w), PartOf(w, v, n - 1), ValOn(w, v, n - 1), PartOf(w, v, n));
    }
  }

  /** Over the distinct points of the mesh the totals add up to what was put in. */
  lemma TotalsAddUp(w: seq<Pe>, v: seq<seq<real>>)
    requires Matched(w) && Sizes(w, v)
    ensures SumOf(MeshKeys(w), TotalOf(w, v)) == PutIn(v, |v|)
  {
    hide Matched, SumOf, HT.SumTo, MeshKeys, Val, PutIn;
    PartsAddUp(w, v, |w|);
    var f, g := TotalOf(w, v), PartOf(w, v, |w|);
    assert forall k: Key :: f(k) == g(k);
    SumOfPairs(MeshKeys(w), g, k => 0.0, f);
    SumOfZeros<Key>(MeshKeys(w), k => 0.0);
  }

  // ----- read off the results, each point once

  /** Every copy of every point has the total, as after sumAcrossProcs. */
  ghost predicate AllTotals(w: seq<Pe>, v: seq<seq<real>>, out: seq<seq<real>>) {
    && Sizes(w, v) && Sizes(w, out)
    && forall b, q :: 0 <= b < |w| && 0 <= q < |w[b].keys| ==> out[b][q] == Total(w, v, w[b].keys[q])
  }

  /** The sum over those of the first n points of a process that are not slaves. */
  function OwnSum(pe: Pe, x: seq<real>, n: nat): real
    requires n <= |x|
  {
    if n == 0 then 0.0 else OwnSum(pe, x, n - 1) + if n - 1 in pe.slave.points then 0.0 else x[n - 1]
  }

  /** The sum over the points of the first n processes that are not slaves. */
  function MeshTotal(w: seq<Pe>, out: seq<seq<real>>, n: nat): real
    requires n <= |w| == |out|
  {
    if n == 0 then 0.0 else MeshTotal(w, out, n - 1) + OwnSum(w[n - 1], out[n - 1], |out[n - 1]|)
  }

  lemma {:induction false} OwnSumIs(w: seq<Pe>, v: seq<seq<real>>, out: seq<seq<real>>, a: nat, n: nat)
    requires Matched(w) && AllTotals(w, v, out) && a < |w| && n <= |w[a].keys| == |out[a]|
    ensures OwnSum(w[a], out[a], n) == SumOf(OwnKeys(w[a], n), TotalOf(w, v))
  {
    hide *;
    TotalsSizes(w, v, out);
    if n == 0 {
      OwnSumNone(w[a], out[a]);
      NoneOwn(w[a]);
      SumOfEmpty(TotalOf(w, v));
    } else {
      OwnSumIs(w, v, out, a, n - 1);
      ValueIsTotal(w, v, out, a, n - 1);
      NewOwnKey(w, a, n - 1);
      OwnSumStep(w[a], out[a], TotalOf(w, v), n - 1);
    }
  }

  lemma TotalsSizes(w: seq<Pe>, v: seq<seq<real>>, out: seq<seq<real>>)
    requires AllTotals(w, v, out)
    ensures Sizes(w, v) && |out| == |w|
  {
  }

  lemma OwnSumStep(pe: Pe, x: seq<real>, f: Key -> real, q: nat)
    requires q < |pe.keys| == |x| && pe.keys[q] !in OwnKeys(pe, q) && x[q] == f(pe.keys[q])
    requires OwnSum(pe, x, q) == SumOf(OwnKeys(pe, q), f)
    ensures OwnSum(pe, x, q + 1) == SumOf(OwnKeys(pe, q + 1), f)
  {
    hide *;
    OwnSumNext(pe, x, q);
    OwnNext(pe, q);
    if q in pe.slave.points {
      assert OwnKeys(pe, q + 1) == OwnKeys(pe, q);
    } else {
      SumOfNext(OwnKeys(pe, q), f, pe.keys[q], OwnKeys(pe, q + 1));
    }
  }

  lemma NewOwnKey(w: seq<Pe>, a: nat, q: nat)
    requires Matched(w) && a < |w| && q < |w[a].keys|
    ensures w[a].keys[q] !in OwnKeys(w[a], q)
  {
    PeKeys(w, a);
    hide Matched, OwnKeys;
    NotYetOwn(w[a], q);
  }

  lemma PeKeys(w: seq<Pe>, a: nat)
    requires Matched(w) && a < |w|
    ensures forall p, q :: 0 <= p < q < |w[a].keys| ==> w[a].keys[p] != w[a].keys[q]
  {
    PeOf(w, a);
    hide Matched;
  }

  lemma OwnSumNone(pe: Pe, x: seq<real>)
    ensures OwnSum(pe, x, 0) == 0.0
  {
  }

  lemma OwnSumNext(pe: Pe, x: seq<real>, n: nat)
    requires n < |x|
    ensures OwnSum(pe, x, n + 1) == OwnSum(pe, x, n) + if n in pe.slave.points then 0.0 else x[n]
  {
  }

  lemma ValueIsTotal(w: seq<Pe>, v: seq<seq<real>>, out: seq<seq<real>>, a: nat, q: nat)
    requires AllTotals(w, v, out) && a < |w| && q < |w[a].keys|
    ensures Sizes(w, v) && |out| == |w| && |out[a]| == |w[a].keys| && out[a][q] == TotalOf(w, v)(w[a].keys[q])
  {
    hide Total;
  }

  lemma {:induction false} MeshTotalIs(w: seq<Pe>, v: seq<seq<real>>, out: seq<seq<real>>, n: nat)
    requires Matched(w) && AllTotals(w, v, out) && n <= |w| == |out|
    ensures MeshTotal(w, out, n) == SumOf(Owned(w, n), TotalOf(w, v))
  {
    hide Matched, SumOf, OwnKeys, OwnSum, Owned, Total;
    if n == 0 {
      NoneOwned(w);
      SumOfEmpty(TotalOf(w, v));
    } else {
      MeshTotalIs(w, v, out, n - 1);
      OwnSumIs(w, v, out, n - 1, |out[n - 1]|);
      OwnedNext(w, n - 1);
      SumOfUnion(Owned(w, n - 1), OwnKeys(w[n - 1], |w[n - 1].keys|), TotalOf(w, v));
    }
  }

  /** Summing across processes keeps the total: over the points of the mesh, each counted
      at its one copy that is no slave, the results add up to all that was put in. */
  lemma MeshTotalKept(w: seq<Pe>, v: seq<seq<real>>, out: seq<seq<real>>)
    requires Matched(w) && AllTotals(w, v, out)
    ensures |out| == |v| == |w| && MeshTotal(w, out, |w|) == PutIn(v, |v|)
  {
    hide Matched, SumOf, Owned, Total, MeshTotal, PutIn, MeshKeys;
    MeshTotalIs(w, v, out, |w|);
    AllOwned(w);
    TotalsAddUp(w, v);
  }

  // ----- forces and masses

  /** One process's mesh maps, side forces and corner forces. */
  datatype ForcePart = ForcePart(start: seq<nat>, size: seq<nat>, nodes: seq<nat>, maps: seq<MS.Side>,
                                 mapsp1: seq<nat>, sf: seq<real>, sf2: seq<real>, sf3: seq<real>, cf: seq<real>)

  /** The process has summed its corner forces and brought them to its points. */
  ghost predicate ForcesOn(h: ForcePart, pf: seq<real>) {
    && MS.Layout(h.start, h.size, |h.nodes|) && MS.Mapped(h.size, h.nodes, h.maps)
    && HT.Forces(h.maps, h.sf, h.sf2, h.sf3, h.cf, 0, |h.maps|) && HT.Summed(h.mapsp1, h.cf, pf)
  }

  lemma {:induction false} NoForcePutIn(hs: seq<ForcePart>, v: seq<seq<real>>, n: nat)
    requires n <= |hs| == |v| && forall b :: 0 <= b < |hs| ==> ForcesOn(hs[b], v[b])
    ensures PutIn(v, n) == 0.0
  {
    hide HT.SumTo, HT.Forces, HT.Summed, MS.Layout, MS.Mapped;
    if n > 0 {
      NoForcePutIn(hs, v, n - 1);
      assert ForcesOn(hs[n - 1], v[n - 1]);
      var h := hs[n - 1];
      HT.TotalForceZero(h.start, h.size, h.nodes, h.maps, h.mapsp1, h.sf, h.sf2, h.sf3, h.cf, v[n - 1]);
    }
  }

  /** After sumToPoints on all processes the forces on the points of the whole mesh add up
      to zero: no momentum is created anywhere. */
  lemma GlobalForceZero(w: seq<Pe>, hs: seq<ForcePart>, v: seq<seq<real>>, out: seq<seq<real>>)
    requires Matched(w) && AllTotals(w, v, out) && |hs| == |w|
    requires forall b :: 0 <= b < |hs| ==> |v| == |hs| && ForcesOn(hs[b], v[b])
    ensures |out| == |w| && MeshTotal(w, out, |w|) == 0.0
  {
    hide Matched, Total, MeshTotal, PutIn, ForcesOn;
    MeshTotalKept(w, v, out);
    NoForcePutIn(hs, v, |v|);
  }

  /** One process's mesh maps, initial areas, zones of the step, and corner masses. */
  datatype MassPart = MassPart(start: seq<nat>, size: seq<nat>, nodes: seq<nat>, maps: seq<MS.Side>,
                               mapsp1: seq<nat>, sarea0: seq<real>, zarea0: seq<real>, zr: seq<real>,
                               zarea: seq<real>, smf: seq<real>, cm: seq<real>)

  ghost predicate MassesOn(h: MassPart, pm: seq<real>) {
    && MS.Layout(h.start, h.size, |h.nodes|) && MS.Mapped(h.size, h.nodes, h.maps) && |h.size| == |h.zr| == |h.zarea|
    && |h.maps| == |h.smf| == |h.cm| == |h.sarea0|
    && HT.Masses(h.maps, h.zr, h.zarea, h.smf, h.cm, 0, |h.maps|) && HT.AllShares(h.size, h.sarea0, h.zarea0, h.smf)
    && HT.Summed(h.mapsp1, h.cm, pm)
  }

  /** The mass of the zones of the first n processes. */
  ghost function ZonesMass(hs: seq<MassPart>, n: nat): real
    requires n <= |hs|
  {
    if n == 0 then 0.0 else ZonesMass(hs, n - 1) + PartMass(hs[n - 1])
  }

  ghost function PartMass(h: MassPart): real {
    if |h.zr| == |h.zarea| then HT.ZoneMassTo(h.zr, h.zarea, |h.zr|) else 0.0
  }

  lemma {:induction false} MassPutIn(hs: seq<MassPart>, v: seq<seq<real>>, n: nat)
    requires n <= |hs| == |v| && forall b :: 0 <= b < |hs| ==> MassesOn(hs[b], v[b])
    ensures PutIn(v, n) == ZonesMass(hs, n)
  {
    hide HT.SumTo, HT.Masses, HT.Summed, HT.AllShares, HT.ZoneMassTo, MS.Layout, MS.Mapped;
    if n > 0 {
      MassPutIn(hs, v, n - 1);
      assert MassesOn(hs[n - 1], v[n - 1]);
      var h := hs[n - 1];
      HT.TotalMassKept(h.start, h.size, h.nodes, h.maps, h.mapsp1, h.sarea0, h.zarea0, h.zr, h.zarea, h.smf, h.cm,
                       v[n - 1]);
    }
  }

  /** After sumToPoints on all processes the mass of the points of the whole mesh is the
      mass of all zones of all processes. */
  lemma GlobalMassKept(w: seq<Pe>, hs: seq<MassPart>, v: seq<seq<real>>, out: seq<seq<real>>)
    requires Matched(w) && AllTotals(w, v, out) && |hs| == |w|
    requires forall b :: 0 <= b < |hs| ==> |v| == |hs| && MassesOn(hs[b], v[b])
    ensures |out| == |w| && MeshTotal(w, out, |w|) == ZonesMass(hs, |hs|)
  {
    hide Matched, Total, MeshTotal, PutIn, MassesOn, ZonesMass;
    MeshTotalKept(w, v, out);
    MassPutIn(hs, v, |v|);
  }
}
