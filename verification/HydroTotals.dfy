/** What summing corner masses and forces to points conserves. */
module HydroTotals {
  import opened MeshSides
  import opened CornerSums

  function SumFirst(v: seq<real>, n: nat): real
    requires n <= |v|
  {
    if n == 0 then 0.0 else SumFirst(v, n - 1) + v[n - 1]
  }

  /** The sum of the first n values. */
  function SumTo(v: seq<real>, n: nat): real
    requires n <= |v|
  {
    SumFirst(v, n)
  }

  lemma SumNext(v: seq<real>, n: nat)
    requires n < |v|
    ensures SumTo(v, n + 1) == SumTo(v, n) + v[n]
  {
  }

  lemma SumNone(v: seq<real>)
    ensures SumTo(v, 0) == 0.0
  {
  }

  // ----- the sum over points of their sums is the sum over corners

  /** The sum of point p over its corners among the first n. */
  function PartialPoint(mapsp1: seq<nat>, v: seq<real>, p: nat, n: nat): real
    requires n <= |mapsp1| == |v|
  {
    SumOver(v, CornersOf(mapsp1, p, n))
  }

  function PartialFirst(mapsp1: seq<nat>, v: seq<real>, nump: nat, n: nat): real
    requires n <= |mapsp1| == |v|
  {
    if nump == 0 then 0.0 else PartialFirst(mapsp1, v, nump - 1, n) + PartialPoint(mapsp1, v, nump - 1, n)
  }

  /** The sum over the first nump points. */
  function PartialTotal(mapsp1: seq<nat>, v: seq<real>, nump: nat, n: nat): real
    requires n <= |mapsp1| == |v|
  {
    PartialFirst(mapsp1, v, nump, n)
  }

  lemma PartialMore(mapsp1: seq<nat>, v: seq<real>, nump: nat, n: nat)
    requires n <= |mapsp1| == |v|
    ensures PartialTotal(mapsp1, v, 0, n) == 0.0
    ensures PartialTotal(mapsp1, v, nump + 1, n) == PartialTotal(mapsp1, v, nump, n) + PartialPoint(mapsp1, v, nump, n)
  {
    hide PartialPoint;
  }

  lemma PartialPointNext(mapsp1: seq<nat>, v: seq<real>, p: nat, n: nat)
    requires n < |mapsp1| == |v|
    ensures PartialPoint(mapsp1, v, p, n + 1) == PartialPoint(mapsp1, v, p, n) + if mapsp1[n] == p then v[n] else 0.0
  {
    var cs := CornersOf(mapsp1, p, n);
    if mapsp1[n] == p {
      assert (cs + [n])[..|cs|] == cs;
    } else {
      assert cs + [] == cs;
    }
  }

  lemma {:induction false} PartialTotalNext(mapsp1: seq<nat>, v: seq<real>, nump: nat, n: nat)
    requires n < |mapsp1| == |v|
    ensures PartialTotal(mapsp1, v, nump, n + 1) ==
            PartialTotal(mapsp1, v, nump, n) + if mapsp1[n] < nump then v[n] else 0.0
  {
    hide PartialPoint, PartialTotal;
    if nump == 0 {
      PartialMore(mapsp1, v, 0, n);
      PartialMore(mapsp1, v, 0, n + 1);
    } else {
      PartialTotalNext(mapsp1, v, nump - 1, n);
      PartialPointNext(mapsp1, v, nump - 1, n);
      PartialMore(mapsp1, v, nump - 1, n);
      PartialMore(mapsp1, v, nump - 1, n + 1);
    }
  }

  lemma {:induction false} PartialTotalZero(mapsp1: seq<nat>, v: seq<real>, nump: nat)
    requires |mapsp1| == |v|
    ensures PartialTotal(mapsp1, v, nump, 0) == 0.0
  {
    if nump > 0 {
      PartialTotalZero(mapsp1, v, nump - 1);
    }
  }

  lemma {:induction false} PartialTotalIs(mapsp1: seq<nat>, v: seq<real>, nump: nat, n: nat)
    requires n <= |mapsp1| == |v| && forall c :: 0 <= c < |mapsp1| ==> mapsp1[c] < nump
    ensures PartialTotal(mapsp1, v, nump, n) == SumTo(v, n)
  {
    hide PartialTotal, SumTo;
    if n == 0 {
      PartialTotalZero(mapsp1, v, nump);
      SumNone(v);
    } else {
      PartialTotalIs(mapsp1, v, nump, n - 1);
      PartialTotalNext(mapsp1, v, nump, n - 1);
      SumNext(v, n - 1);
    }
  }

  /** Every point holds the sum of its corner values. */
  ghost predicate Summed(mapsp1: seq<nat>, v: seq<real>, pvar: seq<real>) {
    && |mapsp1| == |v|
    && (forall c :: 0 <= c < |mapsp1| ==> mapsp1[c] < |pvar|)
    && forall p :: 0 <= p < |pvar| ==> pvar[p] == PointSum(mapsp1, v, p)
  }

  lemma SummedAt(mapsp1: seq<nat>, v: seq<real>, pvar: seq<real>, p: nat)
    requires Summed(mapsp1, v, pvar) && p < |pvar|
    ensures pvar[p] == PartialPoint(mapsp1, v, p, |v|)
  {
    assert PointSum(mapsp1, v, p) == PartialPoint(mapsp1, v, p, |v|);
    hide PartialPoint, PointSum;
  }

  lemma {:induction false} PointTotal(mapsp1: seq<nat>, v: seq<real>, pvar: seq<real>, nump: nat)
    requires Summed(mapsp1, v, pvar) && nump <= |pvar|
    ensures SumTo(pvar, nump) == PartialTotal(mapsp1, v, nump, |v|)
  {
    hide PartialPoint, PointSum, SumTo, PartialTotal;
    if nump == 0 {
      SumNone(pvar);
      PartialMore(mapsp1, v, 0, |v|);
    } else {
      PointTotal(mapsp1, v, pvar, nump - 1);
      SummedAt(mapsp1, v, pvar, nump - 1);
      SumNext(pvar, nump - 1);
      PartialMore(mapsp1, v, nump - 1, |v|);
    }
  }

  /** Summing to points keeps the total. */
  lemma PointsKeepTotal(mapsp1: seq<nat>, v: seq<real>, pvar: seq<real>)
    requires Summed(mapsp1, v, pvar)
    ensures SumTo(pvar, |pvar|) == SumTo(v, |v|)
  {
    hide PointSum, SumTo, PartialTotal;
    PointTotal(mapsp1, v, pvar, |pvar|);
    PartialTotalIs(mapsp1, v, |pvar|, |v|);
  }

  // ----- corner forces

  function SideForce(sf: seq<real>, sf2: seq<real>, sf3: seq<real>, s: nat): real
    requires s < |sf| && |sf| == |sf2| == |sf3|
  {
    sf[s] + sf2[s] + sf3[s]
  }

  /** The neighbouring sides and the zones exist. */
  ghost predicate Closed(maps: seq<Side>, numz: nat) {
    forall s :: 0 <= s < |maps| ==> maps[s].s3 < |maps| && maps[s].z < numz
  }

  function CornerForce(maps: seq<Side>, sf: seq<real>, sf2: seq<real>, sf3: seq<real>, s: nat): real
    requires s < |maps| == |sf| == |sf2| == |sf3| && maps[s].s3 < |maps|
  {
    SideForce(sf, sf2, sf3, s) - SideForce(sf, sf2, sf3, maps[s].s3)
  }

  /** The corner forces of the sides in [lo, hi) are in place. */
  ghost predicate Forces(maps: seq<Side>, sf: seq<real>, sf2: seq<real>, sf3: seq<real>, cf: seq<real>, lo: nat,
                         hi: nat) {
    && |maps| == |sf| == |sf2| == |sf3| == |cf| && hi <= |cf|
    && forall s :: lo <= s < hi ==> maps[s].s3 < |maps| && cf[s] == CornerForce(maps, sf, sf2, sf3, s)
  }

  /** sumCrnrForce on one chunk of sides. */
  method SumCrnrForce(maps: seq<Side>, numz: nat, sf: seq<real>, sf2: seq<real>, sf3: seq<real>, cftot: array<real>,
                      sfirst: nat, slast: nat)
    requires |maps| == |sf| == |sf2| == |sf3| == cftot.Length && sfirst <= slast <= cftot.Length
    requires Closed(maps, numz)
    modifies cftot
    ensures Forces(maps, sf, sf2, sf3, cftot[..], sfirst, slast)
    ensures forall s :: 0 <= s < cftot.Length && !(sfirst <= s < slast) ==> cftot[s] == old(cftot[s])
  {
    var s := sfirst;
    while s < slast
      invariant sfirst <= s <= slast
      invariant forall t :: sfirst <= t < s ==> cftot[t] == CornerForce(maps, sf, sf2, sf3, t)
      invariant forall t :: 0 <= t < cftot.Length && !(sfirst <= t < s) ==> cftot[t] == old(cftot[t])
    {
      var s3 := maps[s].s3;
      var f := (sf[s] + sf2[s] + sf3[s]) - (sf[s3] + sf2[s3] + sf3[s3]);
      cftot[s] := f;
      s := s + 1;
    }
  }

  lemma ForceAt(start: seq<nat>, size: seq<nat>, nodes: seq<nat>, maps: seq<Side>,
                sf: seq<real>, sf2: seq<real>, sf3: seq<real>, cf: seq<real>, z: nat, n: nat)
    requires Layout(start, size, |nodes|) && Mapped(size, nodes, maps) && z < |size| && n < size[z]
    requires Forces(maps, sf, sf2, sf3, cf, 0, |maps|) && Start(size, z) + size[z] <= |maps|
    ensures |maps| == |sf| == |sf2| == |sf3| == |cf|
    ensures
      var base := Start(size, z);
      cf[base + n] ==
        SideForce(sf, sf2, sf3, base + n) - SideForce(sf, sf2, sf3, base + (if n == 0 then size[z] else n) - 1)
  {
    hide Start, Layout, Mapped, SideForce;
    InZoneIf(size, z, Start(size, z) + n);
    MappedIs(start, size, nodes, maps, z, Start(size, z) + n);
  }

  /** Around a zone the forces telescope. */
  lemma {:induction false} ZoneForces(start: seq<nat>, size: seq<nat>, nodes: seq<nat>, maps: seq<Side>,
                    sf: seq<real>, sf2: seq<real>, sf3: seq<real>, cf: seq<real>, z: nat, n: nat)
    requires Layout(start, size, |nodes|) && Mapped(size, nodes, maps) && z < |size| && 1 <= n <= size[z]
    requires Forces(maps, sf, sf2, sf3, cf, 0, |maps|)
    requires Start(size, z) + size[z] <= |maps| == |sf| == |sf2| == |sf3| == |cf|
    ensures SumTo(cf, Start(size, z) + n) == SumTo(cf, Start(size, z))
              + SideForce(sf, sf2, sf3, Start(size, z) + n - 1) - SideForce(sf, sf2, sf3, Start(size, z) + size[z] - 1)
    decreases n
  {
    hide *;
    ForceAt(start, size, nodes, maps, sf, sf2, sf3, cf, z, n - 1);
    SumNext(cf, Start(size, z) + n - 1);
    if n > 1 {
      ZoneForces(start, size, nodes, maps, sf, sf2, sf3, cf, z, n - 1);
    }
  }

  lemma {:induction false} ForcesCancel(start: seq<nat>, size: seq<nat>, nodes: seq<nat>, maps: seq<Side>,
                    sf: seq<real>, sf2: seq<real>, sf3: seq<real>, cf: seq<real>, z: nat)
    requires Layout(start, size, |nodes|) && Mapped(size, nodes, maps) && z <= |size|
    requires Forces(maps, sf, sf2, sf3, cf, 0, |maps|) && Start(size, z) <= |maps| == |sf| == |sf2| == |sf3| == |cf|
    ensures SumTo(cf, Start(size, z)) == 0.0
  {
    hide *;
    if z == 0 {
      SumNone(cf);
      StartZero(size);
    } else {
      StartNext(size, z - 1);
      LayoutAt(start, size, |nodes|, z - 1);
      ForcesCancel(start, size, nodes, maps, sf, sf2, sf3, cf, z - 1);
      ZoneForces(start, size, nodes, maps, sf, sf2, sf3, cf, z - 1, size[z - 1]);
    }
  }

  lemma StartZero(size: seq<nat>)
    ensures Start(size, 0) == 0
  {
  }

  lemma ForcesSize(maps: seq<Side>, sf: seq<real>, sf2: seq<real>, sf3: seq<real>, cf: seq<real>)
    requires Forces(maps, sf, sf2, sf3, cf, 0, |maps|)
    ensures |maps| == |sf| == |sf2| == |sf3| == |cf|
  {
  }

  /** The total force on the points is zero: no momentum is created. */
  lemma TotalForceZero(start: seq<nat>, size: seq<nat>, nodes: seq<nat>, maps: seq<Side>, mapsp1: seq<nat>,
                       sf: seq<real>, sf2: seq<real>, sf3: seq<real>, cf: seq<real>, pf: seq<real>)
    requires Layout(start, size, |nodes|) && Mapped(size, nodes, maps)
    requires Forces(maps, sf, sf2, sf3, cf, 0, |maps|) && Summed(mapsp1, cf, pf)
    ensures SumTo(pf, |pf|) == 0.0
  {
    hide *;
    ForcesSize(maps, sf, sf2, sf3, cf);
    PointsKeepTotal(mapsp1, cf, pf);
    MappedTotal(size, nodes, maps);
    ForcesCancel(start, size, nodes, maps, sf, sf2, sf3, cf, |size|);
  }

  // ----- corner masses

  /** The mass of a corner in a zone of density r and area a, from the shares of the two
      sides that meet there. */
  function CornerMass(r: real, a: real, f: real, f3: real): real {
    r * a * 0.5 * (f + f3)
  }

  lemma MassMerge(r: real, a: real, f: real, f3: real, g: real, g3: real)
    ensures CornerMass(r, a, f, f3) + CornerMass(r, a, g, g3) == CornerMass(r, a, f + g, f3 + g3)
  {
  }

  lemma MassOfWhole(r: real, a: real)
    ensures CornerMass(r, a, 1.0, 1.0) == ZoneMass(r, a)
    ensures CornerMass(r, a, 0.0, 0.0) == 0.0
  {
  }

  function ZoneMass(r: real, a: real): real {
    r * a
  }

  function MassOf(maps: seq<Side>, zr: seq<real>, zarea: seq<real>, smf: seq<real>, s: nat): real
    requires s < |maps| == |smf| && |zr| == |zarea| && maps[s].s3 < |maps| && maps[s].z < |zr|
  {
    CornerMass(zr[maps[s].z], zarea[maps[s].z], smf[s], smf[maps[s].s3])
  }

  /** The corner masses of the sides in [lo, hi) are in place. */
  ghost predicate Masses(maps: seq<Side>, zr: seq<real>, zarea: seq<real>, smf: seq<real>, cm: seq<real>, lo: nat,
                         hi: nat) {
    && |maps| == |smf| == |cm| && |zr| == |zarea| && hi <= |cm|
    && forall s :: lo <= s < hi ==>
         maps[s].s3 < |maps| && maps[s].z < |zr| && cm[s] == MassOf(maps, zr, zarea, smf, s)
  }

  /** calcCrnrMass on one chunk of sides. */
  method CalcCrnrMass(maps: seq<Side>, zr: seq<real>, zarea: seq<real>, smf: seq<real>, cmaswt: array<real>,
                      sfirst: nat, slast: nat)
    requires |maps| == |smf| == cmaswt.Length && |zr| == |zarea| && sfirst <= slast <= cmaswt.Length
    requires Closed(maps, |zr|)
    modifies cmaswt
    ensures Masses(maps, zr, zarea, smf, cmaswt[..], sfirst, slast)
    ensures forall s :: 0 <= s < cmaswt.Length && !(sfirst <= s < slast) ==> cmaswt[s] == old(cmaswt[s])
  {
    hide CornerMass;
    var s := sfirst;
    while s < slast
      invariant sfirst <= s <= slast
      invariant forall t :: sfirst <= t < s ==> cmaswt[t] == MassOf(maps, zr, zarea, smf, t)
      invariant forall t :: 0 <= t < cmaswt.Length && !(sfirst <= t < s) ==> cmaswt[t] == old(cmaswt[t])
    {
      var s3, z := maps[s].s3, maps[s].z;
      var m := CornerMass(zr[z], zarea[z], smf[s], smf[s3]);
      cmaswt[s] := m;
      s := s + 1;
    }
  }

  function Share(a: real, whole: real): real
    requires whole != 0.0
  {
    a / whole
  }

  lemma ShareTimes(a: real, whole: real)
    requires whole != 0.0
    ensures Share(a, whole) * whole == a
  {
  }

  lemma SameProduct(x: real, y: real, whole: real)
    requires whole != 0.0 && x * whole == y * whole
    ensures x == y
  {
    assert (x - y) * whole == 0.0;
  }

  lemma ShareAdds(a: real, b: real, whole: real)
    requires whole != 0.0
    ensures Share(a, whole) + Share(b, whole) == Share(a + b, whole)
  {
    ShareTimes(a, whole);
    ShareTimes(b, whole);
    ShareTimes(a + b, whole);
    var x, y, z := Share(a, whole), Share(b, whole), Share(a + b, whole);
    hide Share;
    assert (x + y) * whole == x * whole + y * whole;
    SameProduct(x + y, z, whole);
  }

  lemma ShareOfAll(whole: real)
    requires whole != 0.0
    ensures Share(0.0, whole) == 0.0 && Share(whole, whole) == 1.0
  {
    ShareTimes(0.0, whole);
    ShareTimes(whole, whole);
    var x, y := Share(0.0, whole), Share(whole, whole);
    hide Share;
    assert 0.0 * whole == 0.0 && 1.0 * whole == whole;
    SameProduct(x, 0.0, whole);
    SameProduct(y, 1.0, whole);
  }

  /** After calcVols and calcSideFracs: the area of a zone is the sum of the areas of its
      sides, and smf holds the share of each side in it.  This is done once, for the
      initial mesh. */
  ghost predicate Shares(size: seq<nat>, sarea: seq<real>, zarea: seq<real>, smf: seq<real>, z: nat)
    requires z < |size| == |zarea| && |sarea| == |smf|
  {
    && Start(size, z) + size[z] <= |smf|
    && zarea[z] != 0.0 && zarea[z] == SumTo(sarea, Start(size, z) + size[z]) - SumTo(sarea, Start(size, z))
    && forall s :: Start(size, z) <= s < Start(size, z) + size[z] ==> smf[s] == Share(sarea[s], zarea[z])
  }

  lemma {:induction false} SharesOf(sarea: seq<real>, smf: seq<real>, whole: real, base: nat, n: nat)
    requires base + n <= |sarea| == |smf| && whole != 0.0
    requires forall s :: base <= s < base + n ==> smf[s] == Share(sarea[s], whole)
    ensures SumTo(smf, base + n) - SumTo(smf, base) == Share(SumTo(sarea, base + n) - SumTo(sarea, base), whole)
  {
    hide Share, SumTo;
    ShareOfAll(whole);
    if n > 0 {
      SharesOf(sarea, smf, whole, base, n - 1);
      var s := base + n - 1;
      SumNext(smf, s);
      SumNext(sarea, s);
      ShareAdds(SumTo(sarea, s) - SumTo(sarea, base), sarea[s], whole);
    }
  }

  /** The shares of a zone add up to one. */
  lemma SharesAddUp(size: seq<nat>, sarea: seq<real>, zarea: seq<real>, smf: seq<real>, z: nat)
    requires z < |size| == |zarea| && |sarea| == |smf| && Shares(size, sarea, zarea, smf, z)
    ensures Start(size, z) + size[z] <= |smf|
    ensures SumTo(smf, Start(size, z) + size[z]) - SumTo(smf, Start(size, z)) == 1.0
  {
    hide Start, Share, SumTo;
    SharesOf(sarea, smf, zarea[z], Start(size, z), size[z]);
    ShareOfAll(zarea[z]);
  }

  lemma MassAt(start: seq<nat>, size: seq<nat>, nodes: seq<nat>, maps: seq<Side>,
               zr: seq<real>, zarea: seq<real>, smf: seq<real>, cm: seq<real>, z: nat, n: nat)
    requires Layout(start, size, |nodes|) && Mapped(size, nodes, maps) && z < |size| == |zr| && n < size[z]
    requires Masses(maps, zr, zarea, smf, cm, 0, |maps|) && Start(size, z) + size[z] <= |maps|
    ensures |maps| == |smf| == |cm| && |zr| == |zarea|
    ensures
      var base := Start(size, z);
      cm[base + n] == CornerMass(zr[z], zarea[z], smf[base + n], smf[base + (if n == 0 then size[z] else n) - 1])
  {
    hide Start, Layout, Mapped, CornerMass;
    InZoneIf(size, z, Start(size, z) + n);
    MappedIs(start, size, nodes, maps, z, Start(size, z) + n);
  }

  /** What the first n corners of a zone add up to: each side counts half for its own
      corner and half for the next. */
  lemma {:induction false} ZoneMasses(start: seq<nat>, size: seq<nat>, nodes: seq<nat>, maps: seq<Side>,
                    zr: seq<real>, zarea: seq<real>, smf: seq<real>, cm: seq<real>, z: nat, n: nat)
    requires Layout(start, size, |nodes|) && Mapped(size, nodes, maps) && z < |size| == |zr| == |zarea|
    requires 1 <= n <= size[z]
    requires Masses(maps, zr, zarea, smf, cm, 0, |maps|) && Start(size, z) + size[z] <= |maps| == |smf| == |cm|
    ensures SumTo(cm, Start(size, z) + n) - SumTo(cm, Start(size, z)) ==
            CornerMass(zr[z], zarea[z], SumTo(smf, Start(size, z) + n) - SumTo(smf, Start(size, z)),
              SumTo(smf, Start(size, z) + n - 1) - SumTo(smf, Start(size, z)) + smf[Start(size, z) + size[z] - 1])
    decreases n
  {
    hide *;
    var base := Start(size, z);
    var s := base + n - 1;
    MassAt(start, size, nodes, maps, zr, zarea, smf, cm, z, n - 1);
    SumNext(cm, s);
    SumNext(smf, s);
    if n > 1 {
      ZoneMasses(start, size, nodes, maps, zr, zarea, smf, cm, z, n - 1);
      SumNext(smf, s - 1);
      MassMerge(zr[z], zarea[z], SumTo(smf, s) - SumTo(smf, base),
                SumTo(smf, s - 1) - SumTo(smf, base) + smf[base + size[z] - 1], smf[s], smf[s - 1]);
    }
  }

  function ZonesFirst(zr: seq<real>, zarea: seq<real>, n: nat): real
    requires n <= |zr| == |zarea|
  {
    if n == 0 then 0.0 else ZonesFirst(zr, zarea, n - 1) + ZoneMass(zr[n - 1], zarea[n - 1])
  }

  /** The mass of the first n zones: density times area. */
  function ZoneMassTo(zr: seq<real>, zarea: seq<real>, n: nat): real
    requires n <= |zr| == |zarea|
  {
    ZonesFirst(zr, zarea, n)
  }

  lemma ZoneMassNext(zr: seq<real>, zarea: seq<real>, n: nat)
    requires n < |zr| == |zarea|
    ensures ZoneMassTo(zr, zarea, n + 1) == ZoneMassTo(zr, zarea, n) + ZoneMass(zr[n], zarea[n])
  {
    hide ZoneMass;
  }

  lemma ZoneMassNone(zr: seq<real>, zarea: seq<real>)
    requires |zr| == |zarea|
    ensures ZoneMassTo(zr, zarea, 0) == 0.0
  {
  }

  lemma OneZone(start: seq<nat>, size: seq<nat>, nodes: seq<nat>, maps: seq<Side>, sarea0: seq<real>,
                zarea0: seq<real>, zr: seq<real>, zarea: seq<real>, smf: seq<real>, cm: seq<real>, z: nat)
    requires Layout(start, size, |nodes|) && Mapped(size, nodes, maps) && z < |size| == |zr| == |zarea| == |zarea0|
    requires |maps| == |smf| == |cm| == |sarea0| && Start(size, z) + size[z] <= |maps| && size[z] > 0
    requires Masses(maps, zr, zarea, smf, cm, 0, |maps|) && Shares(size, sarea0, zarea0, smf, z)
    ensures SumTo(cm, Start(size, z) + size[z]) - SumTo(cm, Start(size, z)) == ZoneMass(zr[z], zarea[z])
  {
    hide *;
    ZoneMasses(start, size, nodes, maps, zr, zarea, smf, cm, z, size[z]);
    SharesAddUp(size, sarea0, zarea0, smf, z);
    SumNext(smf, Start(size, z) + size[z] - 1);
    MassOfWhole(zr[z], zarea[z]);
  }

  ghost predicate AllShares(size: seq<nat>, sarea: seq<real>, zarea: seq<real>, smf: seq<real>) {
    && |size| == |zarea| && |sarea| == |smf|
    && forall z :: 0 <= z < |size| ==> Shares(size, sarea, zarea, smf, z)
  }

  lemma SharesAt(size: seq<nat>, sarea: seq<real>, zarea: seq<real>, smf: seq<real>, z: nat)
    requires AllShares(size, sarea, zarea, smf) && z < |size|
    ensures |size| == |zarea| && |sarea| == |smf| && Shares(size, sarea, zarea, smf, z)
  {
    hide Shares;
  }

  lemma {:induction false} MassesAdd(start: seq<nat>, size: seq<nat>, nodes: seq<nat>, maps: seq<Side>,
                                     sarea0: seq<real>, zarea0: seq<real>, zr: seq<real>, zarea: seq<real>,
                                     smf: seq<real>, cm: seq<real>, z: nat)
    requires Layout(start, size, |nodes|) && Mapped(size, nodes, maps) && z <= |size| == |zr| == |zarea|
    requires |maps| == |nodes| == |smf| == |cm| == |sarea0| && Start(size, z) <= |maps|
    requires Masses(maps, zr, zarea, smf, cm, 0, |maps|) && AllShares(size, sarea0, zarea0, smf)
    ensures SumTo(cm, Start(size, z)) == ZoneMassTo(zr, zarea, z)
  {
    hide *;
    if z == 0 {
      SumNone(cm);
      StartZero(size);
      ZoneMassNone(zr, zarea);
    } else {
      StartNext(size, z - 1);
      LayoutAt(start, size, |nodes|, z - 1);
      SharesAt(size, sarea0, zarea0, smf, z - 1);
      MassesAdd(start, size, nodes, maps, sarea0, zarea0, zr, zarea, smf, cm, z - 1);
      OneZone(start, size, nodes, maps, sarea0, zarea0, zr, zarea, smf, cm, z - 1);
      ZoneMassNext(zr, zarea, z - 1);
    }
  }

  /** The total mass of the points is the total mass of the zones, with the areas and
      densities of any later step and the shares of the initial areas. */
  lemma TotalMassKept(start: seq<nat>, size: seq<nat>, nodes: seq<nat>, maps: seq<Side>, mapsp1: seq<nat>,
                      sarea0: seq<real>, zarea0: seq<real>, zr: seq<real>, zarea: seq<real>, smf: seq<real>,
                      cm: seq<real>, pm: seq<real>)
    requires Layout(start, size, |nodes|) && Mapped(size, nodes, maps) && |size| == |zr| == |zarea|
    requires |maps| == |smf| == |cm| == |sarea0|
    requires Masses(maps, zr, zarea, smf, cm, 0, |maps|) && AllShares(size, sarea0, zarea0, smf)
    requires Summed(mapsp1, cm, pm)
    ensures SumTo(pm, |pm|) == ZoneMassTo(zr, zarea, |size|)
  {
    hide *;
    PointsKeepTotal(mapsp1, cm, pm);
    MappedTotal(size, nodes, maps);
    MassesAdd(start, size, nodes, maps, sarea0, zarea0, zr, zarea, smf, cm, |size|);
  }
}
