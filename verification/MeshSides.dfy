/** The sides of a mesh: numbered zone by zone around each zone, with the points they
    join and the sides before and after them. */
module MeshSides {
  import opened MeshChunks

  function SizesBefore(size: seq<nat>, z: nat): nat
    requires z <= |size|
  {
    if z == 0 then 0 else SizesBefore(size, z - 1) + size[z - 1]
  }

  /** The first side of zone z: the sides of the zones before it come first. */
  function Start(size: seq<nat>, z: nat): nat
    requires z <= |size|
  {
    SizesBefore(size, z)
  }

  lemma StartNext(size: seq<nat>, z: nat)
    requires z < |size|
    ensures Start(size, 0) == 0
    ensures Start(size, z + 1) == Start(size, z) + size[z]
  {
  }

  /** Zones have sides, and occupy consecutive ranges that make up all of them. */
  ghost predicate Layout(start: seq<nat>, size: seq<nat>, nums: nat) {
    && |start| == |size| && nums == Start(size, |size|)
    && forall z :: 0 <= z < |size| ==> size[z] > 0 && start[z] == Start(size, z)
  }

  lemma {:induction false} StartPrefix(size: seq<nat>, n: nat, z: nat)
    requires z <= |size|
    ensures Start(size + [n], z) == Start(size, z)
  {
    if z > 0 {
      StartPrefix(size, n, z - 1);
    }
  }

  /** One more zone behind the others. */
  lemma LayoutMore(start: seq<nat>, size: seq<nat>, nums: nat, n: nat)
    requires Layout(start, size, nums) && n > 0
    ensures Layout(start + [nums], size + [n], nums + n)
  {
    forall z | 0 <= z <= |size|
      ensures Start(size + [n], z) == Start(size, z)
    {
      StartPrefix(size, n, z);
    }
    StartNext(size + [n], |size|);
    hide Start;
  }

  lemma {:induction false} StartsInOrder(size: seq<nat>, y: nat, z: nat)
    requires y <= z <= |size|
    ensures Start(size, y) <= Start(size, z)
    decreases z - y
  {
    hide Start;
    if y < z {
      StartsInOrder(size, y, z - 1);
      StartNext(size, z - 1);
    }
  }

  lemma LayoutTotal(start: seq<nat>, size: seq<nat>, nums: nat)
    requires Layout(start, size, nums)
    ensures |start| == |size| && nums == Start(size, |size|)
  {
  }

  lemma LayoutAt(start: seq<nat>, size: seq<nat>, nums: nat, z: nat)
    requires Layout(start, size, nums) && z < |size|
    ensures |start| == |size| && start[z] == Start(size, z) && size[z] > 0 && start[z] + size[z] <= nums
  {
    StartsInOrder(size, z + 1, |size|);
    StartNext(size, z);
  }

  ghost predicate InZone(size: seq<nat>, z: nat, s: nat) {
    z < |size| && Start(size, z) <= s < Start(size, z + 1)
  }

  lemma FindZone(size: seq<nat>, s: nat) returns (z: nat)
    requires s < Start(size, |size|)
    ensures InZone(size, z, s)
  {
    assert size != [];
    StartNext(size, 0);
    hide Start;
    z := 0;
    while Start(size, z + 1) <= s
      invariant z < |size| && Start(size, z) <= s
      decreases |size| - z
    {
      z := z + 1;
    }
  }

  /** What the maps hold about one side: its zone, its two points, and the sides before
      and after it around the zone. */
  datatype Side = Side(z: nat, p1: nat, p2: nat, s3: nat, s4: nat)

  /** Side number n of zone z. */
  function SideOf(nodes: seq<nat>, z: nat, base: nat, size: nat, n: nat): Side
    requires n < size && base + size <= |nodes|
  {
    var s3 := base + (if n == 0 then size else n) - 1;
    var s4 := base + if n + 1 == size then 0 else n + 1;
    Side(z, nodes[base + n], nodes[s4], s3, s4)
  }

  /** The maps are right for the side s of zone z. */
  ghost predicate MappedAt(size: seq<nat>, nodes: seq<nat>, maps: seq<Side>, z: nat, s: nat)
    requires |maps| == |nodes| == Start(size, |size|)
  {
    InZone(size, z, s) ==>
      && Start(size, z) + size[z] <= |nodes|
      && maps[s] == SideOf(nodes, z, Start(size, z), size[z], s - Start(size, z))
  }

  /** The maps are right for the sides of the zones before z. */
  ghost predicate MappedTo(size: seq<nat>, nodes: seq<nat>, maps: seq<Side>, z: nat) {
    && |maps| == |nodes| == Start(size, |size|)
    && forall y, s :: 0 <= y < z && 0 <= s < |nodes| ==> MappedAt(size, nodes, maps, y, s)
  }

  ghost predicate Mapped(size: seq<nat>, nodes: seq<nat>, maps: seq<Side>) {
    MappedTo(size, nodes, maps, |size|)
  }

  /** The sides of one zone are filled in. */
  ghost predicate Filled(nodes: seq<nat>, maps: seq<Side>, z: nat, base: nat, size: nat, upto: nat) {
    && base + size <= |nodes| == |maps| && upto <= size
    && forall n :: 0 <= n < upto ==> maps[base + n] == SideOf(nodes, z, base, size, n)
  }

  ghost predicate SameTo(before: seq<Side>, after: seq<Side>, s: nat) {
    |before| == |after| && forall t :: 0 <= t < s && t < |before| ==> after[t] == before[t]
  }

  /** initSides */
  method InitSides(start: seq<nat>, size: seq<nat>, nodes: seq<nat>) returns (maps: array<Side>)
    requires Layout(start, size, |nodes|)
    ensures fresh(maps) && Mapped(size, nodes, maps[..])
  {
    maps := new Side[|nodes|](_ => Side(0, 0, 0, 0, 0));
    var z := 0;
    LayoutTotal(start, size, |nodes|);
    hide MappedAt, Filled, SameTo, Start, Layout, SideOf;
    while z < |size|
      invariant 0 <= z <= |size| && maps.Length == |nodes|
      invariant MappedTo(size, nodes, maps[..], z)
    {
      LayoutAt(start, size, |nodes|, z);
      ghost var before := maps[..];
      FillZone(start[z], size[z], nodes, z, maps);
      FillKeeps(size, nodes, before, maps[..], z);
      z := z + 1;
    }
  }

  /** The loop over the sides of one zone. */
  method FillZone(sbase: nat, size: nat, nodes: seq<nat>, z: nat, maps: array<Side>)
    requires sbase + size <= |nodes| == maps.Length
    modifies maps
    ensures Filled(nodes, maps[..], z, sbase, size, size)
    ensures SameTo(old(maps[..]), maps[..], sbase)
  {
    for n := 0 to size
      invariant Filled(nodes, maps[..], z, sbase, size, n)
      invariant SameTo(old(maps[..]), maps[..], sbase)
    {
      var s := sbase + n;
      var snext := sbase + if n + 1 == size then 0 else n + 1;
      var slast := sbase + (if n == 0 then size else n) - 1;
      maps[s] := Side(z, nodes[s], nodes[snext], slast, snext);
    }
  }

  lemma KeptAt(size: seq<nat>, nodes: seq<nat>, before: seq<Side>, after: seq<Side>, z: nat, y: nat, s: nat)
    requires |before| == |after| == |nodes| == Start(size, |size|) && y < z <= |size|
    requires MappedAt(size, nodes, before, y, s) && SameTo(before, after, Start(size, z))
    ensures MappedAt(size, nodes, after, y, s)
  {
    hide SideOf;
    StartsInOrder(size, y + 1, z);
    StartsInOrder(size, y + 1, |size|);
  }

  lemma FilledAt(size: seq<nat>, nodes: seq<nat>, after: seq<Side>, z: nat, s: nat)
    requires |after| == |nodes| == Start(size, |size|) && z < |size|
    requires Filled(nodes, after, z, Start(size, z), size[z], size[z])
    ensures MappedAt(size, nodes, after, z, s)
  {
    StartNext(size, z);
    hide Start, SideOf;
    if InZone(size, z, s) {
      var base, n := Start(size, z), s - Start(size, z);
      assert after[base + n] == SideOf(nodes, z, base, size[z], n);
    }
  }

  lemma FillKeeps(size: seq<nat>, nodes: seq<nat>, before: seq<Side>, after: seq<Side>, z: nat)
    requires |after| == |nodes| && z < |size| && MappedTo(size, nodes, before, z)
    requires SameTo(before, after, Start(size, z)) && Filled(nodes, after, z, Start(size, z), size[z], size[z])
    ensures MappedTo(size, nodes, after, z + 1)
  {
    hide MappedAt, Filled, SameTo;
    forall y, s | 0 <= y < z + 1 && 0 <= s < |nodes|
      ensures MappedAt(size, nodes, after, y, s)
    {
      if y < z {
        KeptAt(size, nodes, before, after, z, y, s);
      } else {
        FilledAt(size, nodes, after, z, s);
      }
    }
  }

  // ----- what the maps give

  function ZonesOf(maps: seq<Side>): (zs: seq<nat>)
    ensures |zs| == |maps| && forall s :: 0 <= s < |maps| ==> zs[s] == maps[s].z
  {
    seq(|maps|, s requires 0 <= s < |maps| => maps[s].z)
  }

  lemma MappedIs(start: seq<nat>, size: seq<nat>, nodes: seq<nat>, maps: seq<Side>, z: nat, s: nat)
    requires Layout(start, size, |nodes|) && Mapped(size, nodes, maps) && InZone(size, z, s)
    ensures z < |size| && s < |nodes| == |maps| && Start(size, z) + size[z] <= |nodes|
    ensures Start(size, z) <= s < Start(size, z) + size[z]
    ensures maps[s] == SideOf(nodes, z, Start(size, z), size[z], s - Start(size, z))
  {
    hide Start, SideOf;
    StartNext(size, z);
    StartsInOrder(size, z + 1, |size|);
    assert MappedAt(size, nodes, maps, z, s);
  }

  lemma MappedZone(start: seq<nat>, size: seq<nat>, nodes: seq<nat>, maps: seq<Side>, z: nat, s: nat)
    requires Layout(start, size, |nodes|) && Mapped(size, nodes, maps)
    requires z < |size| && Start(size, z) <= s < Start(size, z) + size[z]
    ensures s < |maps| && maps[s].z == z
  {
    InZoneIf(size, z, s);
    MappedIs(start, size, nodes, maps, z, s);
    hide Start, Layout, Mapped;
  }

  lemma InZoneIf(size: seq<nat>, z: nat, s: nat)
    requires z < |size| && Start(size, z) <= s < Start(size, z) + size[z]
    ensures InZone(size, z, s)
  {
    StartNext(size, z);
    hide Start;
  }

  lemma ZoneOf(start: seq<nat>, size: seq<nat>, nodes: seq<nat>, maps: seq<Side>, s: nat) returns (z: nat)
    requires Layout(start, size, |nodes|) && Mapped(size, nodes, maps) && s < |maps|
    ensures InZone(size, z, s)
  {
    hide Start, SideOf;
    z := FindZone(size, s);
  }

  /** The side before and the side after undo each other, and stay in the zone; the
      second point of a side is the first point of the next one. */
  lemma NeighboursUndo(start: seq<nat>, size: seq<nat>, nodes: seq<nat>, maps: seq<Side>, s: nat)
    requires Layout(start, size, |nodes|) && Mapped(size, nodes, maps) && s < |maps|
    ensures maps[s].s3 < |maps| && maps[s].s4 < |maps|
    ensures maps[maps[s].s3].s4 == s && maps[maps[s].s4].s3 == s
    ensures maps[maps[s].s3].z == maps[s].z == maps[maps[s].s4].z
    ensures maps[s].p2 == maps[maps[s].s4].p1
  {
    var z := ZoneOf(start, size, nodes, maps, s);
    hide Start, Layout, Mapped, InZone;
    MappedIs(start, size, nodes, maps, z, s);
    InZoneIf(size, z, maps[s].s3);
    InZoneIf(size, z, maps[s].s4);
    MappedIs(start, size, nodes, maps, z, maps[s].s3);
    MappedIs(start, size, nodes, maps, z, maps[s].s4);
  }

  /** Sides are numbered zone by zone: what cutting them into chunks relies on. */
  lemma SidesByZone(start: seq<nat>, size: seq<nat>, nodes: seq<nat>, maps: seq<Side>)
    requires Layout(start, size, |nodes|) && Mapped(size, nodes, maps)
    ensures ZoneBySide(ZonesOf(maps), |size|)
  {
    var zs := ZonesOf(maps);
    LayoutTotal(start, size, |nodes|);
    if |size| > 0 {
      FirstAndLastZone(start, size, nodes, maps);
    }
    hide Start, SideOf, Layout, Mapped;
    forall s | 0 <= s < |zs| - 1
      ensures zs[s] <= zs[s + 1] <= zs[s] + 1
    {
      NextZone(start, size, nodes, maps, s);
    }
  }

  lemma NextZone(start: seq<nat>, size: seq<nat>, nodes: seq<nat>, maps: seq<Side>, s: nat)
    requires Layout(start, size, |nodes|) && Mapped(size, nodes, maps) && s + 1 < |maps|
    ensures maps[s].z <= maps[s + 1].z <= maps[s].z + 1
  {
    hide *;
    var z := ZoneOf(start, size, nodes, maps, s);
    MappedTotal(size, nodes, maps);
    InZoneMeans(size, z, s);
    MappedZone(start, size, nodes, maps, z, s);
    if s + 1 < Start(size, z) + size[z] {
      MappedZone(start, size, nodes, maps, z, s + 1);
    } else {
      assert z + 1 < |size|;
      LayoutAt(start, size, |nodes|, z + 1);
      StartNext(size, z + 1);
      MappedZone(start, size, nodes, maps, z + 1, s + 1);
    }
  }

  lemma InZoneMeans(size: seq<nat>, z: nat, s: nat)
    requires InZone(size, z, s)
    ensures z < |size| && Start(size, z) <= s < Start(size, z + 1) == Start(size, z) + size[z]
  {
    StartNext(size, z);
    hide Start;
  }

  /** A side lies in the zone that its map names. */
  lemma SideZone(start: seq<nat>, size: seq<nat>, nodes: seq<nat>, maps: seq<Side>, s: nat)
    requires Layout(start, size, |nodes|) && Mapped(size, nodes, maps) && s < |maps|
    ensures InZone(size, maps[s].z, s)
  {
    hide *;
    var z := ZoneOf(start, size, nodes, maps, s);
    InZoneMeans(size, z, s);
    MappedZone(start, size, nodes, maps, z, s);
  }

  lemma MappedTotal(size: seq<nat>, nodes: seq<nat>, maps: seq<Side>)
    requires Mapped(size, nodes, maps)
    ensures |maps| == |nodes| == Start(size, |size|)
  {
  }

  lemma FirstAndLastZone(start: seq<nat>, size: seq<nat>, nodes: seq<nat>, maps: seq<Side>)
    requires Layout(start, size, |nodes|) && Mapped(size, nodes, maps) && size != []
    ensures maps != [] && maps[0].z == 0 && maps[|maps| - 1].z == |size| - 1
  {
    MappedTotal(size, nodes, maps);
    hide *;
    LayoutAt(start, size, |nodes|, 0);
    StartNext(size, 0);
    MappedZone(start, size, nodes, maps, 0, 0);
    var last := |size| - 1;
    LayoutAt(start, size, |nodes|, last);
    StartNext(size, last);
    MappedZone(start, size, nodes, maps, last, |maps| - 1);
  }
}
