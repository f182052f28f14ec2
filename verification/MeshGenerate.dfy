/** generate: what one process makes of a mesh, as one of the processes that together
    form it. */
module MeshGenerate {
  import opened PointExchange
  import opened ZoneSplit
  import opened MeshPoints
  import opened MeshMatch
  import opened MeshBuild
  import opened MeshWorld
  import RectMesh
  import PieMesh
  import HexMesh
  import MeshSides
  import MeshCorners
  import PG = ProcessGrid

  method Generate(m: Mesh, mype: nat) returns (pointpos: seq<Key>, zl: ZoneLists, slave: Plan, master: Plan)
    requires ValidMesh(m) && mype < NumPe(m)
    ensures mype < |World(m)| && Pe(slave, master, pointpos) == World(m)[mype]
    ensures (m.kind == Hex ==> HexMesh.HexFits(m)) ==>
              var p := PartOf(m, XOf(m, mype), YOf(m, mype)); ListsZones(pointpos, zl, ZoneRows(m, p, p.nzy))
  {
    IndexOnGrid(m, mype);
    hide ListsZones, ZoneRows, PeAt, Start, Zones, HexMesh.HexFits;
    var mypex, mypey := XOf(m, mype), YOf(m, mype);
    var zxoffset := Start(mypex, m.gnzx, m.numpex);
    var zxstop := Start(mypex + 1, m.gnzx, m.numpex);
    var zyoffset := Start(mypey, m.gnzy, m.numpey);
    var zystop := Start(mypey + 1, m.gnzy, m.numpey);
    StartGrows(mypex, m.gnzx, m.numpex);
    StartGrows(mypey, m.gnzy, m.numpey);
    var p := Part(mypex, mypey, zxoffset, zyoffset, zxstop - zxoffset, zystop - zyoffset);
    PartIsThis(m, p);
    PartFacts(m, mypex, mypey);
    match m.kind
    case Pie => pointpos, zl, slave, master := PieMesh.GeneratePie(m, p);
    case Rect => pointpos, zl, slave, master := RectMesh.GenerateRect(m, p);
    case Hex => pointpos, zl, slave, master := HexMesh.GenerateHex(m, p);
  }

  lemma PartIsThis(m: Mesh, p: Part)
    requires ValidMesh(m)
    requires p.zx == Start(p.mx, m.gnzx, m.numpex) && p.zx + p.nzx == Start(p.mx + 1, m.gnzx, m.numpex)
    requires p.zy == Start(p.my, m.gnzy, m.numpey) && p.zy + p.nzy == Start(p.my + 1, m.gnzy, m.numpey)
    ensures p == PartOf(m, p.mx, p.my)
  {
    hide Start;
  }

  /** generate from the beginning: the grid of processes is calcNumPE's.  The lists are
      made when every process gets a zone along both axes; fits tells.  They then fit those
      of the other processes, and, except for hex meshes whose zone lists come out wrong,
      every local point is a corner of a local zone. */
  method GenerateMesh(kind: Kind, gnzx: nat, gnzy: nat, numpe: nat, mype: nat, n: real)
    returns (m: Mesh, fits: bool, pointpos: seq<Key>, zl: ZoneLists, slave: Plan, master: Plan)
    requires mype < numpe && 1 <= gnzx < PG.INT_LIMIT && 1 <= gnzy < PG.INT_LIMIT
    requires gnzx <= gnzy ==> PG.IsRoot(numpe, gnzx as real, gnzy as real, n)
    requires gnzx > gnzy ==> PG.IsRoot(numpe, gnzy as real, gnzx as real, n)
    ensures m.kind == kind && m.gnzx == gnzx && m.gnzy == gnzy && PG.Factors(numpe, m.numpex, m.numpey)
    ensures forall k: nat, q: nat :: PG.Factors(numpe, k, q) ==>
              PG.LongSide(gnzx as real, gnzy as real, m.numpex, m.numpey) <=
                PG.LongSide(gnzx as real, gnzy as real, k, q)
    ensures fits <==> ValidMesh(m)
    ensures fits ==> |World(m)| == numpe && Matched(World(m)) && Pe(slave, master, pointpos) == World(m)[mype]
    ensures fits && (kind == Hex ==> HexMesh.HexFits(m)) ==>
              && MeshSides.Layout(zl.start, zl.size, |zl.points|)
              && forall q :: 0 <= q < |pointpos| ==> q in zl.points
  {
    var numpex, numpey, mypex, mypey := PG.CalcNumPE(numpe, mype, gnzx, gnzy, n);
    m := Mesh(kind, gnzx, gnzy, numpex, numpey);
    fits := ValidMesh(m);
    pointpos, zl, slave, master := [], ZoneLists([], [], []), Plan([], [], []), Plan([], [], []);
    hide PG.LongSide, PG.IsRoot, HexMesh.HexFits, ListsZones, ZoneRows, Keys, PeAt, PG.Factors, NumPe, Matched,
         MeshSides.Layout, ZoneSplit.Start, ZoneSplit.Zones, PartOf, ValidPart;
    if fits {
      WorldSize(m, numpe);
      pointpos, zl, slave, master := Generate(m, mype);
      ListsMatch(m);
      ghost var p := PartOf(m, XOf(m, mype), YOf(m, mype));
      IndexOnGrid(m, mype);
      PartFacts(m, XOf(m, mype), YOf(m, mype));
      KeysOf(m, p);
      if kind == Hex ==> HexMesh.HexFits(m) {
        AllListed(m, p, zl);
      }
    }
  }

  lemma WorldSize(m: Mesh, numpe: nat)
    requires PG.Factors(numpe, m.numpex, m.numpey)
    ensures NumPe(m) == numpe
  {
  }

  lemma KeysOf(m: Mesh, p: Part)
    ensures PeAt(m, p).keys == Keys(m, p)
  {
  }

  lemma AllListed(m: Mesh, p: Part, zl: ZoneLists)
    requires ValidPart(m, p) && ListsZones(Keys(m, p), zl, ZoneRows(m, p, p.nzy))
    ensures MeshSides.Layout(zl.start, zl.size, |zl.points|)
    ensures forall q :: 0 <= q < |Keys(m, p)| ==> q in zl.points
  {
    assert MeshSides.Layout(zl.start, zl.size, |zl.points|);
    hide Keys, ListsZones, ZoneRows, MeshSides.Layout, ValidPart;
    forall q | 0 <= q < |Keys(m, p)|
      ensures q in zl.points
    {
      var s := MeshCorners.EveryPointListed(m, p, zl, q);
    }
  }
}
