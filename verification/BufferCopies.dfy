/** Copying a block of cells between the grids of boxes and message buffers. */
module BufferCopies {
  import opened Triples
  import opened GhostAxis
  import opened BoxLayout

  /** One end of a copy: the grid of a box, or the message buffer of a direction. */
  datatype End = Grid(box: int) | Buffer(n: int)

  /** A block of dim cells, read from one place and written to another. */
  datatype Copy = Copy(dim: Triple<int>, from: End, read: Triple<int>, readShape: Shape,
                       to: End, write: Triple<int>, writeShape: Shape)

  function Plus(a: Triple<int>, b: Triple<int>): Triple<int> {
    Triple(a.x + b.x, a.y + b.y, a.z + b.z)
  }

  predicate InBlock(c: Copy, t: Triple<int>) {
    InRange(Triple(0, 0, 0), t, c.dim)
  }

  function Source(c: Copy, t: Triple<int>): int {
    Index(c.readShape, Plus(c.read, t))
  }

  function Target(c: Copy, t: Triple<int>): int {
    Index(c.writeShape, Plus(c.write, t))
  }

  /** The block lies inside what is read and what is written. */
  ghost predicate Inside(c: Copy, readExtent: Triple<int>, writeExtent: Triple<int>) {
    && Fits(c.readShape, readExtent) && Fits(c.writeShape, writeExtent)
    && c.dim.x >= 0 && c.dim.y >= 0 && c.dim.z >= 0
    && forall t :: InBlock(c, t) ==>
         && InRange(Triple(0, 0, 0), Plus(c.read, t), readExtent)
         && InRange(Triple(0, 0, 0), Plus(c.write, t), writeExtent)
  }

  lemma Ends(c: Copy, re: Triple<int>, we: Triple<int>, t: Triple<int>)
    requires Inside(c, re, we) && InBlock(c, t)
    ensures 0 <= Source(c, t) < c.readShape.volume && 0 <= Target(c, t) < c.writeShape.volume
  {
    hide Index, Fits;
    IndexInside(c.readShape, re, Plus(c.read, t));
    IndexInside(c.writeShape, we, Plus(c.write, t));
  }

  lemma TargetsApart(c: Copy, re: Triple<int>, we: Triple<int>, t: Triple<int>, u: Triple<int>)
    requires Inside(c, re, we) && InBlock(c, t) && InBlock(c, u) && t != u
    ensures Target(c, t) != Target(c, u)
  {
    hide Index, Fits;
    if Target(c, t) == Target(c, u) {
      IndexInjective(c.writeShape, we, Plus(c.write, t), Plus(c.write, u));
    }
  }

  /** A copy within one grid does not write what it reads. */
  ghost predicate Apart(c: Copy) {
    forall t, u :: InBlock(c, t) && InBlock(c, u) ==> Source(c, t) != Target(c, u)
  }

  /** The cells copied when the loops reach k, j, i. */
  predicate Passed(t: Triple<int>, k: int, j: int, i: int) {
    t.z < k || (t.z == k && (t.y < j || (t.y == j && t.x < i)))
  }

  predicate Hits(c: Copy, t: Triple<int>, k: int, j: int, i: int, p: int) {
    InBlock(c, t) && Passed(t, k, j, i) && Target(c, t) == p
  }

  /** The passed cells have been copied and nothing else has changed. */
  ghost predicate CopiedTo(c: Copy, src: seq<real>, was: seq<real>, now: seq<real>, k: int, j: int, i: int) {
    && |now| == |was| == c.writeShape.volume && |src| == c.readShape.volume
    && (forall t :: InBlock(c, t) && Passed(t, k, j, i) ==> CellCopied(c, src, now, t))
    && forall p :: 0 <= p < |now| && (forall t :: !Hits(c, t, k, j, i, p)) ==> now[p] == was[p]
  }

  ghost predicate CellCopied(c: Copy, src: seq<real>, now: seq<real>, t: Triple<int>) {
    0 <= Source(c, t) < |src| && 0 <= Target(c, t) < |now| && now[Target(c, t)] == src[Source(c, t)]
  }

  /** The whole block has been copied and nothing else has changed. */
  ghost predicate Copied(c: Copy, src: seq<real>, was: seq<real>, now: seq<real>) {
    CopiedTo(c, src, was, now, c.dim.z, 0, 0)
  }

  lemma StepCopied(c: Copy, re: Triple<int>, we: Triple<int>, src: seq<real>, was: seq<real>, now: seq<real>,
                   after: seq<real>, k: int, j: int, i: int)
    requires Inside(c, re, we) && InBlock(c, Triple(i, j, k)) && CopiedTo(c, src, was, now, k, j, i)
    requires 0 <= Target(c, Triple(i, j, k)) < |now| && 0 <= Source(c, Triple(i, j, k)) < |src|
    requires after == now[Target(c, Triple(i, j, k)) := src[Source(c, Triple(i, j, k))]]
    ensures CopiedTo(c, src, was, after, k, j, i + 1)
  {
    hide Inside, Source, Target, InBlock;
    var cur, next := Triple(i, j, k), i + 1;
    forall t | InBlock(c, t) && Passed(t, k, j, next)
      ensures CellCopied(c, src, after, t)
    {
      if t != cur {
        assert Passed(t, k, j, i);
        assert CellCopied(c, src, now, t);
        TargetsApart(c, re, we, t, cur);
      }
    }
    forall p | 0 <= p < |after| && (forall t :: !Hits(c, t, k, j, next, p))
      ensures after[p] == was[p]
    {
      assert !Hits(c, cur, k, j, next, p);
      forall t
        ensures !Hits(c, t, k, j, i, p)
      {
        assert !Hits(c, t, k, j, next, p);
      }
    }
  }

  /** The end of a pencil is the start of the next, and the end of a plane too. */
  lemma RowsMeet(c: Copy, src: seq<real>, was: seq<real>, now: seq<real>, k: int, j: int, i: int, k': int, j': int)
    requires CopiedTo(c, src, was, now, k, j, i)
    requires (k' == k && j' == j + 1 && i >= c.dim.x) || (k' == k + 1 && j' == 0 && j >= c.dim.y && i >= 0)
    requires k' == k + 1 ==> i == 0
    ensures CopiedTo(c, src, was, now, k', j', 0)
  {
    hide Source, Target;
    forall t | InBlock(c, t)
      ensures Passed(t, k, j, i) == Passed(t, k', j', 0)
    {
    }
    forall p, t
      ensures Hits(c, t, k, j, i, p) == Hits(c, t, k', j', 0, p)
    {
    }
  }

  lemma NoneCopied(c: Copy, src: seq<real>, was: seq<real>)
    requires |was| == c.writeShape.volume && |src| == c.readShape.volume
    ensures CopiedTo(c, src, was, was, 0, 0, 0)
  {
    hide Source, Target;
  }

  /** The innermost loop, with its short cases written out. */
  method CopyPencil(c: Copy, read: array<real>, write: array<real>, k: int, j: int,
                    ghost re: Triple<int>, ghost we: Triple<int>, ghost src: seq<real>, ghost was: seq<real>)
    requires Inside(c, re, we) && read.Length == c.readShape.volume && write.Length == c.writeShape.volume
    requires 0 <= k < c.dim.z && 0 <= j < c.dim.y && CopiedTo(c, src, was, write[..], k, j, 0)
    requires if read == write then Apart(c) && src == was else src == read[..]
    modifies write
    ensures CopiedTo(c, src, was, write[..], k, j, c.dim.x)
  {
    hide Inside, CopiedTo, Apart, Target, Source;
    var i := 0;
    if c.dim.x == 1 {
      CopyCell(c, read, write, k, j, 0, re, we, src, was);
    } else if c.dim.x == 4 {
      CopyCell(c, read, write, k, j, 0, re, we, src, was);
      CopyCell(c, read, write, k, j, 1, re, we, src, was);
      CopyCell(c, read, write, k, j, 2, re, we, src, was);
      CopyCell(c, read, write, k, j, 3, re, we, src, was);
    } else {
      DimX(c, re, we);
      while i < c.dim.x
        invariant 0 <= i <= c.dim.x
        invariant CopiedTo(c, src, was, write[..], k, j, i)
        invariant read != write ==> src == read[..]
      {
        CopyCell(c, read, write, k, j, i, re, we, src, was);
        i := i + 1;
      }
    }
  }

  lemma DimX(c: Copy, re: Triple<int>, we: Triple<int>)
    requires Inside(c, re, we)
    ensures c.dim.x >= 0 && c.dim.y >= 0 && c.dim.z >= 0
  {
  }

  /** A cell that is read has not been written. */
  lemma StillSource(c: Copy, src: seq<real>, now: seq<real>, k: int, j: int, i: int, t: Triple<int>)
    requires Apart(c) && CopiedTo(c, src, src, now, k, j, i) && InBlock(c, t) && 0 <= Source(c, t) < |src|
    requires |now| == |src|
    ensures now[Source(c, t)] == src[Source(c, t)]
  {
    hide Source, Target;
    forall u
      ensures !Hits(c, u, k, j, i, Source(c, t))
    {
      if InBlock(c, u) {
        assert Source(c, t) != Target(c, u);
      }
    }
  }

  method CopyCell(c: Copy, read: array<real>, write: array<real>, k: int, j: int, i: int,
                  ghost re: Triple<int>, ghost we: Triple<int>, ghost src: seq<real>, ghost was: seq<real>)
    requires Inside(c, re, we) && read.Length == c.readShape.volume && write.Length == c.writeShape.volume
    requires InBlock(c, Triple(i, j, k)) && CopiedTo(c, src, was, write[..], k, j, i)
    requires if read == write then Apart(c) && src == was else src == read[..]
    modifies write
    ensures CopiedTo(c, src, was, write[..], k, j, i + 1)
  {
    hide Inside, CopiedTo, Apart, Target, Source;
    var cur := Triple(i, j, k);
    Ends(c, re, we, cur);
    CopiedSizes(c, src, was, write[..], k, j, i);
    if read == write {
      StillSource(c, src, write[..], k, j, i, cur);
    }
    ghost var now := write[..];
    write[Target(c, cur)] := read[Source(c, cur)];
    StepCopied(c, re, we, src, was, now, write[..], k, j, i);
  }

  lemma CopiedSizes(c: Copy, src: seq<real>, was: seq<real>, now: seq<real>, k: int, j: int, i: int)
    requires CopiedTo(c, src, was, now, k, j, i)
    ensures |now| == |was| == c.writeShape.volume && |src| == c.readShape.volume
  {
  }

  /** DoBufferCopy */
  method DoBufferCopy(c: Copy, read: array<real>, write: array<real>, ghost re: Triple<int>, ghost we: Triple<int>)
    requires Inside(c, re, we) && read.Length == c.readShape.volume && write.Length == c.writeShape.volume
    requires read == write ==> Apart(c)
    modifies write
    ensures Copied(c, old(read[..]), old(write[..]), write[..])
  {
    hide Inside, CopiedTo, Apart;
    ghost var src, was := read[..], write[..];
    NoneCopied(c, src, was);
    DimX(c, re, we);
    var k := 0;
    while k < c.dim.z
      invariant 0 <= k <= c.dim.z && CopiedTo(c, src, was, write[..], k, 0, 0)
      invariant read != write ==> src == read[..]
    {
      var j := 0;
      while j < c.dim.y
        invariant 0 <= j <= c.dim.y && CopiedTo(c, src, was, write[..], k, j, 0)
        invariant read != write ==> src == read[..]
      {
        CopyPencil(c, read, write, k, j, re, we, src, was);
        RowsMeet(c, src, was, write[..], k, j, c.dim.x, k, j + 1);
        j := j + 1;
      }
      RowsMeet(c, src, was, write[..], k, j, 0, k + 1, 0);
      k := k + 1;
    }
  }
}
