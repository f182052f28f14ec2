/** Cutting the sides, points and zones of a mesh into chunks for the threads. */
module MeshChunks {

  /** Sides are numbered zone by zone: mapsz is non-decreasing and runs through every
      zone from 0 to the last. */
  predicate ZoneBySide(mapsz: seq<nat>, numz: nat) {
    && (forall s :: 0 <= s < |mapsz| - 1 ==> mapsz[s] <= mapsz[s + 1] <= mapsz[s] + 1)
    && (mapsz != [] ==> mapsz[0] == 0 && mapsz[|mapsz| - 1] == numz - 1)
    && (mapsz == [] ==> numz == 0)
  }

  lemma {:induction false} ZonesInOrder(mapsz: seq<nat>, numz: nat, s: nat, t: nat)
    requires ZoneBySide(mapsz, numz) && s <= t < |mapsz|
    ensures mapsz[s] <= mapsz[t]
    decreases t - s
  {
    if s < t {
      ZonesInOrder(mapsz, numz, s, t - 1);
      var u := t - 1;
      assert mapsz[u] <= mapsz[u + 1];
    }
  }

  function Min(a: int, b: int): int {
    if a <= b then a else b
  }

  /** Where the inner loop stops moving the cut back.  The loop has no test against the
      start: with a first zone that is too long it goes on to read the entry before the
      first; the model stops there. */
  function CutBack(mapsz: seq<nat>, s2: nat): (cut: nat)
    requires s2 <= |mapsz|
    ensures cut <= s2
  {
    if 0 < s2 < |mapsz| && mapsz[s2] == mapsz[s2 - 1] then CutBack(mapsz, s2 - 1) else s2
  }

  /** A cut between s - 1 and s splits no zone. */
  predicate Whole(mapsz: seq<nat>, s: nat) {
    s == 0 || s >= |mapsz| || mapsz[s] != mapsz[s - 1]
  }

  /** No zone has more than chunksize sides. */
  predicate ZonesFit(mapsz: seq<nat>, chunksize: nat) {
    forall s :: 0 <= s && s + chunksize < |mapsz| ==> mapsz[s] != mapsz[s + chunksize]
  }

  /** The cut after the one at s1. */
  function NextCut(mapsz: seq<nat>, chunksize: nat, s1: nat): (s2: nat)
    ensures s2 <= |mapsz|
  {
    CutBack(mapsz, Min(s1 + chunksize, |mapsz|))
  }

  /** The cut after k rounds of the loop, which ends at a cut behind the last side. */
  function CutAfter(mapsz: seq<nat>, chunksize: nat, k: nat): (s: nat)
    ensures s <= |mapsz|
  {
    if k == 0 then 0
    else
      var s1 := CutAfter(mapsz, chunksize, k - 1);
      if s1 == |mapsz| then s1 else NextCut(mapsz, chunksize, s1)
  }

  /** The loop comes to an end. */
  ghost predicate CutsEnd(mapsz: seq<nat>, chunksize: nat) {
    exists k: nat :: CutAfter(mapsz, chunksize, k) == |mapsz|
  }

  /** From a cut that splits no zone, the next cut makes progress exactly when the zone
      that starts there fits in a chunk. */
  lemma ProgressExactly(mapsz: seq<nat>, numz: nat, s1: nat, chunksize: nat)
    requires ZoneBySide(mapsz, numz) && s1 < |mapsz| && Whole(mapsz, s1) && chunksize > 0
    ensures NextCut(mapsz, chunksize, s1) > s1 <==> s1 + chunksize >= |mapsz| || mapsz[s1 + chunksize] != mapsz[s1]
    ensures NextCut(mapsz, chunksize, s1) > s1 ==> Whole(mapsz, NextCut(mapsz, chunksize, s1))
  {
    var s2 := Min(s1 + chunksize, |mapsz|);
    if s1 + chunksize < |mapsz| {
      CutBackStops(mapsz, numz, s1, s2);
    }
  }

  /** The cut moves back to s1 or beyond exactly when it is made in the zone of s1. */
  lemma {:induction false} CutBackStops(mapsz: seq<nat>, numz: nat, s1: nat, s2: nat)
    requires ZoneBySide(mapsz, numz) && s1 < s2 < |mapsz|
    ensures CutBack(mapsz, s2) > s1 <==> mapsz[s2] != mapsz[s1]
    ensures CutBack(mapsz, s2) > s1 ==> Whole(mapsz, CutBack(mapsz, s2))
    decreases s2
  {
    ZonesInOrder(mapsz, numz, s1, s2 - 1);
    ZonesInOrder(mapsz, numz, s2 - 1, s2);
    if mapsz[s2] == mapsz[s2 - 1] && s1 < s2 - 1 {
      CutBackStops(mapsz, numz, s1, s2 - 1);
    }
  }

  lemma {:induction false} CutsAdvance(mapsz: seq<nat>, numz: nat, chunksize: nat, k: nat)
    requires ZoneBySide(mapsz, numz) && chunksize > 0 && ZonesFit(mapsz, chunksize)
    ensures Whole(mapsz, CutAfter(mapsz, chunksize, k))
    ensures CutAfter(mapsz, chunksize, k) >= k || CutAfter(mapsz, chunksize, k) == |mapsz|
  {
    hide NextCut, ZoneBySide, ZonesFit;
    if k > 0 {
      CutsAdvance(mapsz, numz, chunksize, k - 1);
      var s1 := CutAfter(mapsz, chunksize, k - 1);
      if s1 < |mapsz| {
        FitsAt(mapsz, numz, s1, chunksize);
      }
    }
  }

  /** The first side of the zone of s. */
  lemma {:induction false} ZoneStart(mapsz: seq<nat>, numz: nat, s: nat) returns (f: nat)
    requires ZoneBySide(mapsz, numz) && s < |mapsz|
    ensures f <= s && Whole(mapsz, f) && mapsz[f] == mapsz[s]
  {
    f := s;
    if s > 0 && mapsz[s] == mapsz[s - 1] {
      f := ZoneStart(mapsz, numz, s - 1);
    }
  }

  /** No cut gets past the first side of a zone that is too long. */
  lemma {:induction false} CutsStuck(mapsz: seq<nat>, numz: nat, chunksize: nat, f: nat, k: nat)
    requires ZoneBySide(mapsz, numz) && chunksize > 0 && f + chunksize < |mapsz|
    requires mapsz[f] == mapsz[f + chunksize]
    ensures CutAfter(mapsz, chunksize, k) <= f
  {
    hide ZoneBySide, CutBack;
    if k > 0 {
      CutsStuck(mapsz, numz, chunksize, f, k - 1);
      var s2 := CutAfter(mapsz, chunksize, k - 1) + chunksize;
      if s2 > f {
        ZonesInOrder(mapsz, numz, f, s2);
        ZonesInOrder(mapsz, numz, s2, f + chunksize);
        CutBackStops(mapsz, numz, f, s2);
      }
    }
  }

  /** The loop of initChunks comes to an end if and only if no zone has more sides than a
      chunk may have. */
  lemma EndsExactly(mapsz: seq<nat>, numz: nat, chunksize: nat)
    requires ZoneBySide(mapsz, numz) && chunksize > 0
    ensures CutsEnd(mapsz, chunksize) <==> ZonesFit(mapsz, chunksize)
  {
    hide ZoneBySide, CutAfter;
    if ZonesFit(mapsz, chunksize) {
      CutsAdvance(mapsz, numz, chunksize, |mapsz|);
      assert CutAfter(mapsz, chunksize, |mapsz|) == |mapsz|;
    } else {
      var s: nat :| s + chunksize < |mapsz| && mapsz[s] == mapsz[s + chunksize];
      var f := ZoneStart(mapsz, numz, s);
      ZonesInOrder(mapsz, numz, f, f + chunksize);
      ZonesInOrder(mapsz, numz, f + chunksize, s + chunksize);
      forall k: nat
        ensures CutAfter(mapsz, chunksize, k) < |mapsz|
      {
        CutsStuck(mapsz, numz, chunksize, f, k);
      }
    }
  }

  /** Two triangles, in chunks of two sides: the cut stays at 0. */
  lemma TriangleTooLong()
    ensures ZoneBySide([0, 0, 0, 1, 1, 1], 2) && !CutsEnd([0, 0, 0, 1, 1, 1], 2)
  {
    var mapsz: seq<nat> := [0, 0, 0, 1, 1, 1];
    assert mapsz[0] == mapsz[0 + 2];
    EndsExactly(mapsz, 2, 2);
  }

  /** The chunks are contiguous and cover [0, n). */
  predicate Covers(first: seq<nat>, last: seq<nat>, n: nat) {
    && |first| == |last|
    && (forall k :: 0 <= k < |first| ==> first[k] < last[k] <= n)
    && (forall k :: 0 < k < |first| ==> first[k] == last[k - 1])
    && (if first == [] then n == 0 else first[0] == 0 && last[|last| - 1] == n)
  }

  lemma CoversMore(first: seq<nat>, last: seq<nat>, n: nat, m: nat)
    requires Covers(first, last, n) && n < m
    ensures Covers(first + [n], last + [m], m)
  {
  }

  /** Every index is in exactly one chunk. */
  lemma {:induction false} CoversOnce(first: seq<nat>, last: seq<nat>, n: nat, i: nat) returns (k: nat)
    requires Covers(first, last, n) && i < n
    ensures k < |first| && first[k] <= i < last[k]
    ensures forall j :: 0 <= j < |first| && first[j] <= i < last[j] ==> j == k
  {
    k := 0;
    while last[k] <= i
      invariant k < |first| && first[k] <= i
      decreases |first| - k
    {
      k := k + 1;
    }
    forall j | 0 <= j < |first| && first[j] <= i < last[j]
      ensures j == k
    {
      if j < k {
        ChunksInOrder(first, last, n, j, k);
      } else if k < j {
        ChunksInOrder(first, last, n, k, j);
      }
    }
  }

  lemma {:induction false} ChunksInOrder(first: seq<nat>, last: seq<nat>, n: nat, j: nat, k: nat)
    requires Covers(first, last, n) && j < k < |first|
    ensures last[j] <= first[k]
    decreases k - j
  {
    if j + 1 < k {
      ChunksInOrder(first, last, n, j, k - 1);
    }
  }

  /** The point and zone chunks. */
  method EqualChunks(n: nat, chunksize: nat) returns (first: seq<nat>, last: seq<nat>)
    requires chunksize > 0 || n == 0
    ensures Covers(first, last, n)
    ensures forall k :: 0 <= k < |first| ==> last[k] - first[k] <= chunksize
  {
    first, last := [], [];
    var p1, p2 := 0, 0;
    while p2 < n
      invariant 0 <= p2 <= n && Covers(first, last, p2)
      invariant forall k :: 0 <= k < |first| ==> last[k] - first[k] <= chunksize
    {
      p1 := p2;
      p2 := Min(p2 + chunksize, n);
      first := first + [p1];
      last := last + [p2];
    }
  }

  /** A side chunk: within the size limit, splitting no zone, and holding sides of the
      zones zf, ..., zl - 1 only. */
  predicate GoodChunk(mapsz: seq<nat>, chunksize: nat, sf: nat, sl: nat, zf: nat, zl: nat) {
    && sf < sl <= |mapsz| && sl - sf <= chunksize
    && Whole(mapsz, sf) && Whole(mapsz, sl)
    && forall s :: sf <= s < sl ==> zf <= mapsz[s] < zl
  }

  predicate GoodChunks(mapsz: seq<nat>, chunksize: nat, sfirst: seq<nat>, slast: seq<nat>,
                       zfirst: seq<nat>, zlast: seq<nat>) {
    && |sfirst| == |slast| == |zfirst| == |zlast|
    && forall k :: 0 <= k < |sfirst| ==> GoodChunk(mapsz, chunksize, sfirst[k], slast[k], zfirst[k], zlast[k])
  }

  /** The side chunks partition the sides, and the zones they hold partition the zones. */
  predicate SideChunks(mapsz: seq<nat>, numz: nat, chunksize: nat, sfirst: seq<nat>, slast: seq<nat>,
                       zfirst: seq<nat>, zlast: seq<nat>) {
    && Covers(sfirst, slast, |mapsz|) && Covers(zfirst, zlast, numz)
    && GoodChunks(mapsz, chunksize, sfirst, slast, zfirst, zlast)
  }

  /** The zones of the sides before s. */
  function ZonesBefore(mapsz: seq<nat>, s: nat): nat
    requires s <= |mapsz|
  {
    if s == 0 then 0 else mapsz[s - 1] + 1
  }

  /** The chunk from one cut to the next. */
  lemma ChunkBetween(mapsz: seq<nat>, numz: nat, s1: nat, s2: nat, chunksize: nat)
    requires ZoneBySide(mapsz, numz) && s1 < s2 <= |mapsz| && s2 - s1 <= chunksize
    requires Whole(mapsz, s1) && Whole(mapsz, s2)
    ensures GoodChunk(mapsz, chunksize, s1, s2, mapsz[s1], mapsz[s2 - 1] + 1)
    ensures mapsz[s1] == ZonesBefore(mapsz, s1) < ZonesBefore(mapsz, s2) == mapsz[s2 - 1] + 1
  {
    forall s | s1 <= s < s2
      ensures mapsz[s1] <= mapsz[s] < mapsz[s2 - 1] + 1
    {
      ZonesInOrder(mapsz, numz, s1, s);
      ZonesInOrder(mapsz, numz, s, s2 - 1);
    }
    if s1 > 0 {
      var u := s1 - 1;
      assert mapsz[u] <= mapsz[u + 1] <= mapsz[u] + 1;
    }
  }

  lemma FitsAt(mapsz: seq<nat>, numz: nat, s1: nat, chunksize: nat)
    requires ZoneBySide(mapsz, numz) && s1 < |mapsz| && Whole(mapsz, s1) && chunksize > 0 && ZonesFit(mapsz, chunksize)
    ensures NextCut(mapsz, chunksize, s1) > s1 && Whole(mapsz, NextCut(mapsz, chunksize, s1))
  {
    ProgressExactly(mapsz, numz, s1, chunksize);
  }

  /** The inner loop: move the cut back until it splits no zone. */
  method MoveCut(mapsz: seq<nat>, numz: nat, s1: nat, chunksize: nat) returns (s2: nat)
    requires ZoneBySide(mapsz, numz) && s1 < |mapsz| && Whole(mapsz, s1) && chunksize > 0 && ZonesFit(mapsz, chunksize)
    ensures s1 < s2 <= |mapsz| && s2 - s1 <= chunksize && Whole(mapsz, s2) && s2 == NextCut(mapsz, chunksize, s1)
  {
    FitsAt(mapsz, numz, s1, chunksize);
    hide ZoneBySide, ZonesFit;
    s2 := Min(s1 + chunksize, |mapsz|);
    ghost var start := s2;
    while s2 < |mapsz| && mapsz[s2] == mapsz[s2 - 1]
      invariant s1 < s2 <= start <= |mapsz|
      invariant CutBack(mapsz, s2) == CutBack(mapsz, start) > s1
      decreases s2
    {
      s2 := s2 - 1;
    }
  }

  /** The first loop of initChunks, when every zone fits in a chunk. */
  method InitSideChunks(mapsz: seq<nat>, numz: nat, chunksize: nat)
    returns (sfirst: seq<nat>, slast: seq<nat>, zfirst: seq<nat>, zlast: seq<nat>)
    requires ZoneBySide(mapsz, numz) && (chunksize > 0 || mapsz == []) && ZonesFit(mapsz, chunksize)
    ensures SideChunks(mapsz, numz, chunksize, sfirst, slast, zfirst, zlast)
    ensures CutsAre(mapsz, chunksize, slast, |mapsz|)
  {
    NothingCut(mapsz, numz, chunksize);
    hide ZoneBySide, ZonesFit, GoodChunk, GoodChunks, Covers, Whole, SideChunks, CutsAre, NextCut;
    sfirst, slast, zfirst, zlast := [], [], [], [];
    var nums := |mapsz|;
    var s1, s2 := 0, 0;
    WholeAtZero(mapsz);
    while s2 < nums
      invariant 0 <= s2 <= nums && Whole(mapsz, s2)
      invariant Covers(sfirst, slast, s2) && Covers(zfirst, zlast, ZonesBefore(mapsz, s2))
      invariant GoodChunks(mapsz, chunksize, sfirst, slast, zfirst, zlast)
      invariant CutsAre(mapsz, chunksize, slast, s2)
    {
      s1 := s2;
      s2 := MoveCut(mapsz, numz, s1, chunksize);
      CutsMore(mapsz, chunksize, slast, s1, s2);
      ChunkBetween(mapsz, numz, s1, s2, chunksize);
      CoversMore(sfirst, slast, s1, s2);
      CoversMore(zfirst, zlast, ZonesBefore(mapsz, s1), ZonesBefore(mapsz, s2));
      GoodMore(mapsz, chunksize, sfirst, slast, zfirst, zlast, s1, s2, mapsz[s1], mapsz[s2 - 1] + 1);
      sfirst, slast := sfirst + [s1], slast + [s2];
      zfirst, zlast := zfirst + [mapsz[s1]], zlast + [mapsz[s2 - 1] + 1];
    }
    AllCut(mapsz, numz, chunksize, sfirst, slast, zfirst, zlast);
  }

  /** The chunks end at the cuts of the loop, the last of them at s. */
  ghost predicate CutsAre(mapsz: seq<nat>, chunksize: nat, slast: seq<nat>, s: nat) {
    && CutAfter(mapsz, chunksize, |slast|) == s
    && forall k :: 0 <= k < |slast| ==> slast[k] == CutAfter(mapsz, chunksize, k + 1)
  }

  lemma CutsMore(mapsz: seq<nat>, chunksize: nat, slast: seq<nat>, s1: nat, s2: nat)
    requires CutsAre(mapsz, chunksize, slast, s1) && s1 < |mapsz| && s2 == NextCut(mapsz, chunksize, s1)
    ensures CutsAre(mapsz, chunksize, slast + [s2], s2)
  {
    hide NextCut;
  }

  lemma NothingCut(mapsz: seq<nat>, numz: nat, chunksize: nat)
    ensures Covers([], [], 0) && GoodChunks(mapsz, chunksize, [], [], [], []) && ZonesBefore(mapsz, 0) == 0
    ensures CutsAre(mapsz, chunksize, [], 0)
  {
  }

  lemma AllCut(mapsz: seq<nat>, numz: nat, chunksize: nat,
               sfirst: seq<nat>, slast: seq<nat>, zfirst: seq<nat>, zlast: seq<nat>)
    requires ZoneBySide(mapsz, numz) && GoodChunks(mapsz, chunksize, sfirst, slast, zfirst, zlast)
    requires Covers(sfirst, slast, |mapsz|) && Covers(zfirst, zlast, ZonesBefore(mapsz, |mapsz|))
    ensures SideChunks(mapsz, numz, chunksize, sfirst, slast, zfirst, zlast)
  {
    assert |mapsz| > 0 ==> ZonesBefore(mapsz, |mapsz|) == numz;
    assert |mapsz| == 0 ==> numz == 0;
    hide ZoneBySide, GoodChunk;
  }

  lemma WholeAtZero(mapsz: seq<nat>)
    ensures Whole(mapsz, 0)
  {
  }

  lemma GoodMore(mapsz: seq<nat>, chunksize: nat, sfirst: seq<nat>, slast: seq<nat>, zfirst: seq<nat>, zlast: seq<nat>,
                 sf: nat, sl: nat, zf: nat, zl: nat)
    requires GoodChunks(mapsz, chunksize, sfirst, slast, zfirst, zlast) && GoodChunk(mapsz, chunksize, sf, sl, zf, zl)
    ensures GoodChunks(mapsz, chunksize, sfirst + [sf], slast + [sl], zfirst + [zf], zlast + [zl])
  {
    hide GoodChunk;
  }

  lemma WholeMeshFits(mapsz: seq<nat>, numz: nat, chunksize: nat)
    requires ZoneBySide(mapsz, numz) && chunksize >= |mapsz|
    ensures ZonesFit(mapsz, chunksize) && numz <= |mapsz|
  {
    if mapsz != [] {
      ZonesAtMostSides(mapsz, numz, |mapsz| - 1);
    }
  }

  lemma {:induction false} ZonesAtMostSides(mapsz: seq<nat>, numz: nat, s: nat)
    requires ZoneBySide(mapsz, numz) && s < |mapsz|
    ensures mapsz[s] <= s
  {
    if s > 0 {
      ZonesAtMostSides(mapsz, numz, s - 1);
      var u := s - 1;
      assert mapsz[u + 1] <= mapsz[u] + 1;
    }
  }

  /** initChunks: side, point and zone chunks; a chunk size of zero asks for one chunk. */
  method InitChunks(mapsz: seq<nat>, numz: nat, nump: nat, size: nat)
    returns (chunksize: nat, sfirst: seq<nat>, slast: seq<nat>, zfirst: seq<nat>, zlast: seq<nat>,
             pfirst: seq<nat>, plast: seq<nat>, zcfirst: seq<nat>, zclast: seq<nat>)
    requires ZoneBySide(mapsz, numz) && (size > 0 ==> ZonesFit(mapsz, size))
    ensures chunksize == if size > 0 then size else if nump > |mapsz| then nump else |mapsz|
    ensures SideChunks(mapsz, numz, chunksize, sfirst, slast, zfirst, zlast)
    ensures Covers(pfirst, plast, nump) && Covers(zcfirst, zclast, numz)
  {
    hide SideChunks, Covers;
    chunksize := size;
    if chunksize == 0 {
      chunksize := if nump > |mapsz| then nump else |mapsz|;
      WholeMeshFits(mapsz, numz, chunksize);
    }
    sfirst, slast, zfirst, zlast := InitSideChunks(mapsz, numz, chunksize);
    pfirst, plast := EqualChunks(nump, chunksize);
    zcfirst, zclast := EqualChunks(numz, chunksize);
  }
}
