/** initEdges: sides that join the same two points share an edge, whichever way round they
    list them. */
module MeshEdges {

  function Low(a: nat, b: nat): nat {
    if a <= b then a else b
  }

  function High(a: nat, b: nat): nat {
    if a <= b then b else a
  }

  /** The sides have the same two end points. */
  predicate SameEnds(mapsp1: seq<nat>, mapsp2: seq<nat>, s: nat, t: nat)
    requires s < |mapsp1| == |mapsp2| && t < |mapsp1|
  {
    (mapsp1[s] == mapsp1[t] && mapsp2[s] == mapsp2[t]) || (mapsp1[s] == mapsp2[t] && mapsp2[s] == mapsp1[t])
  }

  lemma SameEndsOrdered(mapsp1: seq<nat>, mapsp2: seq<nat>, s: nat, t: nat)
    requires s < |mapsp1| == |mapsp2| && t < |mapsp1|
    ensures SameEnds(mapsp1, mapsp2, s, t) <==>
              Low(mapsp1[s], mapsp2[s]) == Low(mapsp1[t], mapsp2[t]) &&
              High(mapsp1[s], mapsp2[s]) == High(mapsp1[t], mapsp2[t])
  {
  }

  /** The first place of x, or the length. */
  method Find(v: seq<nat>, x: nat) returns (i: nat)
    ensures i <= |v| && (i < |v| ==> v[i] == x) && x !in v[..i]
  {
    i := 0;
    while i < |v| && v[i] != x
      invariant i <= |v| && x !in v[..i]
    {
      i := i + 1;
    }
  }

  /** edgepp and edgepe: for each point, the larger end points of its edges, and the edges'
      numbers. */
  datatype Edges = Edges(pp: seq<seq<nat>>, pe: seq<seq<nat>>)

  ghost predicate Shaped(t: Edges, nump: nat) {
    |t.pp| == |t.pe| == nump && forall p :: 0 <= p < nump ==> |t.pp[p]| == |t.pe[p]|
  }

  /** Entry i of point p. */
  predicate Entry(t: Edges, p: nat, i: nat) {
    p < |t.pp| && p < |t.pe| && i < |t.pp[p]| && i < |t.pe[p]|
  }

  /** No end point is listed twice for a point, and no edge number twice at all. */
  ghost predicate Unique(t: Edges, e: nat) {
    && (forall p: nat, i: nat :: Entry(t, p, i) ==> t.pe[p][i] < e)
    && (forall p: nat, i: nat, j: nat :: Entry(t, p, i) && Entry(t, p, j) && t.pp[p][i] == t.pp[p][j] ==> i == j)
    && (forall p: nat, i: nat, q: nat, j: nat :: Entry(t, p, i) && Entry(t, q, j) && t.pe[p][i] == t.pe[q][j] ==>
          p == q && i == j)
  }

  /** The table gives the pair this number. */
  ghost predicate Lists(t: Edges, p1: nat, p2: nat, e: nat) {
    exists i: nat :: Entry(t, p1, i) && t.pp[p1][i] == p2 && t.pe[p1][i] == e
  }

  function WithEdge(t: Edges, p1: nat, p2: nat, e: nat): Edges
    requires p1 < |t.pp| == |t.pe|
  {
    Edges(t.pp[p1 := t.pp[p1] + [p2]], t.pe[p1 := t.pe[p1] + [e]])
  }

  lemma EdgeAdded(t: Edges, nump: nat, e: nat, p1: nat, p2: nat)
    requires Shaped(t, nump) && Unique(t, e) && p1 < nump && p2 !in t.pp[p1]
    ensures Shaped(WithEdge(t, p1, p2, e), nump) && Unique(WithEdge(t, p1, p2, e), e + 1)
    ensures Lists(WithEdge(t, p1, p2, e), p1, p2, e)
    ensures forall q1: nat, q2: nat, k: nat :: Lists(t, q1, q2, k) ==> Lists(WithEdge(t, p1, p2, e), q1, q2, k)
  {
    var now := WithEdge(t, p1, p2, e);
    assert Entry(now, p1, |t.pp[p1]|);
    forall q1: nat, q2: nat, k: nat | Lists(t, q1, q2, k)
      ensures Lists(now, q1, q2, k)
    {
      var i: nat :| Entry(t, q1, i) && t.pp[q1][i] == q2 && t.pe[q1][i] == k;
      assert Entry(now, q1, i) && now.pp[q1][i] == q2 && now.pe[q1][i] == k;
    }
  }

  lemma ListedOnce(t: Edges, e: nat, p1: nat, p2: nat, k: nat, q1: nat, q2: nat, l: nat)
    requires Unique(t, e) && Lists(t, p1, p2, k) && Lists(t, q1, q2, l)
    ensures k < e && (k == l <==> p1 == q1 && p2 == q2)
  {
    var i: nat :| Entry(t, p1, i) && t.pp[p1][i] == p2 && t.pe[p1][i] == k;
    var j: nat :| Entry(t, q1, j) && t.pp[q1][j] == q2 && t.pe[q1][j] == l;
  }

  /** All sides up to s have the edges that the table gives them. */
  ghost predicate Numbered(t: Edges, mapsp1: seq<nat>, mapsp2: seq<nat>, mapse: seq<nat>)
    requires |mapse| <= |mapsp1| == |mapsp2|
  {
    forall s :: 0 <= s < |mapse| ==> Lists(t, Low(mapsp1[s], mapsp2[s]), High(mapsp1[s], mapsp2[s]), mapse[s])
  }

  /** The table still lists all that it did, and the pair as edge k. */
  ghost predicate Extends(t: Edges, now: Edges, p1: nat, p2: nat, k: nat) {
    && Lists(now, p1, p2, k)
    && forall q1: nat, q2: nat, l: nat :: Lists(t, q1, q2, l) ==> Lists(now, q1, q2, l)
  }

  /** The edge of one side: an old one, or a new one. */
  method EdgeOf(t: Edges, nump: nat, e: nat, p1: nat, p2: nat) returns (now: Edges, nume: nat, k: nat)
    requires Shaped(t, nump) && Unique(t, e) && p1 < nump
    ensures Shaped(now, nump) && Unique(now, nume) && Extends(t, now, p1, p2, k)
    ensures (nume == e && k < e) || (nume == e + 1 && k == e)
  {
    hide WithEdge, Lists, Unique;
    now, nume := t, e;
    var i := Find(t.pp[p1], p2);
    if i == |t.pp[p1]| {
      assert t.pp[p1][..i] == t.pp[p1];
      EdgeAdded(t, nump, e, p1, p2);
      EdgeLast(t, p1, p2, e);
      now := WithEdge(t, p1, p2, e);
      nume := e + 1;
    } else {
      EdgeFound(t, e, p1, p2, i);
    }
    k := now.pe[p1][i];
  }

  lemma NumberedNext(t: Edges, now: Edges, mapsp1: seq<nat>, mapsp2: seq<nat>, mapse: seq<nat>, k: nat)
    requires |mapse| < |mapsp1| == |mapsp2| && Numbered(t, mapsp1, mapsp2, mapse)
    requires var s := |mapse|; Extends(t, now, Low(mapsp1[s], mapsp2[s]), High(mapsp1[s], mapsp2[s]), k)
    ensures Numbered(now, mapsp1, mapsp2, mapse + [k])
  {
    hide Low, High, Lists;
  }

  /** Exactly the numbers below e are in use. */
  ghost predicate AllUsed(mapse: seq<nat>, e: nat) {
    forall k: nat :: k < e <==> k in mapse
  }

  lemma UsedNext(mapse: seq<nat>, e: nat, nume: nat, k: nat)
    requires AllUsed(mapse, e) && ((nume == e && k < e) || (nume == e + 1 && k == e))
    ensures AllUsed(mapse + [k], nume)
  {
  }

  method InitEdges(mapsp1: seq<nat>, mapsp2: seq<nat>, nump: nat) returns (mapse: seq<nat>, nume: nat)
    requires |mapsp1| == |mapsp2|
    requires forall s :: 0 <= s < |mapsp1| ==> mapsp1[s] < nump && mapsp2[s] < nump
    ensures |mapse| == |mapsp1|
    ensures forall s, t :: 0 <= s < |mapse| && 0 <= t < |mapse| ==>
              (mapse[s] == mapse[t] <==> SameEnds(mapsp1, mapsp2, s, t))
    ensures forall k: nat :: k < nume <==> k in mapse
  {
    var t := Edges(seq(nump, i => []), seq(nump, i => []));
    mapse, nume := [], 0;
    NoEdges(t);
    hide Low, High, Lists, Unique, Extends, Numbered, Shaped, AllUsed;
    NothingYet(t, mapsp1, mapsp2, nump);
    for s := 0 to |mapsp1|
      invariant |mapse| == s && Shaped(t, nump) && Unique(t, nume)
      invariant Numbered(t, mapsp1, mapsp2, mapse) && AllUsed(mapse, nume)
    {
      var p1, p2 := Low(mapsp1[s], mapsp2[s]), High(mapsp1[s], mapsp2[s]);
      EndsInside(mapsp1[s], mapsp2[s]);
      var now, e, k := EdgeOf(t, nump, nume, p1, p2);
      NumberedNext(t, now, mapsp1, mapsp2, mapse, k);
      UsedNext(mapse, nume, e, k);
      t, nume, mapse := now, e, mapse + [k];
    }
    EdgesTell(t, nume, mapsp1, mapsp2, mapse);
  }

  lemma NothingYet(t: Edges, mapsp1: seq<nat>, mapsp2: seq<nat>, nump: nat)
    requires |mapsp1| == |mapsp2| && |t.pp| == |t.pe| == nump
    requires forall p :: 0 <= p < nump ==> t.pp[p] == [] && t.pe[p] == []
    ensures Numbered(t, mapsp1, mapsp2, []) && AllUsed([], 0) && Shaped(t, nump)
  {
  }

  lemma EdgesTell(t: Edges, e: nat, mapsp1: seq<nat>, mapsp2: seq<nat>, mapse: seq<nat>)
    requires |mapse| == |mapsp1| == |mapsp2| && Numbered(t, mapsp1, mapsp2, mapse) && AllUsed(mapse, e) && Unique(t, e)
    ensures forall s, u :: 0 <= s < |mapse| && 0 <= u < |mapse| ==>
              (mapse[s] == mapse[u] <==> SameEnds(mapsp1, mapsp2, s, u))
    ensures forall k: nat :: k < e <==> k in mapse
  {
    hide Low, High, Lists, Unique, SameEnds;
    forall s, u | 0 <= s < |mapse| && 0 <= u < |mapse|
      ensures mapse[s] == mapse[u] <==> SameEnds(mapsp1, mapsp2, s, u)
    {
      SameEndsOrdered(mapsp1, mapsp2, s, u);
      ListedOnce(t, e, Low(mapsp1[s], mapsp2[s]), High(mapsp1[s], mapsp2[s]), mapse[s],
                 Low(mapsp1[u], mapsp2[u]), High(mapsp1[u], mapsp2[u]), mapse[u]);
    }
  }

  lemma NoEdges(t: Edges)
    requires |t.pp| == |t.pe| && forall p :: 0 <= p < |t.pp| ==> t.pp[p] == []
    ensures Unique(t, 0)
  {
  }

  lemma EndsInside(a: nat, b: nat)
    ensures (Low(a, b) == a && High(a, b) == b) || (Low(a, b) == b && High(a, b) == a)
  {
  }

  lemma EdgeLast(t: Edges, p1: nat, p2: nat, e: nat)
    requires p1 < |t.pp| == |t.pe| && |t.pp[p1]| == |t.pe[p1]|
    ensures var now := WithEdge(t, p1, p2, e); p1 < |now.pe| && |t.pp[p1]| < |now.pe[p1]| && now.pe[p1][|t.pp[p1]|] == e
  {
  }

  lemma EdgeFound(t: Edges, e: nat, p1: nat, p2: nat, i: nat)
    requires Entry(t, p1, i) && t.pp[p1][i] == p2 && Unique(t, e)
    ensures Lists(t, p1, p2, t.pe[p1][i]) && t.pe[p1][i] < e
  {
  }
}
