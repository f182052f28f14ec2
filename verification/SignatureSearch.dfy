/** The depth-first search for a signature: an ordered list of labels that a path has
    to pass through, with any number of other nodes in between. */
module SignatureSearch {
  import opened Wrappers
  import BitField

  /** Nodes are numbered from 0 (their nodeCount); a node may carry one label.  The
      call map lists, label by label, the nodes that carry it. */
  datatype Entry = Entry(name: string, nodes: seq<nat>)
  datatype Graph = Graph(edges: seq<seq<nat>>, labels: seq<Option<string>>, callMap: seq<Entry>)

  ghost predicate Valid(g: Graph) {
    && |g.labels| == |g.edges|
    && (forall v, i :: 0 <= v < |g.edges| && 0 <= i < |g.edges[v]| ==> g.edges[v][i] < |g.edges|)
    && (forall e :: 0 <= e < |g.callMap| ==>
          forall i :: 0 <= i < |g.callMap[e].nodes| ==>
            && g.callMap[e].nodes[i] < |g.edges|
            && g.labels[g.callMap[e].nodes[i]] == Some(g.callMap[e].name))
    && (forall v :: 0 <= v < |g.edges| && g.labels[v].Some? ==>
          exists e :: 0 <= e < |g.callMap| && g.callMap[e].name == g.labels[v].value && v in g.callMap[e].nodes)
    && (forall d, e :: 0 <= d < e < |g.callMap| ==> g.callMap[d].name != g.callMap[e].name)
  }

  // ----- what a signature asks for

  predicate HasLabel(g: Graph, v: nat, l: string)
    requires v < |g.labels|
  {
    g.labels[v] == Some(l)
  }

  predicate Edge(g: Graph, v: nat, t: nat)
    requires v < |g.edges|
  {
    t in g.edges[v]
  }

  /** p continues a path from v: each of its nodes is the target of an edge from the
      one before. */
  ghost predicate Walk(g: Graph, v: nat, p: seq<nat>)
    requires Valid(g) && v < |g.edges|
    decreases |p|
  {
    p == [] || (p[0] < |g.edges| && Edge(g, v, p[0]) && Walk(g, p[0], p[1..]))
  }

  /** The nodes of p carry the labels in order, the last node the last label. */
  ghost predicate InOrder(g: Graph, p: seq<nat>, labels: seq<string>)
    requires forall i :: 0 <= i < |p| ==> p[i] < |g.labels|
  {
    if labels == [] then
      p == []
    else
      && p != []
      && ((HasLabel(g, p[0], labels[0]) && InOrder(g, p[1..], labels[1..])) || InOrder(g, p[1..], labels))
  }

  ghost predicate Inside(g: Graph, p: seq<nat>) {
    forall i :: 0 <= i < |p| ==> p[i] < |g.labels|
  }

  /** p is a path from v through the labels. */
  ghost predicate Witness(g: Graph, v: nat, p: seq<nat>, labels: seq<string>)
    requires Valid(g) && v < |g.edges|
  {
    Inside(g, p) && Walk(g, v, p) && InOrder(g, p, labels)
  }

  ghost predicate Satisfiable(g: Graph, v: nat, labels: seq<string>)
    requires Valid(g) && v < |g.edges|
  {
    exists p :: Witness(g, v, p, labels)
  }

  /** Where along p the labels are met: in order, each on a node that carries it, the
      last one at the end of p. */
  ghost predicate Positions(g: Graph, p: seq<nat>, labels: seq<string>, at: seq<nat>) {
    && Inside(g, p) && |at| == |labels|
    && (forall j :: 0 <= j < |at| ==> at[j] < |p| && HasLabel(g, p[at[j]], labels[j]))
    && (forall i, j :: 0 <= i < j < |at| ==> at[i] < at[j])
    && (if at == [] then p == [] else at[|at| - 1] == |p| - 1)
  }

  function Later(at: seq<nat>): (moved: seq<nat>)
    ensures |moved| == |at| && forall j :: 0 <= j < |at| ==> moved[j] == at[j] + 1
  {
    seq(|at|, j requires 0 <= j < |at| => at[j] + 1)
  }

  function Sooner(at: seq<nat>): (moved: seq<nat>)
    requires forall j :: 0 <= j < |at| ==> at[j] > 0
    ensures |moved| == |at| && forall j :: 0 <= j < |at| ==> moved[j] == at[j] - 1
  {
    seq(|at|, j requires 0 <= j < |at| => at[j] - 1)
  }

  lemma PositionsMatch(g: Graph, p: seq<nat>, labels: seq<string>, rest: seq<nat>)
    requires Inside(g, p) && p != [] && labels != [] && HasLabel(g, p[0], labels[0])
    requires Positions(g, p[1..], labels[1..], rest)
    ensures Positions(g, p, labels, [0] + Later(rest))
  {
    hide HasLabel;
    var at := [0] + Later(rest);
    forall j | 0 <= j < |at|
      ensures at[j] < |p| && HasLabel(g, p[at[j]], labels[j])
    {
      if j > 0 {
        assert at[j] == rest[j - 1] + 1;
        assert p[1..][rest[j - 1]] == p[at[j]] && labels[1..][j - 1] == labels[j];
      }
    }
  }

  lemma PositionsSkip(g: Graph, p: seq<nat>, labels: seq<string>, rest: seq<nat>)
    requires Inside(g, p) && p != [] && labels != [] && Positions(g, p[1..], labels, rest)
    ensures Positions(g, p, labels, Later(rest))
  {
    hide HasLabel;
    var at := Later(rest);
    forall j | 0 <= j < |at|
      ensures at[j] < |p| && HasLabel(g, p[at[j]], labels[j])
    {
      assert p[1..][rest[j]] == p[at[j]];
    }
  }

  lemma {:induction false} InOrderHasPositions(g: Graph, p: seq<nat>, labels: seq<string>) returns (at: seq<nat>)
    requires Inside(g, p) && InOrder(g, p, labels)
    ensures Positions(g, p, labels, at)
    decreases |p|
  {
    if labels == [] {
      at := [];
    } else {
      hide HasLabel, Positions, Later;
      assert Inside(g, p[1..]);
      if HasLabel(g, p[0], labels[0]) && InOrder(g, p[1..], labels[1..]) {
        var rest := InOrderHasPositions(g, p[1..], labels[1..]);
        PositionsMatch(g, p, labels, rest);
        at := [0] + Later(rest);
      } else {
        var rest := InOrderHasPositions(g, p[1..], labels);
        PositionsSkip(g, p, labels, rest);
        at := Later(rest);
      }
    }
  }

  lemma PositionsTail(g: Graph, p: seq<nat>, labels: seq<string>, at: seq<nat>)
    requires Positions(g, p, labels, at) && labels != []
    ensures p != [] && Inside(g, p[1..])
    ensures at[0] == 0 ==>
              && HasLabel(g, p[0], labels[0]) && (forall j :: 0 <= j < |at[1..]| ==> at[1..][j] > 0)
              && Positions(g, p[1..], labels[1..], Sooner(at[1..]))
    ensures at[0] > 0 ==> (forall j :: 0 <= j < |at| ==> at[j] > 0) && Positions(g, p[1..], labels, Sooner(at))
  {
    hide HasLabel;
    assert at[0] <= at[|at| - 1];
    var tail, ends := p[1..], labels[1..];
    if at[0] == 0 {
      var rest := Sooner(at[1..]);
      forall j | 0 <= j < |rest|
        ensures rest[j] < |tail| && HasLabel(g, tail[rest[j]], ends[j])
      {
        assert rest[j] == at[j + 1] - 1;
        assert tail[rest[j]] == p[at[j + 1]] && ends[j] == labels[j + 1];
      }
    } else {
      var rest := Sooner(at);
      forall j | 0 <= j < |rest|
        ensures rest[j] < |tail| && HasLabel(g, tail[rest[j]], labels[j])
      {
        assert tail[rest[j]] == p[at[j]];
      }
    }
  }

  lemma {:induction false} PositionsInOrder(g: Graph, p: seq<nat>, labels: seq<string>, at: seq<nat>)
    requires Positions(g, p, labels, at)
    ensures InOrder(g, p, labels)
    decreases |p|
  {
    if labels != [] {
      PositionsTail(g, p, labels, at);
      hide HasLabel, Positions, Sooner;
      if at[0] == 0 {
        PositionsInOrder(g, p[1..], labels[1..], Sooner(at[1..]));
      } else {
        PositionsInOrder(g, p[1..], labels, Sooner(at));
      }
    }
  }

  /** An edge that ends the current leg and from whose target the rest is possible. */
  ghost predicate HitAt(g: Graph, t: nat, labels: seq<string>)
    requires Valid(g) && t < |g.edges| && labels != []
  {
    HasLabel(g, t, labels[0]) && (|labels| == 1 || Satisfiable(g, t, labels[1..]))
  }

  ghost predicate NoHit(g: Graph, v: nat, labels: seq<string>)
    requires Valid(g) && v < |g.edges| && labels != []
  {
    forall t: nat :: t < |g.edges| && Edge(g, v, t) ==> !HitAt(g, t, labels)
  }

  /** Failed nodes: none has a hit, and their edges stay among the visited. */
  ghost predicate Exhausted(g: Graph, failed: set<nat>, visited: set<nat>, labels: seq<string>)
    requires Valid(g) && labels != []
  {
    forall u :: u in failed ==> ExhaustedAt(g, u, visited, labels)
  }

  ghost predicate ExhaustedAt(g: Graph, u: nat, visited: set<nat>, labels: seq<string>)
    requires Valid(g) && labels != []
  {
    u < |g.edges| && NoHit(g, u, labels) && forall t :: Edge(g, u, t) ==> t in visited
  }

  /** No path leads out of an exhausted set. */
  lemma {:induction false} ExhaustedBlocks(g: Graph, visited: set<nat>, labels: seq<string>, v: nat, p: seq<nat>)
    requires Valid(g) && labels != [] && Exhausted(g, visited, visited, labels) && v in visited && v < |g.edges|
    ensures !Witness(g, v, p, labels)
    decreases |p|
  {
    if Witness(g, v, p, labels) {
      var t := p[0];
      assert !HitAt(g, t, labels);
      assert Inside(g, p[1..]);
      if HasLabel(g, t, labels[0]) && InOrder(g, p[1..], labels[1..]) {
        assert Witness(g, t, p[1..], labels[1..]);
        assert false;
      } else {
        ExhaustedBlocks(g, visited, labels, t, p[1..]);
      }
    }
  }

  lemma ExhaustedUnsatisfiable(g: Graph, visited: set<nat>, labels: seq<string>, v: nat)
    requires Valid(g) && labels != [] && Exhausted(g, visited, visited, labels) && v in visited && v < |g.edges|
    ensures !Satisfiable(g, v, labels)
  {
    forall p: seq<nat>
      ensures !Witness(g, v, p, labels)
    {
      ExhaustedBlocks(g, visited, labels, v, p);
    }
  }

  /** A direct match ends the search or a leg of it; any other edge extends the path. */
  lemma WitnessByMatch(g: Graph, v: nat, t: nat, p: seq<nat>, labels: seq<string>)
    requires Valid(g) && v < |g.edges| && t < |g.edges| && Edge(g, v, t) && labels != []
    requires HasLabel(g, t, labels[0]) && Witness(g, t, p, labels[1..])
    ensures Witness(g, v, [t] + p, labels)
  {
    assert ([t] + p)[1..] == p;
  }

  lemma WitnessByStep(g: Graph, v: nat, t: nat, p: seq<nat>, labels: seq<string>)
    requires Valid(g) && v < |g.edges| && t < |g.edges| && Edge(g, v, t) && labels != []
    requires Witness(g, t, p, labels)
    ensures Witness(g, v, [t] + p, labels)
  {
    assert ([t] + p)[1..] == p;
  }

  // ----- the search

  /** NodePtrVec */
  class NodeVector {
    var contents: seq<nat>

    constructor ()
      ensures contents == []
    {
      contents := [];
    }

    method Push(v: nat)
      modifies this
      ensures contents == old(contents) + [v]
    {
      contents := contents + [v];
    }

    method Pop() returns (v: Option<nat>)
      modifies this
      ensures old(contents) == [] ==> v == None && contents == []
      ensures old(contents) != [] ==>
                v == Some(old(contents)[|old(contents)| - 1]) && contents == old(contents)[..|old(contents)| - 1]
    {
      if contents == [] {
        v := None;
      } else {
        v := Some(contents[|contents| - 1]);
        contents := contents[..|contents| - 1];
      }
    }

    method AppendVectors(second: NodeVector)
      requires second != this
      modifies this
      ensures contents == old(contents) + second.contents && second.contents == old(second.contents)
    {
      var i := 0;
      while i < |second.contents|
        invariant 0 <= i <= |second.contents| && second.contents == old(second.contents)
        invariant contents == old(contents) + second.contents[..i]
      {
        Push(second.contents[i]);
        i := i + 1;
      }
    }
  }

  ghost function Unvisited(g: Graph, visited: BitField.Bitfield): (s: set<nat>)
    requires visited.Valid()
    reads visited.bytes
    ensures forall i :: i in s <==> 0 <= i < |g.edges| && i !in visited.Marked()
  {
    set i | 0 <= i < |g.edges| && i !in visited.Marked()
  }

  /** findNextLabel.  On success the path found is appended to result; on failure the
      result is as before, and every node newly visited is exhausted. */
  method FindNextLabel(g: Graph, node: nat, labels: seq<string>, result: NodeVector, visited: BitField.Bitfield)
    returns (success: bool, ghost p: seq<nat>)
    requires Valid(g) && node < |g.edges| && labels != []
    requires visited.Valid() && visited.bitsNeeded == |g.edges|
    modifies result, visited.bytes
    ensures old(visited.Marked()) + {node} <= visited.Marked()
    ensures success ==> result.contents == old(result.contents) + [node] + p && Witness(g, node, p, labels)
    ensures !success ==> result.contents == old(result.contents)
    ensures !success ==> Exhausted(g, visited.Marked() - old(visited.Marked()), visited.Marked(), labels)
    ensures node in old(visited.Marked()) ==> !success && visited.Marked() == old(visited.Marked())
    decreases |labels|, 1, Unvisited(g, visited), 0
  {
    ghost var before := visited.Marked();
    p := [];
    var was := visited.NodeVisited(node);
    if was {
      assert visited.Marked() == before;
      return false, [];
    }
    result.Push(node);
    success, p := MatchEdges(g, node, labels, result, visited);
    if success {
      return;
    }
    success, p := FollowEdges(g, node, labels, result, visited);
    if success {
      return;
    }
    assert visited.Marked() - before == (visited.Marked() - (before + {node})) + {node};
    var _ := result.Pop();
  }

  /** The first loop over the edges: does one of them end the current leg? */
  method MatchEdges(g: Graph, node: nat, labels: seq<string>, result: NodeVector, visited: BitField.Bitfield)
    returns (success: bool, ghost p: seq<nat>)
    requires Valid(g) && node < |g.edges| && labels != [] && visited.bitsNeeded == |g.edges|
    modifies result
    ensures success ==> result.contents == old(result.contents) + p && Witness(g, node, p, labels)
    ensures !success ==> result.contents == old(result.contents) && NoHit(g, node, labels)
    decreases |labels|, 0
  {
    hide Witness, Satisfiable, NoHit;
    var edges := g.edges[node];
    success, p := false, [];
    var i := 0;
    while i < |edges|
      invariant 0 <= i <= |edges|
      invariant result.contents == old(result.contents)
      invariant forall j :: 0 <= j < i ==> !HitAt(g, edges[j], labels)
    {
      var target := edges[i];
      if HasLabel(g, target, labels[0]) {
        if |labels| > 1 {
          ghost var q;
          success, q := NextLeg(g, target, labels[1..], result, visited.bitsNeeded);
          if success {
            p := [target] + q;
            WitnessByMatch(g, node, target, q, labels);
            return;
          }
        } else {
          result.Push(target);
          success, p := true, [target];
          LastMatch(g, node, target, labels);
          return;
        }
      }
      i := i + 1;
    }
    NoHitAmong(g, node, labels);
  }

  /** A search for the rest of the signature, with a result and a visited set of its
      own; its path goes at the end of result. */
  method NextLeg(g: Graph, node: nat, labels: seq<string>, result: NodeVector, bitsNeeded: nat)
    returns (success: bool, ghost p: seq<nat>)
    requires Valid(g) && node < |g.edges| && labels != [] && bitsNeeded == |g.edges|
    modifies result
    ensures success ==> result.contents == old(result.contents) + ([node] + p) && Witness(g, node, p, labels)
    ensures !success ==> result.contents == old(result.contents) && !Satisfiable(g, node, labels)
    decreases |labels|, 2
  {
    hide Witness, Satisfiable, Valid;
    var nextResult := new NodeVector();
    var nextVisited := new BitField.Bitfield(bitsNeeded);
    ghost var none := nextVisited.Marked();
    success, p := FindNextLabel(g, node, labels, nextResult, nextVisited);
    if success {
      result.AppendVectors(nextResult);
    } else {
      assert nextVisited.Marked() - none == nextVisited.Marked();
      ExhaustedUnsatisfiable(g, nextVisited.Marked(), labels, node);
    }
  }

  lemma NoHitAmong(g: Graph, v: nat, labels: seq<string>)
    requires Valid(g) && v < |g.edges| && labels != []
    requires forall j :: 0 <= j < |g.edges[v]| ==> !HitAt(g, g.edges[v][j], labels)
    ensures NoHit(g, v, labels)
  {
    hide HitAt;
  }

  lemma LastMatch(g: Graph, v: nat, t: nat, labels: seq<string>)
    requires Valid(g) && v < |g.edges| && t < |g.edges| && Edge(g, v, t) && |labels| == 1
    requires HasLabel(g, t, labels[0])
    ensures Witness(g, v, [t], labels)
  {
    assert Witness(g, t, [], labels[1..]);
    WitnessByMatch(g, v, t, [], labels);
    assert [t] + [] == [t];
  }

  /** The second loop: the search goes deeper along each edge with the same label. */
  method FollowEdges(g: Graph, node: nat, labels: seq<string>, result: NodeVector, visited: BitField.Bitfield)
    returns (success: bool, ghost p: seq<nat>)
    requires Valid(g) && node < |g.edges| && labels != []
    requires visited.Valid() && visited.bitsNeeded == |g.edges|
    modifies result, visited.bytes
    ensures old(visited.Marked()) <= visited.Marked()
    ensures success ==> result.contents == old(result.contents) + p && Witness(g, node, p, labels)
    ensures !success ==> result.contents == old(result.contents)
    ensures !success ==> forall t :: Edge(g, node, t) ==> t in visited.Marked()
    ensures !success ==> Exhausted(g, visited.Marked() - old(visited.Marked()), visited.Marked(), labels)
    decreases |labels|, 1, Unvisited(g, visited), 1
  {
    ghost var before := visited.Marked();
    var edges := g.edges[node];
    success, p := false, [];
    var i := 0;
    while i < |edges|
      invariant 0 <= i <= |edges|
      invariant before <= visited.Marked()
      invariant result.contents == old(result.contents)
      invariant forall j :: 0 <= j < i ==> edges[j] in visited.Marked()
      invariant Exhausted(g, visited.Marked() - before, visited.Marked(), labels)
    {
      ghost var earlier := visited.Marked();
      ghost var q;
      success, q := FindNextLabel(g, edges[i], labels, result, visited);
      if success {
        p := [edges[i]] + q;
        WitnessByStep(g, node, edges[i], q, labels);
        return;
      }
      ExhaustedJoin(g, before, earlier, visited.Marked(), labels);
      i := i + 1;
    }
  }

  lemma ExhaustedJoin(g: Graph, before: set<nat>, earlier: set<nat>, now: set<nat>, labels: seq<string>)
    requires Valid(g) && labels != [] && earlier <= now
    requires Exhausted(g, earlier - before, earlier, labels) && Exhausted(g, now - earlier, now, labels)
    ensures Exhausted(g, now - before, now, labels)
  {
    hide NoHit, Edge;
    forall u | u in now - before
      ensures ExhaustedAt(g, u, now, labels)
    {
      if u in earlier {
        assert u in earlier - before;
      } else {
        assert u in now - earlier;
      }
    }
  }

  // ----- the whole search

  /** SystemCallMap_findLabeledNodes */
  method FindLabeledNodes(g: Graph, name: string) returns (nodes: Option<seq<nat>>)
    requires Valid(g)
    ensures nodes == None ==> forall v :: 0 <= v < |g.edges| ==> !HasLabel(g, v, name)
    ensures nodes.Some? ==> forall i :: 0 <= i < |nodes.value| ==> nodes.value[i] < |g.edges|
    ensures nodes.Some? ==> forall v :: 0 <= v < |g.edges| ==> (HasLabel(g, v, name) <==> v in nodes.value)
  {
    for e := 0 to |g.callMap|
      invariant forall d :: 0 <= d < e ==> g.callMap[d].name != name
    {
      if g.callMap[e].name == name {
        return Some(g.callMap[e].nodes);
      }
    }
    nodes := None;
  }

  /** Some node with the first label starts a path through the others. */
  ghost predicate SignaturePresent(g: Graph, labels: seq<string>)
    requires Valid(g) && |labels| >= 2
  {
    exists v: nat :: v < |g.edges| && HasLabel(g, v, labels[0]) && Satisfiable(g, v, labels[1..])
  }

  /** A path through the graph that carries the labels in order, from the first label
      to the last. */
  ghost predicate SignaturePath(g: Graph, path: seq<nat>, labels: seq<string>)
    requires Valid(g) && |labels| >= 2
  {
    && path != [] && path[0] < |g.edges| && HasLabel(g, path[0], labels[0])
    && Witness(g, path[0], path[1..], labels[1..])
  }

  /** A path of the graph along which the labels are met in order: the first label at its
      first node, the last at its last. */
  ghost predicate PathThrough(g: Graph, path: seq<nat>, labels: seq<string>) {
    && Valid(g) && Inside(g, path) && path != [] && Walk(g, path[0], path[1..])
    && exists at: seq<nat> :: Positions(g, path, labels, at) && at != [] && at[0] == 0
  }

  lemma SignatureIsPath(g: Graph, path: seq<nat>, labels: seq<string>)
    requires Valid(g) && |labels| >= 2
    ensures SignaturePath(g, path, labels) <==> PathThrough(g, path, labels)
  {
    assert |g.labels| == |g.edges|;
    hide HasLabel, Valid;
    if SignaturePath(g, path, labels) {
      assert Inside(g, path[1..]);
      var rest := InOrderHasPositions(g, path[1..], labels[1..]);
      assert forall i :: 0 < i < |path| ==> path[i] == path[1..][i - 1];
      assert Inside(g, path);
      PositionsMatch(g, path, labels, rest);
    }
    if PathThrough(g, path, labels) {
      var at: seq<nat> :| Positions(g, path, labels, at) && at != [] && at[0] == 0;
      PositionsTail(g, path, labels, at);
      PositionsInOrder(g, path[1..], labels[1..], Sooner(at[1..]));
    }
  }

  lemma PresentIsPath(g: Graph, labels: seq<string>)
    requires Valid(g) && |labels| >= 2
    ensures SignaturePresent(g, labels) <==> exists path: seq<nat> :: PathThrough(g, path, labels)
  {
    assert |g.labels| == |g.edges|;
    hide HasLabel, PathThrough, Valid;
    if SignaturePresent(g, labels) {
      var v: nat :| v < |g.edges| && HasLabel(g, v, labels[0]) && Satisfiable(g, v, labels[1..]);
      var p :| Witness(g, v, p, labels[1..]);
      assert ([v] + p)[1..] == p;
      assert SignaturePath(g, [v] + p, labels);
      SignatureIsPath(g, [v] + p, labels);
    }
    if path: seq<nat> :| PathThrough(g, path, labels) {
      SignatureIsPath(g, path, labels);
      assert Satisfiable(g, path[0], labels[1..]);
    }
  }

  /** findLabelPath: it finds a path through the labels exactly when there is one, and
      returns it. */
  method FindLabelPath(g: Graph, labels: seq<string>, result: NodeVector) returns (found: bool)
    requires Valid(g) && result.contents == []
    modifies result
    ensures |labels| < 2 ==> !found && result.contents == []
    ensures |labels| >= 2 ==> (found <==> exists path: seq<nat> :: PathThrough(g, path, labels))
    ensures found ==> PathThrough(g, result.contents, labels)
    ensures !found ==> result.contents == []
  {
    found := false;
    if |labels| < 2 {
      return;
    }
    PresentIsPath(g, labels);
    hide *;
    var visited := new BitField.Bitfield(|g.edges|);
    var startNodes := FindLabeledNodes(g, labels[0]);
    if startNodes == None {
      NoStart(g, labels);
      return;
    }
    var i := 0;
    while i < |startNodes.value| && !found
      invariant 0 <= i <= |startNodes.value|
      invariant visited.Valid() && visited.bitsNeeded == |g.edges| && fresh(visited.bytes) && visited.Marked() == {}
      invariant found ==> PathThrough(g, result.contents, labels)
      invariant !found ==> result.contents == []
      invariant !found ==> forall j :: 0 <= j < i ==> Fails(g, startNodes.value[j], labels)
    {
      found := StartFrom(g, startNodes.value[i], labels, result, visited);
      i := i + 1;
    }
    if found {
      FoundIsPresent(g, result.contents, labels);
    } else {
      NoneStarts(g, labels, startNodes.value);
    }
  }

  /** No path through the rest of the signature starts here. */
  ghost predicate Fails(g: Graph, v: nat, labels: seq<string>) {
    Valid(g) && v < |g.edges| && |labels| >= 2 && !Satisfiable(g, v, labels[1..])
  }

  lemma NoStart(g: Graph, labels: seq<string>)
    requires Valid(g) && |labels| >= 2 && forall v :: 0 <= v < |g.edges| ==> !HasLabel(g, v, labels[0])
    ensures !SignaturePresent(g, labels)
  {
    hide HasLabel, Satisfiable;
  }

  lemma NoneStarts(g: Graph, labels: seq<string>, starts: seq<nat>)
    requires Valid(g) && |labels| >= 2
    requires forall v :: 0 <= v < |g.edges| ==> (HasLabel(g, v, labels[0]) <==> v in starts)
    requires forall j :: 0 <= j < |starts| ==> Fails(g, starts[j], labels)
    ensures !SignaturePresent(g, labels)
  {
    hide HasLabel, Satisfiable;
  }

  lemma FoundIsPresent(g: Graph, path: seq<nat>, labels: seq<string>)
    requires |labels| >= 2 && PathThrough(g, path, labels)
    ensures Valid(g) && SignaturePresent(g, labels)
  {
    hide PathThrough, SignaturePresent;
    PathIsValid(g, path, labels);
    PresentIsPath(g, labels);
  }

  lemma PathIsValid(g: Graph, path: seq<nat>, labels: seq<string>)
    requires PathThrough(g, path, labels)
    ensures Valid(g)
  {
  }

  /** The search from one node with the first label. */
  method StartFrom(g: Graph, v: nat, labels: seq<string>, result: NodeVector, visited: BitField.Bitfield)
    returns (found: bool)
    requires Valid(g) && |labels| >= 2 && v < |g.edges| && HasLabel(g, v, labels[0]) && result.contents == []
    requires visited.Valid() && visited.bitsNeeded == |g.edges| && visited.Marked() == {}
    modifies result, visited.bytes
    ensures visited.Valid() && visited.Marked() == {}
    ensures found ==> PathThrough(g, result.contents, labels)
    ensures !found ==> result.contents == [] && Fails(g, v, labels)
  {
    assert labels[1..] != [];
    hide PathThrough, Witness, Satisfiable, HasLabel, Exhausted;
    ghost var p;
    ghost var none := visited.Marked();
    found, p := FindNextLabel(g, v, labels[1..], result, visited);
    if found {
      assert result.contents[1..] == p;
      SignatureIsPath(g, result.contents, labels);
    } else {
      assert visited.Marked() - none == visited.Marked();
      ExhaustedUnsatisfiable(g, visited.Marked(), labels[1..], v);
    }
    // findNextLabel leaves nothing behind when it fails: there is no result to clear.
    visited.Clear();
  }
}
