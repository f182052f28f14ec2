/** Summing a point variable over the processes that share points: slave copies are
    gathered at their masters, added up, and the sums scattered back. */
module PointExchange {

  /** One process's messages in one direction: the process at the other end of each, how
      many points it carries, and the points of all messages one after another. */
  datatype Plan = Plan(pes: seq<nat>, counts: seq<nat>, points: seq<nat>)

  function CountBefore(counts: seq<nat>, i: nat): nat
    requires i <= |counts|
  {
    if i == 0 then 0 else CountBefore(counts, i - 1) + counts[i - 1]
  }

  /** Where message i starts. */
  function Offset(counts: seq<nat>, i: nat): nat
    requires i <= |counts|
  {
    CountBefore(counts, i)
  }

  lemma OffsetNext(counts: seq<nat>, i: nat)
    requires i < |counts|
    ensures Offset(counts, 0) == 0
    ensures Offset(counts, i + 1) == Offset(counts, i) + counts[i]
  {
  }

  lemma OffsetZero(counts: seq<nat>)
    ensures Offset(counts, 0) == 0
  {
  }

  lemma {:induction false} OffsetsInOrder(counts: seq<nat>, i: nat, j: nat)
    requires i <= j <= |counts|
    ensures Offset(counts, i) <= Offset(counts, j)
    decreases j - i
  {
    hide Offset;
    if i < j {
      OffsetsInOrder(counts, i, j - 1);
      OffsetNext(counts, j - 1);
    }
  }

  ghost predicate ValidPlan(pl: Plan, nump: nat) {
    && |pl.pes| == |pl.counts| && Offset(pl.counts, |pl.counts|) == |pl.points|
    && (forall e :: 0 <= e < |pl.points| ==> pl.points[e] < nump)
    && (forall i, j :: 0 <= i < j < |pl.pes| ==> pl.pes[i] != pl.pes[j])
  }

  /** The points of message i. */
  function Block(pl: Plan, i: nat): (b: seq<nat>)
    requires i < |pl.counts| && Offset(pl.counts, i) + pl.counts[i] <= |pl.points|
    ensures |b| == pl.counts[i]
    ensures forall t :: 0 <= t < |b| ==> b[t] == pl.points[Offset(pl.counts, i) + t]
  {
    pl.points[Offset(pl.counts, i)..Offset(pl.counts, i) + pl.counts[i]]
  }

  lemma BlockFits(pl: Plan, nump: nat, i: nat)
    requires ValidPlan(pl, nump) && i < |pl.pes|
    ensures i < |pl.counts| && Offset(pl.counts, i) + pl.counts[i] <= |pl.points|
    ensures forall t :: 0 <= t < |Block(pl, i)| ==> Block(pl, i)[t] < nump
  {
    hide Offset;
    OffsetNext(pl.counts, i);
    OffsetsInOrder(pl.counts, i + 1, |pl.counts|);
  }

  /** Every entry belongs to a message. */
  lemma FindMessage(pl: Plan, nump: nat, e: nat) returns (i: nat, t: nat)
    requires ValidPlan(pl, nump) && e < |pl.points|
    ensures i < |pl.pes| == |pl.counts| && t < pl.counts[i] && e == Offset(pl.counts, i) + t
  {
    hide Offset;
    i := 0;
    OffsetZero(pl.counts);
    while Offset(pl.counts, i) + pl.counts[i] <= e
      invariant i < |pl.counts| && Offset(pl.counts, i) <= e
      decreases |pl.counts| - i
    {
      OffsetNext(pl.counts, i);
      i := i + 1;
    }
    t := e - Offset(pl.counts, i);
  }

  /** initParallel: the first entry of every message. */
  method InitParallel(pl: Plan, nump: nat) returns (first: seq<nat>)
    requires ValidPlan(pl, nump)
    ensures |first| == |pl.counts|
    ensures forall i :: 0 <= i < |first| ==> first[i] == Offset(pl.counts, i)
  {
    hide Offset;
    first := [];
    var count := 0;
    OffsetZero(pl.counts);
    for i := 0 to |pl.counts|
      invariant |first| == i && count == Offset(pl.counts, i)
      invariant forall j :: 0 <= j < i ==> first[j] == Offset(pl.counts, j)
    {
      OffsetNext(pl.counts, i);
      first := first + [count];
      count := count + pl.counts[i];
    }
  }

  // ----- what one process does

  function Values(pvar: seq<real>, points: seq<nat>): (v: seq<real>)
    requires forall t :: 0 <= t < |points| ==> points[t] < |pvar|
    ensures |v| == |points| && forall t :: 0 <= t < |v| ==> v[t] == pvar[points[t]]
  {
    seq(|points|, t requires 0 <= t < |points| => pvar[points[t]])
  }

  /** The sum of the values that belong to point p among the first n entries. */
  function SumFirst(points: seq<nat>, vals: seq<real>, p: nat, n: nat): real
    requires n <= |points| == |vals|
  {
    if n == 0 then 0.0 else SumFirst(points, vals, p, n - 1) + if points[n - 1] == p then vals[n - 1] else 0.0
  }

  function SumAt(points: seq<nat>, vals: seq<real>, p: nat, n: nat): real
    requires n <= |points| == |vals|
  {
    SumFirst(points, vals, p, n)
  }

  lemma SumAtNext(points: seq<nat>, vals: seq<real>, p: nat, n: nat)
    requires n < |points| == |vals|
    ensures SumAt(points, vals, p, 0) == 0.0
    ensures SumAt(points, vals, p, n + 1) == SumAt(points, vals, p, n) + if points[n] == p then vals[n] else 0.0
  {
  }

  lemma SumAtZero(points: seq<nat>, vals: seq<real>, p: nat)
    requires |points| == |vals|
    ensures SumAt(points, vals, p, 0) == 0.0
  {
  }

  /** The gather's send side: a message for every master process. */
  method LoadSlaves(pl: Plan, first: seq<nat>, pvar: seq<real>) returns (messages: seq<seq<real>>)
    requires ValidPlan(pl, |pvar|) && |first| == |pl.counts|
    requires forall i :: 0 <= i < |first| ==> first[i] == Offset(pl.counts, i)
    ensures |messages| == |pl.pes|
    ensures forall i :: 0 <= i < |messages| ==> Sent(pl, pvar, i, messages[i])
  {
    var slvvar := [];
    for slv := 0 to |pl.points|
      invariant |slvvar| == slv && forall e :: 0 <= e < slv ==> slvvar[e] == pvar[pl.points[e]]
    {
      slvvar := slvvar + [pvar[pl.points[slv]]];
    }
    messages := [];
    for i := 0 to |pl.pes|
      invariant |messages| == i && forall j :: 0 <= j < i ==> Sent(pl, pvar, j, messages[j])
    {
      BlockFits(pl, |pvar|, i);
      var message := slvvar[first[i]..first[i] + pl.counts[i]];
      assert message == Values(pvar, Block(pl, i));
      messages := messages + [message];
    }
  }

  /** Message i carries the values of its points. */
  ghost predicate Sent(pl: Plan, pvar: seq<real>, i: nat, message: seq<real>) {
    && ValidPlan(pl, |pvar|) && i < |pl.pes|
    && i < |pl.counts| && Offset(pl.counts, i) + pl.counts[i] <= |pl.points|
    && (forall t :: 0 <= t < |Block(pl, i)| ==> Block(pl, i)[t] < |pvar|)
    && message == Values(pvar, Block(pl, i))
  }

  /** Every message has arrived in its own part of the buffer. */
  ghost predicate Received(pl: Plan, incoming: seq<seq<real>>, buffer: seq<real>) {
    && |incoming| == |pl.counts| && |buffer| == |pl.points|
    && forall i :: 0 <= i < |incoming| ==> Arrived(pl, incoming[i], buffer, i)
  }

  ghost predicate Arrived(pl: Plan, message: seq<real>, buffer: seq<real>, i: nat) {
    && i < |pl.counts| && Offset(pl.counts, i) + pl.counts[i] <= |buffer| && |message| == pl.counts[i]
    && forall t :: 0 <= t < |message| ==> buffer[Offset(pl.counts, i) + t] == message[t]
  }

  /** The receives, completed in the order given: whatever the order, each message ends
      up in its own part of the buffer. */
  method ReceiveAll(pl: Plan, nump: nat, first: seq<nat>, incoming: seq<seq<real>>, order: seq<nat>)
    returns (buffer: seq<real>)
    requires ValidPlan(pl, nump) && |first| == |pl.counts| == |incoming|
    requires forall i :: 0 <= i < |first| ==> first[i] == Offset(pl.counts, i) && |incoming[i]| == pl.counts[i]
    requires forall k :: 0 <= k < |order| ==> order[k] < |incoming|
    requires forall i :: 0 <= i < |incoming| ==> i in order
    ensures Received(pl, incoming, buffer)
  {
    hide Offset;
    buffer := seq(|pl.points|, _ => 0.0);
    for k := 0 to |order|
      invariant |buffer| == |pl.points|
      invariant forall j :: 0 <= j < k ==> Arrived(pl, incoming[order[j]], buffer, order[j])
    {
      var i := order[k];
      BlockFits(pl, nump, i);
      ghost var was := buffer;
      buffer := buffer[..first[i]] + incoming[i] + buffer[first[i] + pl.counts[i]..];
      forall j | 0 <= j < k
        ensures Arrived(pl, incoming[order[j]], buffer, order[j])
      {
        if order[j] != i {
          StillArrived(pl, nump, incoming[order[j]], incoming[i], was, buffer, order[j], i);
        }
      }
    }
    forall i | 0 <= i < |incoming|
      ensures Arrived(pl, incoming[i], buffer, i)
    {
      assert i in order;
      var k :| 0 <= k < |order| && order[k] == i;
    }
  }

  lemma StillArrived(pl: Plan, nump: nat, previous: seq<real>, message: seq<real>, was: seq<real>, buffer: seq<real>,
                     j: nat, i: nat)
    requires ValidPlan(pl, nump) && |was| == |pl.points| == |buffer| && i < |pl.counts| && i != j
    requires Offset(pl.counts, i) + pl.counts[i] <= |was| && |message| == pl.counts[i]
    requires Arrived(pl, previous, was, j)
    requires buffer == was[..Offset(pl.counts, i)] + message + was[Offset(pl.counts, i) + pl.counts[i]..]
    ensures Arrived(pl, previous, buffer, j)
  {
    hide Offset;
    OffsetNext(pl.counts, i);
    OffsetNext(pl.counts, j);
    if j < i {
      OffsetsInOrder(pl.counts, j + 1, i);
    } else {
      OffsetsInOrder(pl.counts, i + 1, j);
    }
  }

  /** parallelSum: the values that arrived are added to the masters, and the sums
      copied back for every copy. */
  method ParallelSum(pl: Plan, pvar: array<real>, prxvar: array<real>)
    requires ValidPlan(pl, pvar.Length) && prxvar.Length == |pl.points| && pvar != prxvar
    modifies pvar, prxvar
    ensures forall p :: 0 <= p < pvar.Length ==>
              pvar[p] == old(pvar[p]) + SumAt(pl.points, old(prxvar[..]), p, |pl.points|)
    ensures forall e :: 0 <= e < prxvar.Length ==> prxvar[e] == pvar[pl.points[e]]
  {
    ghost var was, came := pvar[..], prxvar[..];
    hide SumAt, Offset;
    forall p | 0 <= p < pvar.Length
      ensures SumAt(pl.points, came, p, 0) == 0.0
    {
      SumAtZero(pl.points, came, p);
    }
    for prx := 0 to prxvar.Length
      invariant prxvar[..] == came
      invariant forall p :: 0 <= p < pvar.Length ==> pvar[p] == was[p] + SumAt(pl.points, came, p, prx)
    {
      var p := pl.points[prx];
      forall q | 0 <= q < pvar.Length
        ensures SumAt(pl.points, came, q, prx + 1) ==
                SumAt(pl.points, came, q, prx) + if pl.points[prx] == q then came[prx] else 0.0
      {
        SumAtNext(pl.points, came, q, prx);
      }
      pvar[p] := pvar[p] + prxvar[prx];
    }
    ghost var now := pvar[..];
    for prx := 0 to prxvar.Length
      invariant pvar[..] == now
      invariant forall e :: 0 <= e < prx ==> prxvar[e] == pvar[pl.points[e]]
    {
      var p := pl.points[prx];
      prxvar[prx] := pvar[p];
    }
  }

  /** The scatter's send side: the sums for every slave process. */
  method LoadProxies(pl: Plan, nump: nat, first: seq<nat>, prxvar: seq<real>) returns (messages: seq<seq<real>>)
    requires ValidPlan(pl, nump) && |first| == |pl.counts| && |prxvar| == |pl.points|
    requires forall i :: 0 <= i < |first| ==> first[i] == Offset(pl.counts, i)
    ensures |messages| == |pl.counts| && Received(pl, messages, prxvar)
  {
    hide Offset;
    messages := [];
    for i := 0 to |pl.counts|
      invariant |messages| == i && forall j :: 0 <= j < i ==> Arrived(pl, messages[j], prxvar, j)
    {
      BlockFits(pl, nump, i);
      messages := messages + [prxvar[first[i]..first[i] + pl.counts[i]]];
    }
  }

  /** The end of the scatter: every slave point takes its value from the buffer. */
  method StoreSlaves(pl: Plan, slvvar: seq<real>, pvar: array<real>)
    requires ValidPlan(pl, pvar.Length) && |slvvar| == |pl.points|
    requires forall d, e :: 0 <= d < e < |pl.points| ==> pl.points[d] != pl.points[e]
    modifies pvar
    ensures forall e :: 0 <= e < |pl.points| ==> pvar[pl.points[e]] == slvvar[e]
    ensures forall p :: 0 <= p < pvar.Length && p !in pl.points ==> pvar[p] == old(pvar[p])
  {
    hide Offset;
    for slv := 0 to |pl.points|
      invariant forall e :: 0 <= e < slv ==> pvar[pl.points[e]] == slvvar[e]
      invariant forall p :: 0 <= p < pvar.Length && p !in pl.points ==> pvar[p] == old(pvar[p])
    {
      var p := pl.points[slv];
      pvar[p] := slvvar[slv];
    }
  }

  // ----- all processes

  /** The identity of a point in the whole mesh. */
  datatype Key = Key(x: int, y: int, w: int)

  /** A process: where its slave copies and its masters' slaves are, and which point each
      of its copies is. */
  datatype Pe = Pe(slave: Plan, master: Plan, keys: seq<Key>)

  /** The j-th message that a receives as master is the i-th that b sends as slave, and
      the points line up entry by entry. */
  ghost predicate Linked(w: seq<Pe>, a: nat, j: nat, b: nat, i: nat) {
    && a < |w| && b < |w| && a != b
    && j < |w[a].master.pes| == |w[a].master.counts| && i < |w[b].slave.pes| == |w[b].slave.counts|
    && w[a].master.pes[j] == b && w[b].slave.pes[i] == a
    && w[a].master.counts[j] == w[b].slave.counts[i]
    && forall t :: 0 <= t < w[a].master.counts[j] ==> SamePoint(w, a, j, b, i, t)
  }

  /** Entry t of the two messages is the same point. */
  ghost predicate SamePoint(w: seq<Pe>, a: nat, j: nat, b: nat, i: nat, t: nat)
    requires a < |w| && b < |w| && j < |w[a].master.counts| && i < |w[b].slave.counts|
  {
    var d, e := Offset(w[a].master.counts, j) + t, Offset(w[b].slave.counts, i) + t;
    && d < |w[a].master.points| && e < |w[b].slave.points|
    && w[a].master.points[d] < |w[a].keys| && w[b].slave.points[e] < |w[b].keys|
    && w[a].keys[w[a].master.points[d]] == w[b].keys[w[b].slave.points[e]]
  }

  /** One process by itself. */
  ghost predicate ValidPe(pe: Pe) {
    && ValidPlan(pe.slave, |pe.keys|) && ValidPlan(pe.master, |pe.keys|)
    && (forall p, q :: 0 <= p < q < |pe.keys| ==> pe.keys[p] != pe.keys[q])
    && (forall d, e :: 0 <= d < e < |pe.slave.points| ==> pe.slave.points[d] != pe.slave.points[e])
    && (forall e :: 0 <= e < |pe.master.points| ==> pe.master.points[e] !in pe.slave.points)
  }

  ghost predicate MessageHasSender(w: seq<Pe>, a: nat, j: nat) {
    a < |w| && j < |w[a].master.pes| && exists i :: Linked(w, a, j, w[a].master.pes[j], i)
  }

  ghost predicate MessageHasReceiver(w: seq<Pe>, b: nat, i: nat) {
    b < |w| && i < |w[b].slave.pes| && exists j :: Linked(w, w[b].slave.pes[i], j, b, i)
  }

  /** The copy p of process a is not a slave. */
  ghost predicate OwnCopy(w: seq<Pe>, a: nat, p: nat) {
    a < |w| && p < |w[a].keys| && p !in w[a].slave.points
  }

  /** The lists of all processes fit together: every message has its counterpart, and
      every point has one copy that is not a slave. */
  ghost predicate Matched(w: seq<Pe>) {
    && (forall a :: 0 <= a < |w| ==> ValidPe(w[a]))
    && (forall a, j :: 0 <= a < |w| && 0 <= j < |w[a].master.pes| ==> MessageHasSender(w, a, j))
    && (forall b, i :: 0 <= b < |w| && 0 <= i < |w[b].slave.pes| ==> MessageHasReceiver(w, b, i))
    && (forall a: nat, p: nat, b: nat, q: nat ::
          OwnCopy(w, a, p) && OwnCopy(w, b, q) && w[a].keys[p] == w[b].keys[q] ==> a == b && p == q)
  }

  lemma PeOf(w: seq<Pe>, a: nat)
    requires Matched(w) && a < |w|
    ensures ValidPe(w[a])
  {
    hide ValidPe, MessageHasSender, MessageHasReceiver, OwnCopy;
  }

  lemma SenderOf(w: seq<Pe>, a: nat, j: nat) returns (i: nat)
    requires Matched(w) && a < |w| && j < |w[a].master.pes|
    ensures Linked(w, a, j, w[a].master.pes[j], i)
  {
    hide ValidPe, MessageHasReceiver, OwnCopy, Linked;
    assert MessageHasSender(w, a, j);
    i :| Linked(w, a, j, w[a].master.pes[j], i);
  }

  lemma ReceiverOf(w: seq<Pe>, b: nat, i: nat) returns (j: nat)
    requires Matched(w) && b < |w| && i < |w[b].slave.pes|
    ensures Linked(w, w[b].slave.pes[i], j, b, i)
  {
    hide ValidPe, MessageHasSender, OwnCopy, Linked;
    assert MessageHasReceiver(w, b, i);
    j :| Linked(w, w[b].slave.pes[i], j, b, i);
  }

  lemma OneOwner(w: seq<Pe>, a: nat, p: nat, b: nat, q: nat)
    requires Matched(w) && OwnCopy(w, a, p) && OwnCopy(w, b, q) && w[a].keys[p] == w[b].keys[q]
    ensures a == b && p == q
  {
    hide ValidPe, MessageHasSender, MessageHasReceiver, OwnCopy;
  }

  /** The master that a slave copy is gathered at: message, entry, and point. */
  lemma MasterOf(w: seq<Pe>, b: nat, q: nat) returns (a: nat, j: nat, i: nat, t: nat, p: nat)
    requires Matched(w) && b < |w| && q < |w[b].keys| && q in w[b].slave.points
    ensures Linked(w, a, j, b, i) && t < w[b].slave.counts[i] && SamePoint(w, a, j, b, i, t)
    ensures w[b].slave.points[Offset(w[b].slave.counts, i) + t] == q
    ensures p == w[a].master.points[Offset(w[a].master.counts, j) + t]
    ensures OwnCopy(w, a, p) && w[a].keys[p] == w[b].keys[q]
  {
    hide Offset;
    PeOf(w, b);
    var e :| 0 <= e < |w[b].slave.points| && w[b].slave.points[e] == q;
    i, t := FindMessage(w[b].slave, |w[b].keys|, e);
    a := w[b].slave.pes[i];
    j := ReceiverOf(w, b, i);
    assert SamePoint(w, a, j, b, i, t);
    p := w[a].master.points[Offset(w[a].master.counts, j) + t];
    PeOf(w, a);
  }

  // ----- totals

  /** The first place of k among the keys, or their number when it is not there. */
  function FindKey(keys: seq<Key>, k: Key): (p: nat)
    ensures p <= |keys| && (p < |keys| ==> keys[p] == k)
    ensures p == |keys| ==> forall q :: 0 <= q < |keys| ==> keys[q] != k
  {
    if keys == [] then 0
    else if keys[|keys| - 1] == k then |keys| - 1
    else
      var p := FindKey(keys[..|keys| - 1], k);
      if p < |keys| - 1 then p else |keys|
  }

  /** The value of the copy of k on process b, if it has one. */
  ghost function Val(w: seq<Pe>, v: seq<seq<real>>, b: nat, k: Key): real
    requires |v| == |w| && b < |w| && |v[b]| == |w[b].keys|
  {
    var q := FindKey(w[b].keys, k);
    if q < |w[b].keys| then v[b][q] else 0.0
  }

  ghost predicate Sizes(w: seq<Pe>, v: seq<seq<real>>) {
    |v| == |w| && forall b :: 0 <= b < |w| ==> |v[b]| == |w[b].keys|
  }

  ghost function ValsOf(w: seq<Pe>, v: seq<seq<real>>, k: Key): (vals: seq<real>)
    requires Sizes(w, v)
    ensures |vals| == |w| && forall b :: 0 <= b < |w| ==> vals[b] == Val(w, v, b, k)
  {
    seq(|w|, b requires 0 <= b < |w| => Val(w, v, b, k))
  }

  function AddFirst(vals: seq<real>, n: nat): real
    requires n <= |vals|
  {
    if n == 0 then 0.0 else AddFirst(vals, n - 1) + vals[n - 1]
  }

  function AddAll(vals: seq<real>): real {
    AddFirst(vals, |vals|)
  }

  /** The sum of all copies of a point. */
  ghost function Total(w: seq<Pe>, v: seq<seq<real>>, k: Key): real
    requires Sizes(w, v)
  {
    AddAll(ValsOf(w, v, k))
  }

  lemma {:induction false} AddFirstUpdate(vals: seq<real>, b: nat, n: nat)
    requires b < |vals| && n <= |vals|
    ensures AddFirst(vals[b := 0.0], n) == AddFirst(vals, n) - if b < n then vals[b] else 0.0
  {
    if n > 0 {
      AddFirstUpdate(vals, b, n - 1);
    }
  }

  lemma AddUpdate(vals: seq<real>, b: nat)
    requires b < |vals|
    ensures AddAll(vals[b := 0.0]) == AddAll(vals) - vals[b]
  {
    AddFirstUpdate(vals, b, |vals|);
  }

  lemma {:induction false} AddZeros(vals: seq<real>, n: nat)
    requires n <= |vals| && forall b :: 0 <= b < n ==> vals[b] == 0.0
    ensures AddFirst(vals, n) == 0.0
  {
    if n > 0 {
      AddZeros(vals, n - 1);
    }
  }

  /** The values of the first j listed processes. */
  function AddListed(vals: seq<real>, pes: seq<nat>, j: nat): real
    requires j <= |pes| && forall i :: 0 <= i < |pes| ==> pes[i] < |vals|
  {
    if j == 0 then 0.0 else AddListed(vals, pes, j - 1) + vals[pes[j - 1]]
  }

  lemma {:induction false} AddListedUpdate(vals: seq<real>, pes: seq<nat>, j: nat, b: nat)
    requires j <= |pes| && (forall i :: 0 <= i < |pes| ==> pes[i] < |vals|) && b < |vals|
    requires forall i :: 0 <= i < j ==> pes[i] != b
    ensures AddListed(vals[b := 0.0], pes, j) == AddListed(vals, pes, j)
  {
    if j > 0 {
      AddListedUpdate(vals, pes, j - 1, b);
    }
  }

  /** Values that vanish off a list and one more process add up along the list. */
  lemma {:induction false} AddAlong(vals: seq<real>, pes: seq<nat>, j: nat, a: nat)
    requires j <= |pes| && (forall i :: 0 <= i < |pes| ==> pes[i] < |vals|) && a < |vals|
    requires forall d, e :: 0 <= d < e < |pes| ==> pes[d] != pes[e]
    requires forall i :: 0 <= i < j ==> pes[i] != a
    requires forall b :: 0 <= b < |vals| && b != a && (forall i :: 0 <= i < j ==> pes[i] != b) ==> vals[b] == 0.0
    ensures AddAll(vals) == AddListed(vals, pes, j) + vals[a]
    decreases j
  {
    hide AddAll, FindKey;
    if j == 0 {
      AddUpdate(vals, a);
      AddZerosAll(vals[a := 0.0]);
    } else {
      var b := pes[j - 1];
      AddUpdate(vals, b);
      AddListedUpdate(vals, pes, j - 1, b);
      AddAlong(vals[b := 0.0], pes, j - 1, a);
    }
  }

  lemma AddZerosAll(vals: seq<real>)
    requires forall b :: 0 <= b < |vals| ==> vals[b] == 0.0
    ensures AddAll(vals) == 0.0
  {
    AddZeros(vals, |vals|);
  }

  // ----- the exchange

  /** After the gather: the buffer of a holds, message by message, the values of the
      slave copies. */
  ghost predicate GatheredFrom(w: seq<Pe>, v: seq<seq<real>>, a: nat, j: nat, b: nat, i: nat, prx: seq<real>)
    requires Sizes(w, v) && Linked(w, a, j, b, i)
  {
    forall t :: 0 <= t < w[a].master.counts[j] ==> EntryGathered(w, v, a, j, b, i, t, prx)
  }

  ghost predicate EntryGathered(w: seq<Pe>, v: seq<seq<real>>, a: nat, j: nat, b: nat, i: nat, t: nat, prx: seq<real>)
    requires Sizes(w, v) && a < |w| && b < |w| && j < |w[a].master.counts| && i < |w[b].slave.counts|
  {
    var d, e := Offset(w[a].master.counts, j) + t, Offset(w[b].slave.counts, i) + t;
    && d < |prx| && e < |w[b].slave.points| && w[b].slave.points[e] < |v[b]|
    && prx[d] == v[b][w[b].slave.points[e]]
  }

  ghost predicate Gathered(w: seq<Pe>, v: seq<seq<real>>, a: nat, prx: seq<real>)
    requires Sizes(w, v) && a < |w|
  {
    && |prx| == |w[a].master.points|
    && forall j: nat, b: nat, i: nat :: Linked(w, a, j, b, i) ==> GatheredFrom(w, v, a, j, b, i, prx)
  }

  /** The sends of the slaves, received by the masters, make a gathered buffer. */
  lemma GatherDelivers(w: seq<Pe>, v: seq<seq<real>>, a: nat, j: nat, b: nat, i: nat, message: seq<real>,
                       prx: seq<real>)
    requires Sizes(w, v) && Linked(w, a, j, b, i) && Sent(w[b].slave, v[b], i, message)
    requires Arrived(w[a].master, message, prx, j)
    ensures GatheredFrom(w, v, a, j, b, i, prx)
  {
    hide Offset, SamePoint;
    forall t | 0 <= t < w[a].master.counts[j]
      ensures EntryGathered(w, v, a, j, b, i, t, prx)
    {
      assert Block(w[b].slave, i)[t] < |v[b]|;
      assert prx[Offset(w[a].master.counts, j) + t] == message[t];
    }
  }

  /** parallelSum on process a. */
  ghost predicate SummedAt(w: seq<Pe>, v: seq<seq<real>>, a: nat, prx: seq<real>, sums: seq<real>)
    requires Sizes(w, v) && a < |w|
  {
    && |prx| == |w[a].master.points| && |sums| == |v[a]|
    && forall p :: 0 <= p < |sums| ==>
         sums[p] == v[a][p] + SumAt(w[a].master.points, prx, p, |w[a].master.points|)
  }

  /** No entry, or exactly one entry, of a stretch belongs to p. */
  lemma {:induction false} NoEntry(points: seq<nat>, vals: seq<real>, p: nat, m: nat, n: nat)
    requires m <= n <= |points| == |vals| && forall e :: m <= e < n ==> points[e] != p
    ensures SumAt(points, vals, p, n) == SumAt(points, vals, p, m)
    decreases n
  {
    hide SumAt;
    if m < n {
      NoEntry(points, vals, p, m, n - 1);
      SumAtNext(points, vals, p, n - 1);
    }
  }

  lemma OneEntry(points: seq<nat>, vals: seq<real>, p: nat, m: nat, n: nat, d: nat)
    requires m <= d < n <= |points| == |vals| && points[d] == p
    requires forall e :: m <= e < n && e != d ==> points[e] != p
    ensures SumAt(points, vals, p, n) == SumAt(points, vals, p, m) + vals[d]
  {
    hide SumAt;
    NoEntry(points, vals, p, m, d);
    SumAtNext(points, vals, p, d);
    NoEntry(points, vals, p, d + 1, n);
  }

  /** Two masters of the same slave copy are one, reached by one message. */
  lemma SameMaster(w: seq<Pe>, a: nat, p: nat, j: nat, b: nat, i: nat, q: nat) returns (t: nat)
    requires Matched(w) && Linked(w, a, j, b, i) && OwnCopy(w, a, p)
    requires q < |w[b].keys| && w[b].keys[q] == w[a].keys[p]
    ensures t < w[a].master.counts[j] && SamePoint(w, a, j, b, i, t)
    ensures w[b].slave.points[Offset(w[b].slave.counts, i) + t] == q
    ensures w[a].master.points[Offset(w[a].master.counts, j) + t] == p
  {
    hide Offset;
    if q !in w[b].slave.points {
      OneOwner(w, a, p, b, q);
    }
    var a', j', i', t', p' := MasterOf(w, b, q);
    OneOwner(w, a, p, a', p');
    PeOf(w, b);
    PeOf(w, a);
    t := t';
  }

  /** Equal points at one entry make equal entries. */
  lemma EntryOf(w: seq<Pe>, a: nat, p: nat, j: nat, b: nat, i: nat, q: nat, t: nat, u: nat)
    requires Matched(w) && Linked(w, a, j, b, i) && OwnCopy(w, a, p) && t < w[a].master.counts[j]
    requires u < w[a].master.counts[j]
    requires q < |w[b].keys| && w[b].keys[q] == w[a].keys[p]
    requires SamePoint(w, a, j, b, i, t) && SamePoint(w, a, j, b, i, u)
    requires w[b].slave.points[Offset(w[b].slave.counts, i) + t] == q
    requires w[a].master.points[Offset(w[a].master.counts, j) + u] == p
    ensures t == u
  {
    hide Offset, OwnCopy;
    PeOf(w, b);
    var d, e := Offset(w[b].slave.counts, i) + t, Offset(w[b].slave.counts, i) + u;
    var r := w[b].slave.points[e];
    assert w[b].keys[r] == w[b].keys[q];
    assert r == q;
  }

  /** The entries of one message contribute the value of the sender's copy, if it has
      one. */
  lemma MessageContributes(w: seq<Pe>, v: seq<seq<real>>, a: nat, p: nat, j: nat, b: nat, i: nat, prx: seq<real>)
    requires Matched(w) && Sizes(w, v) && Linked(w, a, j, b, i) && OwnCopy(w, a, p)
    requires |prx| == |w[a].master.points| && GatheredFrom(w, v, a, j, b, i, prx)
    ensures ValidPlan(w[a].master, |w[a].keys|) && j < |w[a].master.counts|
    ensures Offset(w[a].master.counts, j) + w[a].master.counts[j] <= |prx|
    ensures SumAt(w[a].master.points, prx, p, Offset(w[a].master.counts, j) + w[a].master.counts[j]) ==
            SumAt(w[a].master.points, prx, p, Offset(w[a].master.counts, j)) + Val(w, v, b, w[a].keys[p])
  {
    PeOf(w, a);
    BlockFits(w[a].master, |w[a].keys|, j);
    var m, c := Offset(w[a].master.counts, j), w[a].master.counts[j];
    var points := w[a].master.points;
    var q := FindKey(w[b].keys, w[a].keys[p]);
    hide Offset, SumAt, Matched, OwnCopy, FindKey, ValidPe, ValidPlan;
    if q < |w[b].keys| {
      var t := SameMaster(w, a, p, j, b, i, q);
      forall e | m <= e < m + c && e != m + t
        ensures points[e] != p
      {
        var u := e - m;
        assert SamePoint(w, a, j, b, i, u);
        if points[e] == p {
          EntryOf(w, a, p, j, b, i, q, t, u);
        }
      }
      assert EntryGathered(w, v, a, j, b, i, t, prx);
      OneEntry(points, prx, p, m, m + c, m + t);
    } else {
      forall e | m <= e < m + c
        ensures points[e] != p
      {
        var u := e - m;
        assert SamePoint(w, a, j, b, i, u);
      }
      NoEntry(points, prx, p, m, m + c);
    }
  }

  /** The contributions of the first j messages. */
  lemma {:induction false} MessagesContribute(w: seq<Pe>, v: seq<seq<real>>, a: nat, p: nat, prx: seq<real>, j: nat)
    requires Matched(w) && Sizes(w, v) && OwnCopy(w, a, p) && a < |w| && Gathered(w, v, a, prx)
    requires j <= |w[a].master.pes| == |w[a].master.counts| && |prx| == |w[a].master.points|
    requires Offset(w[a].master.counts, j) <= |prx|
    requires forall i :: 0 <= i < |w[a].master.pes| ==> w[a].master.pes[i] < |w|
    ensures SumAt(w[a].master.points, prx, p, Offset(w[a].master.counts, j)) ==
            AddListed(ValsOf(w, v, w[a].keys[p]), w[a].master.pes, j)
    decreases j
  {
    hide Offset, SumAt, Matched, FindKey, ValsOf, AddListed, GatheredFrom, Linked;
    var pes := w[a].master.pes;
    var vals := ValsOf(w, v, w[a].keys[p]);
    if j == 0 {
      OffsetZero(w[a].master.counts);
      SumAtZero(w[a].master.points, prx, p);
      AddListedNext(vals, pes, 0);
    } else {
      var b := pes[j - 1];
      var i := SenderOf(w, a, j - 1);
      assert GatheredFrom(w, v, a, j - 1, b, i, prx);
      OffsetNext(w[a].master.counts, j - 1);
      MessagesContribute(w, v, a, p, prx, j - 1);
      MessageContributes(w, v, a, p, j - 1, b, i, prx);
      AddListedNext(vals, pes, j - 1);
      ValsAt(w, v, w[a].keys[p], b);
    }
  }

  lemma AddListedNext(vals: seq<real>, pes: seq<nat>, j: nat)
    requires j <= |pes| && forall i :: 0 <= i < |pes| ==> pes[i] < |vals|
    ensures AddListed(vals, pes, 0) == 0.0
    ensures j < |pes| ==> AddListed(vals, pes, j + 1) == AddListed(vals, pes, j) + vals[pes[j]]
  {
  }

  lemma ValsAt(w: seq<Pe>, v: seq<seq<real>>, k: Key, b: nat)
    requires Sizes(w, v) && b < |w|
    ensures |ValsOf(w, v, k)| == |w| && ValsOf(w, v, k)[b] == Val(w, v, b, k)
  {
  }

  /** The messages a master receives come from other processes, one each. */
  lemma MasterPes(w: seq<Pe>, a: nat)
    requires Matched(w) && a < |w|
    ensures |w[a].master.pes| == |w[a].master.counts|
    ensures Offset(w[a].master.counts, |w[a].master.counts|) == |w[a].master.points|
    ensures forall i :: 0 <= i < |w[a].master.pes| ==> w[a].master.pes[i] < |w| && w[a].master.pes[i] != a
    ensures forall d, e :: 0 <= d < e < |w[a].master.pes| ==> w[a].master.pes[d] != w[a].master.pes[e]
  {
    PeOf(w, a);
    hide Matched, Offset, SamePoint;
    forall j | 0 <= j < |w[a].master.pes|
      ensures w[a].master.pes[j] < |w| && w[a].master.pes[j] != a
    {
      var i := SenderOf(w, a, j);
    }
  }

  /** A process with a copy of a master's point sends it a message. */
  lemma CopySends(w: seq<Pe>, a: nat, p: nat, b: nat, q: nat) returns (j: nat)
    requires Matched(w) && OwnCopy(w, a, p) && b < |w| && b != a && q < |w[b].keys| && w[b].keys[q] == w[a].keys[p]
    ensures a < |w| && j < |w[a].master.pes| && w[a].master.pes[j] == b
  {
    hide Matched, Offset, SamePoint;
    if q !in w[b].slave.points {
      assert OwnCopy(w, b, q);
      OneOwner(w, a, p, b, q);
    }
    var a', j', i, t, p' := MasterOf(w, b, q);
    OneOwner(w, a, p, a', p');
    j := j';
  }

  /** A master ends up with the sum of all copies. */
  lemma MasterGetsTotal(w: seq<Pe>, v: seq<seq<real>>, a: nat, p: nat, prx: seq<real>, sums: seq<real>)
    requires Matched(w) && Sizes(w, v) && OwnCopy(w, a, p) && a < |w| && Gathered(w, v, a, prx)
    requires SummedAt(w, v, a, prx, sums)
    ensures p < |sums| && sums[p] == Total(w, v, w[a].keys[p])
  {
    var k := w[a].keys[p];
    var vals, pes := ValsOf(w, v, k), w[a].master.pes;
    MasterPes(w, a);
    MasterSum(w, v, a, p, prx, sums);
    ValsAt(w, v, k, a);
    OwnVal(w, v, a, p);
    hide Matched, Offset, SumAt, ValsOf, AddListed, AddAll, SummedAt, Gathered, Sizes;
    forall b | 0 <= b < |vals| && b != a && (forall i :: 0 <= i < |pes| ==> pes[i] != b)
      ensures vals[b] == 0.0
    {
      ValsAt(w, v, k, b);
      if FindKey(w[b].keys, k) < |w[b].keys| {
        var j := CopySends(w, a, p, b, FindKey(w[b].keys, k));
      }
    }
    AddAlong(vals, pes, |pes|, a);
  }

  lemma MasterSum(w: seq<Pe>, v: seq<seq<real>>, a: nat, p: nat, prx: seq<real>, sums: seq<real>)
    requires Matched(w) && Sizes(w, v) && OwnCopy(w, a, p) && a < |w| && Gathered(w, v, a, prx)
    requires SummedAt(w, v, a, prx, sums)
    requires forall i :: 0 <= i < |w[a].master.pes| ==> w[a].master.pes[i] < |w|
    ensures p < |sums| == |v[a]| == |w[a].keys|
    ensures sums[p] == v[a][p] + AddListed(ValsOf(w, v, w[a].keys[p]), w[a].master.pes, |w[a].master.pes|)
  {
    MasterPes(w, a);
    hide Matched, Offset, SumAt, ValsOf, AddListed;
    MessagesContribute(w, v, a, p, prx, |w[a].master.pes|);
  }

  lemma OwnVal(w: seq<Pe>, v: seq<seq<real>>, a: nat, p: nat)
    requires Matched(w) && Sizes(w, v) && OwnCopy(w, a, p)
    ensures |v[a]| == |w[a].keys| && Val(w, v, a, w[a].keys[p]) == v[a][p]
  {
    PeOf(w, a);
    hide Matched, Offset;
  }

  /** After the scatter: the slave copies of b hold what their masters hold, and its
      other copies are as they were. */
  ghost predicate Scattered(w: seq<Pe>, sums: seq<seq<real>>, b: nat, out: seq<real>)
    requires Sizes(w, sums) && b < |w|
  {
    && |out| == |w[b].keys|
    && (forall a: nat, j: nat, i: nat :: Linked(w, a, j, b, i) ==> ScatteredFrom(w, sums, a, j, b, i, out))
    && forall p :: 0 <= p < |out| && p !in w[b].slave.points ==> out[p] == sums[b][p]
  }

  ghost predicate ScatteredFrom(w: seq<Pe>, sums: seq<seq<real>>, a: nat, j: nat, b: nat, i: nat, out: seq<real>)
    requires Sizes(w, sums) && Linked(w, a, j, b, i)
  {
    forall t :: 0 <= t < w[a].master.counts[j] ==> EntryScattered(w, sums, a, j, b, i, t, out)
  }

  ghost predicate EntryScattered(w: seq<Pe>, sums: seq<seq<real>>, a: nat, j: nat, b: nat, i: nat, t: nat,
                                 out: seq<real>)
    requires Sizes(w, sums) && a < |w| && b < |w| && j < |w[a].master.counts| && i < |w[b].slave.counts|
  {
    var d, e := Offset(w[a].master.counts, j) + t, Offset(w[b].slave.counts, i) + t;
    && d < |w[a].master.points| && w[a].master.points[d] < |sums[a]|
    && e < |w[b].slave.points| && w[b].slave.points[e] < |out|
    && out[w[b].slave.points[e]] == sums[a][w[a].master.points[d]]
  }

  /** A message of sums, stored by the slave, makes its copies equal to the masters. */
  lemma ScatterDelivers(w: seq<Pe>, sums: seq<seq<real>>, a: nat, j: nat, b: nat, i: nat, prx: seq<real>,
                        message: seq<real>, slvvar: seq<real>, out: seq<real>)
    requires Sizes(w, sums) && Linked(w, a, j, b, i) && ValidPlan(w[a].master, |w[a].keys|)
    requires ValidPlan(w[b].slave, |w[b].keys|)
    requires |prx| == |w[a].master.points| && forall e :: 0 <= e < |prx| ==> prx[e] == sums[a][w[a].master.points[e]]
    requires Arrived(w[a].master, message, prx, j) && Arrived(w[b].slave, message, slvvar, i)
    requires |slvvar| == |w[b].slave.points| && |out| == |w[b].keys|
    requires forall e :: 0 <= e < |slvvar| ==> out[w[b].slave.points[e]] == slvvar[e]
    ensures ScatteredFrom(w, sums, a, j, b, i, out)
  {
    hide Offset, SamePoint;
    forall t | 0 <= t < w[a].master.counts[j]
      ensures EntryScattered(w, sums, a, j, b, i, t, out)
    {
      assert prx[Offset(w[a].master.counts, j) + t] == message[t];
      assert slvvar[Offset(w[b].slave.counts, i) + t] == message[t];
    }
  }

  /** Every copy of every point ends up with the sum of all copies. */
  lemma EveryCopyGetsTotal(w: seq<Pe>, v: seq<seq<real>>, prx: seq<seq<real>>, sums: seq<seq<real>>,
                           out: seq<seq<real>>, b: nat, q: nat)
    requires Matched(w) && Sizes(w, v) && Sizes(w, sums) && |prx| == |out| == |w|
    requires forall a :: 0 <= a < |w| ==> Gathered(w, v, a, prx[a]) && SummedAt(w, v, a, prx[a], sums[a])
    requires forall c :: 0 <= c < |w| ==> Scattered(w, sums, c, out[c])
    requires b < |w| && q < |w[b].keys|
    ensures q < |out[b]| && out[b][q] == Total(w, v, w[b].keys[q])
  {
    hide Matched, Offset, Total, SummedAt, Gathered, Linked;
    if q in w[b].slave.points {
      var a, j, i, t, p := MasterOf(w, b, q);
      MasterGetsTotal(w, v, a, p, prx[a], sums[a]);
      LinkedCounts(w, a, j, b, i);
      assert EntryScattered(w, sums, a, j, b, i, t, out[b]);
    } else {
      MasterGetsTotal(w, v, b, q, prx[b], sums[b]);
    }
  }

  lemma LinkedCounts(w: seq<Pe>, a: nat, j: nat, b: nat, i: nat)
    requires Linked(w, a, j, b, i)
    ensures a < |w| && b < |w| && j < |w[a].master.counts| && i < |w[b].slave.counts|
    ensures w[a].master.counts[j] == w[b].slave.counts[i]
    ensures j < |w[a].master.pes| && i < |w[b].slave.pes| && w[a].master.pes[j] == b && w[b].slave.pes[i] == a
  {
  }

  /** The message that is addressed to a process. */
  function FindPe(pes: seq<nat>, a: nat): (i: nat)
    ensures i <= |pes| && (i < |pes| ==> pes[i] == a)
    ensures i == |pes| ==> forall j :: 0 <= j < |pes| ==> pes[j] != a
  {
    if pes == [] then 0
    else if pes[|pes| - 1] == a then |pes| - 1
    else
      var i := FindPe(pes[..|pes| - 1], a);
      if i < |pes| - 1 then i else |pes|
  }

  // ----- the three phases, process by process

  /** An order in which all messages of every process complete. */
  ghost predicate ArrivalOrders(w: seq<Pe>, orders: seq<seq<nat>>, scatter: bool) {
    && |orders| == |w|
    && forall a :: 0 <= a < |w| ==> Complete(orders[a], if scatter then |w[a].slave.pes| else |w[a].master.pes|)
  }

  ghost predicate Complete(order: seq<nat>, n: nat) {
    (forall k :: 0 <= k < |order| ==> order[k] < n) && forall i :: 0 <= i < n ==> i in order
  }

  lemma PlansOf(w: seq<Pe>, a: nat)
    requires Matched(w) && a < |w|
    ensures ValidPlan(w[a].slave, |w[a].keys|) && ValidPlan(w[a].master, |w[a].keys|)
    ensures |w[a].slave.pes| == |w[a].slave.counts| && |w[a].master.pes| == |w[a].master.counts|
    ensures forall d, e :: 0 <= d < e < |w[a].slave.points| ==> w[a].slave.points[d] != w[a].slave.points[e]
  {
    PeOf(w, a);
    hide Matched, Offset;
  }

  /** The link of a message is the one that the addresses name. */
  lemma LinkByAddress(w: seq<Pe>, a: nat, j: nat, b: nat, i: nat)
    requires Matched(w) && Linked(w, a, j, b, i)
    ensures a < |w| && b < |w| && FindPe(w[a].master.pes, b) == j && FindPe(w[b].slave.pes, a) == i
  {
    PeOf(w, a);
    PeOf(w, b);
    hide Matched, Offset, SamePoint;
  }

  lemma SentSize(pl: Plan, pvar: seq<real>, i: nat, message: seq<real>)
    requires Sent(pl, pvar, i, message)
    ensures i < |pl.counts| && |message| == pl.counts[i]
  {
  }

  /** The messages of process b, as slave, carry its values. */
  ghost predicate SentBy(w: seq<Pe>, v: seq<seq<real>>, b: nat, messages: seq<seq<real>>)
    requires Sizes(w, v) && b < |w|
  {
    && |messages| == |w[b].slave.pes|
    && forall i :: 0 <= i < |messages| ==> Sent(w[b].slave, v[b], i, messages[i])
  }

  /** What a receives as its j-th message is what the sender sent. */
  ghost predicate Delivered(w: seq<Pe>, v: seq<seq<real>>, a: nat, j: nat, message: seq<real>)
    requires Sizes(w, v)
  {
    forall b: nat, i: nat :: Linked(w, a, j, b, i) ==> Sent(w[b].slave, v[b], i, message)
  }

  lemma DeliveredBy(w: seq<Pe>, v: seq<seq<real>>, a: nat, j: nat, b: nat, i: nat, message: seq<real>)
    requires Matched(w) && Sizes(w, v) && Linked(w, a, j, b, i) && Sent(w[b].slave, v[b], i, message)
    ensures Delivered(w, v, a, j, message)
  {
    hide Matched, Sent, Offset;
    forall c: nat, d: nat | Linked(w, a, j, c, d)
      ensures Sent(w[c].slave, v[c], d, message)
    {
      LinkByAddress(w, a, j, c, d);
      LinkByAddress(w, a, j, b, i);
    }
  }

  /** What the network hands to master a, message by message. */
  method ToMaster(w: seq<Pe>, v: seq<seq<real>>, messages: seq<seq<seq<real>>>, a: nat)
    returns (incoming: seq<seq<real>>)
    requires Matched(w) && Sizes(w, v) && |messages| == |w| && a < |w|
    requires forall b :: 0 <= b < |w| ==> SentBy(w, v, b, messages[b])
    ensures |incoming| == |w[a].master.counts|
    ensures forall j :: 0 <= j < |incoming| ==>
              |incoming[j]| == w[a].master.counts[j] && Delivered(w, v, a, j, incoming[j])
  {
    hide Matched, Offset, Linked, Sent, FindPe, ValidPlan, Delivered;
    PlansOf(w, a);
    incoming := [];
    for j := 0 to |w[a].master.pes|
      invariant |incoming| == j
      invariant forall k :: 0 <= k < j ==> |incoming[k]| == w[a].master.counts[k] && Delivered(w, v, a, k, incoming[k])
    {
      var b := w[a].master.pes[j];
      ghost var i' := SenderOf(w, a, j);
      LinkByAddress(w, a, j, b, i');
      LinkedCounts(w, a, j, b, i');
      var i := FindPe(w[b].slave.pes, a);
      assert SentBy(w, v, b, messages[b]);
      SentSize(w[b].slave, v[b], i, messages[b][i]);
      DeliveredBy(w, v, a, j, b, i, messages[b][i]);
      incoming := incoming + [messages[b][i]];
    }
  }

  lemma GatheredBy(w: seq<Pe>, v: seq<seq<real>>, a: nat, incoming: seq<seq<real>>, prx: seq<real>)
    requires Matched(w) && Sizes(w, v) && a < |w| && |incoming| == |w[a].master.counts|
    requires forall j :: 0 <= j < |incoming| ==> Delivered(w, v, a, j, incoming[j])
    requires Received(w[a].master, incoming, prx)
    ensures Gathered(w, v, a, prx)
  {
    hide Matched, Offset, Linked, Sent, Arrived, GatheredFrom;
    forall j: nat, b: nat, i: nat | Linked(w, a, j, b, i)
      ensures GatheredFrom(w, v, a, j, b, i, prx)
    {
      LinkedCounts(w, a, j, b, i);
      assert Delivered(w, v, a, j, incoming[j]);
      GatherDelivers(w, v, a, j, b, i, incoming[j], prx);
    }
  }

  /** parallelGather on every process. */
  method GatherPhase(w: seq<Pe>, v: seq<seq<real>>, orders: seq<seq<nat>>) returns (prx: seq<seq<real>>)
    requires Matched(w) && Sizes(w, v) && ArrivalOrders(w, orders, false)
    ensures |prx| == |w| && forall a :: 0 <= a < |w| ==> Gathered(w, v, a, prx[a])
  {
    hide Matched, Offset, Sent, Gathered, Delivered, ValidPlan;
    var messages := [];
    for b := 0 to |w|
      invariant |messages| == b && forall c :: 0 <= c < b ==> SentBy(w, v, c, messages[c])
    {
      PlansOf(w, b);
      var first := InitParallel(w[b].slave, |v[b]|);
      var sent := LoadSlaves(w[b].slave, first, v[b]);
      messages := messages + [sent];
    }
    prx := [];
    for a := 0 to |w|
      invariant |prx| == a && forall c :: 0 <= c < a ==> Gathered(w, v, c, prx[c])
    {
      PlansOf(w, a);
      var incoming := ToMaster(w, v, messages, a);
      var first := InitParallel(w[a].master, |v[a]|);
      var buffer := ReceiveAll(w[a].master, |v[a]|, first, incoming, orders[a]);
      GatheredBy(w, v, a, incoming, buffer);
      prx := prx + [buffer];
    }
  }

  /** The buffer of a after parallelSum: for every slave copy its master's sum. */
  ghost predicate CopiedBack(w: seq<Pe>, a: nat, sums: seq<real>, back: seq<real>)
    requires a < |w|
  {
    && |back| == |w[a].master.points|
    && forall e :: 0 <= e < |back| ==> w[a].master.points[e] < |sums| && back[e] == sums[w[a].master.points[e]]
  }

  /** parallelSum on every process. */
  method SumPhase(w: seq<Pe>, v: seq<seq<real>>, prx: seq<seq<real>>) returns (sums: seq<seq<real>>,
                  back: seq<seq<real>>)
    requires Matched(w) && Sizes(w, v) && |prx| == |w|
    requires forall a :: 0 <= a < |w| ==> |prx[a]| == |w[a].master.points|
    ensures Sizes(w, sums) && |back| == |w|
    ensures forall a :: 0 <= a < |w| ==> SummedAt(w, v, a, prx[a], sums[a]) && CopiedBack(w, a, sums[a], back[a])
  {
    hide Matched, Offset, ValidPlan, SumAt;
    sums, back := [], [];
    for a := 0 to |w|
      invariant |sums| == |back| == a
      invariant forall c :: 0 <= c < a ==> |sums[c]| == |w[c].keys|
      invariant forall c :: 0 <= c < a ==> SummedAt(w, v, c, prx[c], sums[c]) && CopiedBack(w, c, sums[c], back[c])
    {
      PlansOf(w, a);
      PointsInside(w[a].master, |w[a].keys|);
      var pvar := new real[|v[a]|](p requires 0 <= p < |v[a]| => v[a][p]);
      var prxvar := new real[|prx[a]|](e requires 0 <= e < |prx[a]| => prx[a][e]);
      assert pvar[..] == v[a] && prxvar[..] == prx[a];
      ParallelSum(w[a].master, pvar, prxvar);
      sums, back := sums + [pvar[..]], back + [prxvar[..]];
    }
  }

  lemma PointsInside(pl: Plan, nump: nat)
    requires ValidPlan(pl, nump)
    ensures forall e :: 0 <= e < |pl.points| ==> pl.points[e] < nump
  {
  }

  // ----- the scatter

  /** What b receives as its i-th message is the part of the master's buffer for it. */
  ghost predicate Returned(w: seq<Pe>, back: seq<seq<real>>, b: nat, i: nat, message: seq<real>)
    requires |back| == |w|
  {
    forall a: nat, j: nat :: Linked(w, a, j, b, i) ==> Arrived(w[a].master, message, back[a], j)
  }

  lemma ReturnedBy(w: seq<Pe>, back: seq<seq<real>>, a: nat, j: nat, b: nat, i: nat, message: seq<real>)
    requires Matched(w) && |back| == |w| && Linked(w, a, j, b, i) && Arrived(w[a].master, message, back[a], j)
    ensures Returned(w, back, b, i, message)
  {
    hide Matched, Arrived, Offset;
    forall c: nat, d: nat | Linked(w, c, d, b, i)
      ensures Arrived(w[c].master, message, back[c], d)
    {
      LinkByAddress(w, c, d, b, i);
      LinkByAddress(w, a, j, b, i);
    }
  }

  lemma ArrivedSize(pl: Plan, incoming: seq<seq<real>>, buffer: seq<real>, i: nat)
    requires Received(pl, incoming, buffer) && i < |incoming|
    ensures |incoming| == |pl.counts| && |incoming[i]| == pl.counts[i] && Arrived(pl, incoming[i], buffer, i)
  {
    hide Offset;
  }

  /** What the network hands to slave b, message by message. */
  method ToSlave(w: seq<Pe>, back: seq<seq<real>>, messages: seq<seq<seq<real>>>, b: nat)
    returns (incoming: seq<seq<real>>)
    requires Matched(w) && |messages| == |back| == |w| && b < |w|
    requires forall a :: 0 <= a < |w| ==>
               |messages[a]| == |w[a].master.counts| && Received(w[a].master, messages[a], back[a])
    ensures |incoming| == |w[b].slave.counts|
    ensures forall i :: 0 <= i < |incoming| ==>
              |incoming[i]| == w[b].slave.counts[i] && Returned(w, back, b, i, incoming[i])
  {
    hide Matched, Offset, Linked, Received, Arrived, FindPe, ValidPlan, Returned;
    PlansOf(w, b);
    incoming := [];
    for i := 0 to |w[b].slave.pes|
      invariant |incoming| == i
      invariant forall k :: 0 <= k < i ==> |incoming[k]| == w[b].slave.counts[k] && Returned(w, back, b, k, incoming[k])
    {
      var a := w[b].slave.pes[i];
      ghost var j' := ReceiverOf(w, b, i);
      LinkByAddress(w, a, j', b, i);
      LinkedCounts(w, a, j', b, i);
      var j := FindPe(w[a].master.pes, b);
      ArrivedSize(w[a].master, messages[a], back[a], j);
      ReturnedBy(w, back, a, j, b, i, messages[a][j]);
      incoming := incoming + [messages[a][j]];
    }
  }

  lemma ScatteredBy(w: seq<Pe>, sums: seq<seq<real>>, back: seq<seq<real>>, b: nat, incoming: seq<seq<real>>,
                    slvvar: seq<real>, out: seq<real>)
    requires Matched(w) && Sizes(w, sums) && |back| == |w| && b < |w|
    requires forall a :: 0 <= a < |w| ==> CopiedBack(w, a, sums[a], back[a])
    requires |incoming| == |w[b].slave.counts| && Received(w[b].slave, incoming, slvvar)
    requires forall i :: 0 <= i < |incoming| ==> Returned(w, back, b, i, incoming[i])
    requires |slvvar| == |w[b].slave.points| && |out| == |w[b].keys|
    requires forall e :: 0 <= e < |slvvar| ==> w[b].slave.points[e] < |out| && out[w[b].slave.points[e]] == slvvar[e]
    requires forall p :: 0 <= p < |out| && p !in w[b].slave.points ==> out[p] == sums[b][p]
    ensures Scattered(w, sums, b, out)
  {
    hide Matched, Offset, Linked, Arrived, ScatteredFrom, ValidPlan;
    forall a: nat, j: nat, i: nat | Linked(w, a, j, b, i)
      ensures ScatteredFrom(w, sums, a, j, b, i, out)
    {
      LinkedCounts(w, a, j, b, i);
      PlansOf(w, a);
      PlansOf(w, b);
      assert Returned(w, back, b, i, incoming[i]);
      assert CopiedBack(w, a, sums[a], back[a]);
      ScatterDelivers(w, sums, a, j, b, i, back[a], incoming[i], slvvar, out);
    }
  }

  /** parallelScatter on every process. */
  method ScatterPhase(w: seq<Pe>, sums: seq<seq<real>>, back: seq<seq<real>>, orders: seq<seq<nat>>)
    returns (out: seq<seq<real>>)
    requires Matched(w) && Sizes(w, sums) && |back| == |w| && ArrivalOrders(w, orders, true)
    requires forall a :: 0 <= a < |w| ==> CopiedBack(w, a, sums[a], back[a])
    ensures |out| == |w| && forall b :: 0 <= b < |w| ==> Scattered(w, sums, b, out[b])
  {
    hide Matched, Offset, Scattered, Returned, ValidPlan, Received;
    var messages := [];
    for a := 0 to |w|
      invariant |messages| == a
      invariant forall c :: 0 <= c < a ==>
                  |messages[c]| == |w[c].master.counts| && Received(w[c].master, messages[c], back[c])
    {
      PlansOf(w, a);
      var first := InitParallel(w[a].master, |w[a].keys|);
      var sent := LoadProxies(w[a].master, |w[a].keys|, first, back[a]);
      messages := messages + [sent];
    }
    out := [];
    for b := 0 to |w|
      invariant |out| == b && forall c :: 0 <= c < b ==> Scattered(w, sums, c, out[c])
    {
      PlansOf(w, b);
      PointsInside(w[b].slave, |w[b].keys|);
      var incoming := ToSlave(w, back, messages, b);
      var first := InitParallel(w[b].slave, |w[b].keys|);
      var slvvar := ReceiveAll(w[b].slave, |w[b].keys|, first, incoming, orders[b]);
      ReceivedSize(w[b].slave, incoming, slvvar);
      var pvar := new real[|sums[b]|](p requires 0 <= p < |sums[b]| => sums[b][p]);
      StoreSlaves(w[b].slave, slvvar, pvar);
      ScatteredBy(w, sums, back, b, incoming, slvvar, pvar[..]);
      out := out + [pvar[..]];
    }
  }

  lemma ReceivedSize(pl: Plan, incoming: seq<seq<real>>, buffer: seq<real>)
    requires Received(pl, incoming, buffer)
    ensures |buffer| == |pl.points|
  {
  }

  /** sumAcrossProcs on all processes: whatever the order in which messages arrive,
      every copy of every point ends up with the sum of all its copies. */
  method SumAcrossProcs(w: seq<Pe>, v: seq<seq<real>>, gatherOrders: seq<seq<nat>>, scatterOrders: seq<seq<nat>>)
    returns (out: seq<seq<real>>)
    requires Matched(w) && Sizes(w, v)
    requires ArrivalOrders(w, gatherOrders, false) && ArrivalOrders(w, scatterOrders, true)
    ensures Sizes(w, out)
    ensures forall b, q :: 0 <= b < |w| && 0 <= q < |w[b].keys| ==> out[b][q] == Total(w, v, w[b].keys[q])
  {
    hide Matched, Offset, Linked, Total, ArrivalOrders;
    var prx := GatherPhase(w, v, gatherOrders);
    var sums, back := SumPhase(w, v, prx);
    out := ScatterPhase(w, sums, back, scatterOrders);
    forall b, q | 0 <= b < |w| && 0 <= q < |w[b].keys|
      ensures q < |out[b]| && out[b][q] == Total(w, v, w[b].keys[q])
    {
      EveryCopyGetsTotal(w, v, prx, sums, out, b, q);
    }
  }
}
