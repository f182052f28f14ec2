/** Messages one by one, and the flat lists that a process keeps of them. */
module MessageLists {
  import opened PointExchange

  datatype Message = Message(pe: nat, points: seq<nat>)

  function PlanFirst(ms: seq<Message>): Plan {
    if ms == [] then
      Plan([], [], [])
    else
      var last := |ms| - 1;
      Added(PlanFirst(ms[..last]), ms[last])
  }

  /** The lists with one more message. */
  function Added(pl: Plan, m: Message): Plan {
    Plan(pl.pes + [m.pe], pl.counts + [|m.points|], pl.points + m.points)
  }

  /** The lists of all messages. */
  function PlanOf(ms: seq<Message>): Plan {
    PlanFirst(ms)
  }

  lemma PlanNone()
    ensures PlanOf([]) == Plan([], [], [])
  {
  }

  lemma PlanNext(ms: seq<Message>, m: Message)
    ensures PlanOf(ms + [m]) == Added(PlanOf(ms), m)
  {
    assert (ms + [m])[..|ms|] == ms;
  }

  lemma {:induction false} OffsetSame(a: seq<nat>, b: seq<nat>, n: nat)
    requires n <= |a| && n <= |b| && a[..n] == b[..n]
    ensures Offset(a, n) == Offset(b, n)
  {
    if n > 0 {
      var m := n - 1;
      assert a[..m] == a[..n][..m] == b[..n][..m] == b[..m];
      assert a[m] == a[..n][m] == b[..n][m] == b[m];
      OffsetSame(a, b, m);
    }
  }

  /** Message i is in its place in the lists. */
  predicate InPlace(ms: seq<Message>, pl: Plan, i: nat) {
    && i < |ms| && i < |pl.pes| && i < |pl.counts|
    && pl.pes[i] == ms[i].pe && pl.counts[i] == |ms[i].points|
    && Offset(pl.counts, i) + |ms[i].points| <= |pl.points|
    && pl.points[Offset(pl.counts, i)..Offset(pl.counts, i) + |ms[i].points|] == ms[i].points
  }

  lemma {:induction false} PlanHas(ms: seq<Message>)
    ensures |PlanOf(ms).pes| == |PlanOf(ms).counts| == |ms|
    ensures Offset(PlanOf(ms).counts, |ms|) == |PlanOf(ms).points|
    ensures forall i: nat :: i < |ms| ==> InPlace(ms, PlanOf(ms), i)
  {
    if ms == [] {
      OffsetZero([]);
    } else {
      var last := |ms| - 1;
      var m, front := ms[last], ms[..last];
      var before, pl := PlanOf(front), PlanOf(ms);
      PlanHas(front);
      assert pl == Added(before, m);
      hide PlanOf, Offset;
      assert pl.counts[..last] == before.counts[..last];
      OffsetSame(pl.counts, before.counts, last);
      OffsetNext(pl.counts, last);
      forall i: nat | i < |ms|
        ensures InPlace(ms, pl, i)
      {
        if i < last {
          assert InPlace(front, before, i);
          assert pl.counts[..i] == before.counts[..i];
          OffsetSame(pl.counts, before.counts, i);
          var at, n := Offset(before.counts, i), |ms[i].points|;
          assert pl.points[at..at + n] == before.points[at..at + n];
        } else {
          assert pl.points[|before.points|..|before.points| + |m.points|] == m.points;
        }
      }
    }
  }

  /** Entry t of message i. */
  lemma MessageEntry(ms: seq<Message>, i: nat, t: nat)
    requires i < |ms| && t < |ms[i].points|
    ensures i < |PlanOf(ms).counts| && Offset(PlanOf(ms).counts, i) + t < |PlanOf(ms).points|
    ensures PlanOf(ms).points[Offset(PlanOf(ms).counts, i) + t] == ms[i].points[t]
  {
    PlanHas(ms);
    hide PlanOf, Offset;
    var pl := PlanOf(ms);
    assert InPlace(ms, pl, i);
    var at, n := Offset(pl.counts, i), |ms[i].points|;
    assert pl.points[at..at + n][t] == ms[i].points[t];
  }

  /** The points of all messages, one after another. */
  function AllPoints(ms: seq<Message>): seq<nat> {
    PlanOf(ms).points
  }

  lemma AllPointsNext(ms: seq<Message>, m: Message)
    ensures AllPoints([]) == []
    ensures AllPoints(ms + [m]) == AllPoints(ms) + m.points
  {
    PlanNone();
    PlanNext(ms, m);
  }

  lemma {:induction false} AllPointsAppend(a: seq<Message>, b: seq<Message>)
    ensures AllPoints(a + b) == AllPoints(a) + AllPoints(b)
    decreases |b|
  {
    hide AllPoints;
    if b == [] {
      assert a + b == a;
      AllPointsNext([], Message(0, []));
      assert AllPoints(a) + [] == AllPoints(a);
    } else {
      var last := |b| - 1;
      var front, m := b[..last], b[last];
      assert a + b == (a + front) + [m] && b == front + [m];
      AllPointsAppend(a, front);
      AllPointsNext(a + front, m);
      AllPointsNext(front, m);
      assert (AllPoints(a) + AllPoints(front)) + m.points == AllPoints(a) + (AllPoints(front) + m.points);
    }
  }
}
