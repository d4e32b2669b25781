/** The invariant of Kahn's algorithm over a graph and its mirror, stated once for the three loops
    that run it. `order` lists the nodes taken off the queue, and `pending` the dependents of the
    last one whose counter is still to be lowered. */
module Kahn {
  import opened Digraph

  /** The listed nodes are distinct keys, each listed after everything it waits for. */
  ghost predicate Listed<T(!new)>(d: map<T, set<T>>, order: seq<T>) {
    order == [] ||
    var n := |order| - 1;
    && Listed(d, order[..n])
    && order[n] in d && order[n] !in order[..n] && d[order[n]] <= Elems(order[..n])
  }

  lemma {:induction false} ListedMeans<T(!new)>(d: map<T, set<T>>, order: seq<T>)
    requires Listed(d, order)
    ensures PrerequisitesFirst(d, order) && Distinct(order)
    ensures forall x :: x in order ==> x in d && d[x] <= Elems(order)
  {
    if order != [] {
      var n := |order| - 1;
      var front := order[..n];
      ListedMeans(d, front);
      assert order == front + [order[n]];
      forall i, b | 0 <= i < |order| && Edge(d, order[i], b) ensures b in order[..i] {
        if i < n {
          assert Edge(d, front[i], b);
          assert front[..i] == order[..i];
        } else {
          assert b in Elems(front);
        }
      }
    }
  }

  /** Each counter holds the number of unlisted prerequisites, one too many while pending. */
  ghost predicate Counting<T(!new)>(d: map<T, set<T>>, inDegree: map<T, nat>, listed: set<T>, pending: set<T>) {
    && inDegree.Keys == d.Keys
    && (forall x :: x in pending ==> x in d && x !in listed)
    && (forall x :: x in d ==> inDegree[x] == |d[x] - listed| + if x in pending then 1 else 0)
  }

  /** The unlisted nodes whose counter is zero. */
  ghost function AtZero<T(!new)>(inDegree: map<T, nat>, listed: set<T>): set<T> {
    set x | x in inDegree && x !in listed && inDegree[x] == 0
  }

  /** The queue holds every unlisted node whose counter is zero, exactly once. */
  ghost predicate Queued<T(!new)>(inDegree: map<T, nat>, queue: seq<T>, listed: set<T>) {
    multiset(queue) == multiset(AtZero(inDegree, listed))
  }

  ghost predicate KahnInv<T(!new)>(d: map<T, set<T>>, inDegree: map<T, nat>, queue: seq<T>,
                                   order: seq<T>, pending: set<T>) {
    && Listed(d, order)
    && Counting(d, inDegree, Elems(order), pending)
    && Queued(inDegree, queue, Elems(order))
  }

  lemma Start<T(!new)>(d: map<T, set<T>>, inDegree: map<T, nat>, queue: seq<T>)
    requires inDegree == map x | x in d :: |d[x]|
    requires multiset(queue) == multiset(ZerosAmong(inDegree, d.Keys))
    ensures KahnInv(d, inDegree, queue, [], {})
  {
    var none: seq<T> := [];
    assert Elems(none) == {};
    assert AtZero(inDegree, {}) == ZerosAmong(inDegree, d.Keys);
    assert forall x :: x in d ==> d[x] - {} == d[x];
  }

  /** Collecting the zero counters one node at a time. */
  lemma ZerosGrow<T(!new)>(inDegree: map<T, nat>, done: set<T>, x: T)
    requires done <= inDegree.Keys && x in inDegree && x !in done
    ensures multiset(ZerosAmong(inDegree, done + {x}))
         == multiset(ZerosAmong(inDegree, done)) + if inDegree[x] == 0 then multiset{x} else multiset{}
  {
    assert ZerosAmong(inDegree, done + {x}) == ZerosAmong(inDegree, done) + if inDegree[x] == 0 then {x} else {};
  }

  ghost function ZerosAmong<T(!new)>(inDegree: map<T, nat>, done: set<T>): set<T> {
    set x | x in done && x in inDegree && inDegree[x] == 0
  }

  lemma PopListed<T(!new)>(d: map<T, set<T>>, order: seq<T>, node: T)
    requires Listed(d, order) && node in d && node !in order && d[node] <= Elems(order)
    ensures Listed(d, order + [node])
  {
    assert (order + [node])[..|order|] == order;
  }

  lemma PopCounting<T(!new)>(d: map<T, set<T>>, r: map<T, set<T>>, inDegree: map<T, nat>, listed: set<T>, node: T)
    requires Mirrors(d, r) && Counting(d, inDegree, listed, {})
    requires node in d && node !in listed && d[node] <= listed
    requires forall x :: x in listed && x in d ==> d[x] <= listed
    ensures Counting(d, inDegree, listed + {node}, r[node])
  {
    forall x | x in d
      ensures x in r[node] <==> node in d[x]
      ensures inDegree[x] == |d[x] - (listed + {node})| + if x in r[node] then 1 else 0
    {
      assert Edge(r, node, x) <==> Edge(d, x, node);
      if node in d[x] {
        assert d[x] - listed == (d[x] - (listed + {node})) + {node};
      } else {
        assert d[x] - listed == d[x] - (listed + {node});
      }
    }
    forall x | x in r[node] ensures x in d && x !in listed + {node} {
      assert Edge(r, node, x);
    }
  }

  lemma PopOrder<T(!new)>(d: map<T, set<T>>, inDegree: map<T, nat>, queue: seq<T>, order: seq<T>)
    requires KahnInv(d, inDegree, queue, order, {}) && queue != []
    ensures queue[0] in d && queue[0] !in order && d[queue[0]] <= Elems(order)
    ensures Elems(order + [queue[0]]) == Elems(order) + {queue[0]}
    ensures Listed(d, order + [queue[0]])
    ensures Queued(inDegree, queue[1..], Elems(order + [queue[0]]))
    ensures d.Keys - Elems(order + [queue[0]]) < d.Keys - Elems(order)
  {
    var node, listed := queue[0], Elems(order);
    PopQueued(inDegree, queue, listed);
    PopReady(d, inDegree, listed, node);
    assert Elems(order + [node]) == listed + {node};
    PopListed(d, order, node);
  }

  lemma PopPending<T(!new)>(d: map<T, set<T>>, r: map<T, set<T>>, inDegree: map<T, nat>, order: seq<T>, node: T)
    requires Mirrors(d, r) && Listed(d, order) && Counting(d, inDegree, Elems(order), {})
    requires node in d && node !in order && d[node] <= Elems(order)
    ensures node in r && Counting(d, inDegree, Elems(order) + {node}, r[node])
  {
    ListedMeans(d, order);
    PopCounting(d, r, inDegree, Elems(order), node);
  }

  /** Taking the head off the queue lists it, and all its dependents become pending. */
  lemma Pop<T(!new)>(d: map<T, set<T>>, r: map<T, set<T>>, inDegree: map<T, nat>, queue: seq<T>, order: seq<T>)
    requires Mirrors(d, r) && KahnInv(d, inDegree, queue, order, {}) && queue != []
    ensures queue[0] in r
    ensures KahnInv(d, inDegree, queue[1..], order + [queue[0]], r[queue[0]])
    ensures d.Keys - Elems(order + [queue[0]]) < d.Keys - Elems(order)
  {
    PopOrder(d, inDegree, queue, order);
    PopPending(d, r, inDegree, order, queue[0]);
  }

  lemma PopReady<T(!new)>(d: map<T, set<T>>, inDegree: map<T, nat>, listed: set<T>, node: T)
    requires Counting(d, inDegree, listed, {}) && node in AtZero(inDegree, listed)
    ensures node in d && node !in listed && d[node] <= listed
    ensures d.Keys - (listed + {node}) < d.Keys - listed
  {
    assert d[node] - listed == {};
    assert node !in d.Keys - (listed + {node});
  }

  lemma PopQueued<T(!new)>(inDegree: map<T, nat>, queue: seq<T>, listed: set<T>)
    requires queue != [] && Queued(inDegree, queue, listed)
    ensures queue[0] in AtZero(inDegree, listed)
    ensures Queued(inDegree, queue[1..], listed + {queue[0]})
  {
    assert queue[0] in multiset(queue);
    assert queue == [queue[0]] + queue[1..];
    var zeros, rest := AtZero(inDegree, listed), AtZero(inDegree, listed + {queue[0]});
    assert rest == zeros - {queue[0]};
    assert multiset(rest) == multiset(zeros) - multiset{queue[0]};
    assert multiset(queue[1..]) == multiset(queue) - multiset{queue[0]};
  }

  lemma ReleaseCounting<T(!new)>(d: map<T, set<T>>, inDegree: map<T, nat>, listed: set<T>, pending: set<T>, next: T)
    requires Counting(d, inDegree, listed, pending) && next in pending
    ensures next in inDegree && inDegree[next] > 0
    ensures Counting(d, inDegree[next := inDegree[next] - 1], listed, pending - {next})
  {
  }

  lemma ReleaseQueued<T(!new)>(inDegree: map<T, nat>, queue: seq<T>, listed: set<T>, next: T)
    requires Queued(inDegree, queue, listed) && next in inDegree && next !in listed && inDegree[next] > 0
    ensures var lowered := inDegree[next := inDegree[next] - 1];
            Queued(lowered, if lowered[next] == 0 then queue + [next] else queue, listed)
  {
    var lowered := inDegree[next := inDegree[next] - 1];
    assert AtZero(lowered, listed) == AtZero(inDegree, listed) + if lowered[next] == 0 then {next} else {};
  }

  /** Lowering the counter of one pending dependent never underflows, and queues it at zero. */
  lemma Release<T(!new)>(d: map<T, set<T>>, inDegree: map<T, nat>, queue: seq<T>, order: seq<T>,
                         pending: set<T>, next: T)
    requires KahnInv(d, inDegree, queue, order, pending) && next in pending
    ensures next in inDegree && inDegree[next] > 0
    ensures var lowered := inDegree[next := inDegree[next] - 1];
            KahnInv(d, lowered, if lowered[next] == 0 then queue + [next] else queue, order, pending - {next})
  {
    ReleaseCounting(d, inDegree, Elems(order), pending, next);
    ReleaseQueued(inDegree, queue, Elems(order), next);
  }

  /** When the queue runs dry, the unlisted nodes are exactly those on or behind a cycle. */
  lemma Finish<T(!new)>(d: map<T, set<T>>, inDegree: map<T, nat>, order: seq<T>)
    requires Closed(d) && KahnInv(d, inDegree, [], order, {})
    ensures forall x :: x in d ==> (inDegree[x] > 0 <==> BehindCycle(d, x))
    ensures forall x :: x in d ==> (x in order <==> !BehindCycle(d, x))
    ensures |order| <= |d| && (|order| == |d| <==> Acyclic(d))
    ensures |order| != |d| ==> exists x :: x in d && inDegree[x] > 0
  {
    assert AtZero(inDegree, Elems(order)) == {} by {
      var none: seq<T> := [];
      assert forall x :: x in AtZero(inDegree, Elems(order)) ==> x in multiset(none);
    }
    forall x | x in d && x !in order ensures exists b :: b in d[x] && b !in order {
      var open := d[x] - Elems(order);
      assert x !in AtZero(inDegree, Elems(order));
      assert |open| > 0;
      var b :| b in open;
    }
    ListedMeans(d, order);
    KahnSplit(d, order);
    forall x | x in order ensures inDegree[x] == 0 {
      assert d[x] - Elems(order) == {};
    }
    DistinctSize(order);
    assert Elems(order) <= d.Keys;
    SubsetSize(Elems(order), d.Keys);
    if |order| != |d| {
      assert d.Keys - Elems(order) != {};
      var x :| x in d.Keys - Elems(order);
      assert x in d && inDegree[x] > 0;
    }
  }

  /** What the finished order of a topological sort means. */
  lemma Sorted<T(!new)>(d: map<T, set<T>>, inDegree: map<T, nat>, order: seq<T>)
    requires Closed(d) && KahnInv(d, inDegree, [], order, {})
    ensures |order| == |d| <==> Acyclic(d)
    ensures Distinct(order) && PrerequisitesFirst(d, order)
    ensures Acyclic(d) ==> forall t :: t in order <==> t in d
    ensures order != [] ==> order[|order| - 1] in d && !BehindCycle(d, order[|order| - 1])
    ensures order == [] <==> AllStuck(d)
  {
    Finish(d, inDegree, order);
    ListedMeans(d, order);
    if order != [] {
      assert order[|order| - 1] in order;
    }
  }

  lemma {:induction false} DistinctSize<T>(s: seq<T>)
    requires Distinct(s)
    ensures |Elems(s)| == |s|
  {
    if s != [] {
      DistinctSize(s[1..]);
      assert Elems(s) == {s[0]} + Elems(s[1..]);
    }
  }

  lemma {:induction false} SubsetSize<T>(a: set<T>, b: set<T>)
    requires a <= b
    ensures |a| <= |b| && (|a| == |b| ==> a == b)
  {
    assert b == a + (b - a);
    assert |b| == |a| + |b - a|;
  }
}
