/** Kahn's pass over a dependency graph that also measures its longest chain. */
module DepthPass {
  import opened Digraph
  import opened Kahn
  import opened Chains

  function Counts<T>(d: map<T, set<T>>): map<T, nat> {
    map x | x in d :: |d[x]|
  }

  method ZeroQueue<T(==,!new)>(inDegree: map<T, nat>) returns (queue: seq<T>)
    ensures multiset(queue) == multiset(ZerosAmong(inDegree, inDegree.Keys))
  {
    queue := [];
    var rest := inDegree.Keys;
    while rest != {}
      invariant rest <= inDegree.Keys
      invariant multiset(queue) == multiset(ZerosAmong(inDegree, inDegree.Keys - rest))
      decreases rest
    {
      var id :| id in rest;
      ZerosGrow(inDegree, inDegree.Keys - rest, id);
      assert inDegree.Keys - (rest - {id}) == inDegree.Keys - rest + {id};
      rest := rest - {id};
      if inDegree[id] == 0 {
        queue := queue + [id];
      }
    }
    assert inDegree.Keys - rest == inDegree.Keys;
  }

  /** Tells every dependent of `node` its depth and lowers its counter. */
  method ReleaseDeeper<T(==,!new)>(ghost d: map<T, set<T>>, dependents: map<T, set<T>>, node: T,
                       inDegree0: map<T, nat>, queue0: seq<T>, depths0: map<T, nat>,
                       ghost order: seq<T>)
    returns (inDegree: map<T, nat>, queue: seq<T>, depths: map<T, nat>)
    requires node in order && node in dependents && node in depths0
    requires forall x :: x in dependents[node] ==> Edge(d, x, node)
    requires KahnInv(d, inDegree0, queue0, order, dependents[node])
    requires DepthInv(d, depths0, Elems(order), node, dependents[node])
    ensures KahnInv(d, inDegree, queue, order, {})
    ensures DepthInv(d, depths, Elems(order), node, {})
  {
    inDegree, queue, depths := inDegree0, queue0, depths0;
    var currentDepth := depths[node];
    var downstream := dependents[node];
    while downstream != {}
      invariant downstream <= dependents[node] && node in depths && depths[node] == currentDepth
      invariant KahnInv(d, inDegree, queue, order, downstream)
      invariant DepthInv(d, depths, Elems(order), node, downstream)
      decreases downstream
    {
      var next :| next in downstream;
      assert Edge(d, next, node);
      ReleaseOne(d, inDegree, queue, order, depths, node, downstream, next);
      downstream := downstream - {next};
      depths := Raise(depths, next, currentDepth);
      inDegree, queue := LowerCounter(inDegree, queue, next);
    }
  }

  /** Lowers one counter and queues the node when it reaches zero. */
  method LowerCounter<T(==)>(inDegree0: map<T, nat>, queue0: seq<T>, next: T)
    returns (inDegree: map<T, nat>, queue: seq<T>)
    requires next in inDegree0 && inDegree0[next] > 0
    ensures inDegree == inDegree0[next := inDegree0[next] - 1]
    ensures queue == if inDegree[next] == 0 then queue0 + [next] else queue0
  {
    inDegree, queue := inDegree0[next := inDegree0[next] - 1], queue0;
    if inDegree[next] == 0 {
      queue := queue + [next];
    }
  }

  lemma ReleaseOne<T(!new)>(d: map<T, set<T>>, inDegree: map<T, nat>, queue: seq<T>, order: seq<T>,
                   depths: map<T, nat>, node: T, pending: set<T>, next: T)
    requires KahnInv(d, inDegree, queue, order, pending) && DepthInv(d, depths, Elems(order), node, pending)
    requires node in order && node in depths && next in pending && Edge(d, next, node)
    ensures next in inDegree && inDegree[next] > 0 && next != node
    ensures var lowered := inDegree[next := inDegree[next] - 1];
            KahnInv(d, lowered, if lowered[next] == 0 then queue + [next] else queue, order, pending - {next})
    ensures DepthInv(d, Raise(depths, next, depths[node]), Elems(order), node, pending - {next})
  {
    Release(d, inDegree, queue, order, pending, next);
    DepthRelease(d, depths, Elems(order), node, pending, next);
  }

  ghost predicate DeepestSoFar<T(!new)>(d: map<T, set<T>>, order: seq<T>, maxDepth: int) {
    && maxDepth >= 1
    && (forall x :: x in order ==> DepthAtMost(d, x, maxDepth))
    && (maxDepth > 1 ==> exists x :: x in order && HasChain(d, x, maxDepth))
  }

  /** Counts the tasks Kahn's pass reaches and the longest chain among them. */
  method MeasureDepth<T(==,!new)>(ghost d: map<T, set<T>>, inDegree0: map<T, nat>, dependents: map<T, set<T>>)
    returns (visitedCount: nat, maxDepth: nat, inDegree: map<T, nat>)
    requires Mirrors(d, dependents) && inDegree0 == Counts(d) && d.Keys != {}
    ensures visitedCount == |d| <==> Acyclic(d)
    ensures inDegree.Keys == d.Keys && forall x :: x in d ==> (inDegree[x] > 0 <==> BehindCycle(d, x))
    ensures Acyclic(d) ==> LongestChain(d, maxDepth)
  {
    inDegree := inDegree0;
    var depths := map id | id in inDegree && inDegree[id] == 0 :: 1;
    var queue := ZeroQueue(inDegree);
    Start(d, inDegree, queue);
    ghost var order: seq<T> := [];
    ghost var last :| last in d;
    assert Elems(order) == {};
    DepthStart(d, depths, last);
    visitedCount, maxDepth := 0, 1;
    while queue != []
      invariant KahnInv(d, inDegree, queue, order, {}) && visitedCount == |order|
      invariant DepthInv(d, depths, Elems(order), last, {})
      invariant DeepestSoFar(d, order, maxDepth)
      decreases d.Keys - Elems(order)
    {
      var node := queue[0];
      VisitNode(d, dependents, inDegree, queue, order, depths, last, maxDepth);
      queue, visitedCount, order, last := queue[1..], visitedCount + 1, order + [node], node;
      var currentDepth := if node in depths then depths[node] else 1;
      if currentDepth > maxDepth {
        maxDepth := currentDepth;
      }
      inDegree, queue, depths := ReleaseDeeper(d, dependents, node, inDegree, queue, depths, order);
    }
    Finish(d, inDegree, order);
    if Acyclic(d) {
      LongestOverall(d, order, maxDepth);
    }
  }

  /** One visit: the node leaves the queue with its depth settled. */
  lemma VisitNode<T(!new)>(d: map<T, set<T>>, dependents: map<T, set<T>>, inDegree: map<T, nat>,
                  queue: seq<T>, order: seq<T>, depths: map<T, nat>, last: T, maxDepth: nat)
    requires Mirrors(d, dependents) && KahnInv(d, inDegree, queue, order, {}) && queue != []
    requires DepthInv(d, depths, Elems(order), last, {}) && DeepestSoFar(d, order, maxDepth)
    ensures var node := queue[0];
      && node in dependents && node in depths
      && (forall x :: x in dependents[node] ==> Edge(d, x, node))
      && KahnInv(d, inDegree, queue[1..], order + [node], dependents[node])
      && d.Keys - Elems(order + [node]) < d.Keys - Elems(order)
      && DepthInv(d, depths, Elems(order + [node]), node, dependents[node])
      && DeepestSoFar(d, order + [node], if depths[node] > maxDepth then depths[node] else maxDepth)
  {
    var node := queue[0];
    Pop(d, dependents, inDegree, queue, order);
    PopOrder(d, inDegree, queue, order);
    forall x ensures x in dependents[node] <==> Edge(d, x, node) {
      assert Edge(d, x, node) <==> Edge(dependents, node, x);
    }
    assert forall x :: x in d && node in d[x] ==> Edge(d, x, node);
    DepthPop(d, depths, Elems(order), last, node, dependents[node]);
    assert IsDepth(d, node, depths[node]);
    DeepestStep(d, order, maxDepth, node, depths[node]);
  }

  lemma DeepestStep<T(!new)>(d: map<T, set<T>>, order: seq<T>, maxDepth: nat, node: T, depth: nat)
    requires DeepestSoFar(d, order, maxDepth) && IsDepth(d, node, depth)
    ensures DeepestSoFar(d, order + [node], if depth > maxDepth then depth else maxDepth)
  {
    var best := if depth > maxDepth then depth else maxDepth;
    forall x | x in order + [node] ensures DepthAtMost(d, x, best) {
      assert x in order || x == node;
      assert DepthAtMost(d, x, if x in order then maxDepth else depth);
    }
    if best > 1 && depth <= maxDepth {
      var x :| x in order && HasChain(d, x, maxDepth);
      assert x in order + [node];
    } else {
      assert node in order + [node];
    }
  }

  lemma LongestOverall<T(!new)>(d: map<T, set<T>>, order: seq<T>, maxDepth: nat)
    requires d.Keys != {} && DeepestSoFar(d, order, maxDepth)
    requires forall x :: x in order ==> x in d
    requires forall x :: x in d ==> x in order
    ensures LongestChain(d, maxDepth)
  {
    if maxDepth == 1 {
      var x :| x in d;
      DepthPositive(d, x);
    } else {
      var x :| x in order && HasChain(d, x, maxDepth);
    }
  }
}
