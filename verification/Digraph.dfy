/** Finite directed graphs held as dependency maps: `d[a]` is the set of nodes that `a` directly
    waits for. The module defines the ghost relation "transitively waits for" through explicit
    paths, and proves the facts about it that the Kahn loops and the graph rewrites rely on. */
module Digraph {

  ghost predicate Edge<T>(d: map<T, set<T>>, a: T, b: T) {
    a in d && b in d[a]
  }

  ghost predicate IsPath<T>(d: map<T, set<T>>, p: seq<T>) {
    forall i :: 0 <= i < |p| - 1 ==> Edge(d, p[i], p[i + 1])
  }

  ghost predicate PathBetween<T>(d: map<T, set<T>>, a: T, b: T, p: seq<T>) {
    |p| >= 2 && p[0] == a && p[|p| - 1] == b && IsPath(d, p)
  }

  /** `a` must wait for `b`, directly or through other nodes. */
  ghost predicate Waits<T(!new)>(d: map<T, set<T>>, a: T, b: T) {
    exists p: seq<T> :: PathBetween(d, a, b, p)
  }

  ghost predicate WaitsOrSame<T(!new)>(d: map<T, set<T>>, a: T, b: T) {
    a == b || Waits(d, a, b)
  }

  ghost predicate Acyclic<T(!new)>(d: map<T, set<T>>) {
    forall a :: !Waits(d, a, a)
  }

  /** `x` lies on a cycle or waits for something that does. */
  ghost predicate BehindCycle<T(!new)>(d: map<T, set<T>>, x: T) {
    exists c :: WaitsOrSame(d, x, c) && Waits(d, c, c)
  }

  ghost predicate AllStuck<T(!new)>(d: map<T, set<T>>) {
    forall x :: x in d ==> BehindCycle(d, x)
  }

  /** Every endpoint of an edge is itself a key. */
  ghost predicate Closed<T(!new)>(d: map<T, set<T>>) {
    forall a, b :: Edge(d, a, b) ==> b in d
  }

  ghost predicate Subgraph<T(!new)>(d: map<T, set<T>>, e: map<T, set<T>>) {
    forall a, b :: Edge(d, a, b) ==> Edge(e, a, b)
  }

  /** The mirrored adjacency map: `r[b]` holds exactly the nodes that directly wait for `b`. */
  ghost predicate Mirrors<T(!new)>(d: map<T, set<T>>, r: map<T, set<T>>) {
    && d.Keys == r.Keys
    && forall a, b :: Edge(d, a, b) <==> Edge(r, b, a)
  }

  function WithNode<T>(d: map<T, set<T>>, a: T): map<T, set<T>> {
    if a in d then d else d[a := {}]
  }

  function WithEdge<T>(d: map<T, set<T>>, a: T, b: T): map<T, set<T>> {
    if a in d then d[a := d[a] + {b}] else d[a := {b}]
  }

  function WithoutEdge<T>(d: map<T, set<T>>, a: T, b: T): map<T, set<T>> {
    if a in d then d[a := d[a] - {b}] else d
  }

  function WithoutNode<T>(d: map<T, set<T>>, x: T): map<T, set<T>> {
    map y | y in d && y != x :: d[y]
  }

  function WithoutMention<T>(r: map<T, set<T>>, x: T): map<T, set<T>> {
    map y | y in r && y != x :: r[y] - {x}
  }

  // ----- the mirror follows every elementary change -----

  lemma MirrorWithNode<T(!new)>(d: map<T, set<T>>, r: map<T, set<T>>, a: T)
    requires Mirrors(d, r)
    ensures Mirrors(WithNode(d, a), WithNode(r, a))
  {
    var d', r' := WithNode(d, a), WithNode(r, a);
    forall x, y
      ensures Edge(d', x, y) <==> Edge(d, x, y)
      ensures Edge(r', x, y) <==> Edge(r, x, y)
    {
    }
  }

  lemma MirrorWithEdge<T(!new)>(d: map<T, set<T>>, r: map<T, set<T>>, a: T, b: T)
    requires Mirrors(d, r) && a in d && b in d
    ensures Mirrors(WithEdge(d, a, b), WithEdge(r, b, a))
  {
    var d', r' := WithEdge(d, a, b), WithEdge(r, b, a);
    forall x, y
      ensures Edge(d', x, y) <==> Edge(d, x, y) || (x == a && y == b)
      ensures Edge(r', y, x) <==> Edge(r, y, x) || (x == a && y == b)
    {
    }
  }

  lemma MirrorWithoutEdge<T(!new)>(d: map<T, set<T>>, r: map<T, set<T>>, a: T, b: T)
    requires Mirrors(d, r)
    ensures Mirrors(WithoutEdge(d, a, b), WithoutEdge(r, b, a))
  {
    var d', r' := WithoutEdge(d, a, b), WithoutEdge(r, b, a);
    forall x, y
      ensures Edge(d', x, y) <==> Edge(d, x, y) && !(x == a && y == b)
      ensures Edge(r', y, x) <==> Edge(r, y, x) && !(x == a && y == b)
    {
    }
  }

  /** Dropping a node that nothing waits for: its prerequisites forget it. */
  lemma MirrorWithoutNode<T(!new)>(d: map<T, set<T>>, r: map<T, set<T>>, a: T)
    requires Mirrors(d, r) && forall x :: !Edge(r, a, x)
    ensures Mirrors(WithoutNode(d, a), WithoutMention(r, a))
  {
    var d' := WithoutNode(d, a);
    var r' := WithoutMention(r, a);
    forall x, y
      ensures Edge(d', x, y) <==> Edge(d, x, y) && x != a
      ensures Edge(r', y, x) <==> Edge(r, y, x) && x != a
    {
      assert Edge(d, x, y) <==> Edge(r, y, x);
    }
  }

  // ----- paths -----

  lemma EdgeWaits<T(!new)>(d: map<T, set<T>>, a: T, b: T)
    requires Edge(d, a, b)
    ensures Waits(d, a, b)
  {
    assert PathBetween(d, a, b, [a, b]);
  }

  lemma WaitsTransitive<T(!new)>(d: map<T, set<T>>, a: T, b: T, c: T)
    requires Waits(d, a, b) && Waits(d, b, c)
    ensures Waits(d, a, c)
  {
    var p :| PathBetween(d, a, b, p);
    var q :| PathBetween(d, b, c, q);
    var r := p + q[1..];
    forall i | 0 <= i < |r| - 1 ensures Edge(d, r[i], r[i + 1]) {
      if i < |p| - 1 {
        assert Edge(d, p[i], p[i + 1]);
      } else {
        assert Edge(d, q[i - |p| + 1], q[i - |p| + 2]);
      }
    }
    assert PathBetween(d, a, c, r);
  }

  lemma PathTail<T(!new)>(d: map<T, set<T>>, a: T, b: T, p: seq<T>)
    requires PathBetween(d, a, b, p)
    ensures Edge(d, a, p[1])
    ensures |p| == 2 ==> p[1] == b
    ensures |p| > 2 ==> PathBetween(d, p[1], b, p[1..])
  {
    assert Edge(d, p[0], p[1]);
    forall i | 0 <= i < |p[1..]| - 1 ensures Edge(d, p[1..][i], p[1..][i + 1]) {
      assert Edge(d, p[i + 1], p[i + 2]);
    }
  }

  /** A wait begins with one edge. */
  lemma WaitsFirst<T(!new)>(d: map<T, set<T>>, a: T, b: T) returns (c: T)
    requires Waits(d, a, b)
    ensures Edge(d, a, c) && WaitsOrSame(d, c, b)
  {
    var p :| PathBetween(d, a, b, p);
    PathTail(d, a, b, p);
    c := p[1];
  }

  /** A wait ends with one edge. */
  lemma {:induction false} WaitsLast<T(!new)>(d: map<T, set<T>>, a: T, b: T) returns (c: T)
    requires Waits(d, a, b)
    ensures WaitsOrSame(d, a, c) && Edge(d, c, b)
  {
    var p :| PathBetween(d, a, b, p);
    c := p[|p| - 2];
    assert Edge(d, p[|p| - 2], p[|p| - 1]);
    if |p| > 2 {
      var q := p[..|p| - 1];
      assert IsPath(d, q) by {
        forall i | 0 <= i < |q| - 1 ensures Edge(d, q[i], q[i + 1]) {
          assert Edge(d, p[i], p[i + 1]);
        }
      }
      assert PathBetween(d, a, c, q);
    }
  }

  lemma WaitsCons<T(!new)>(d: map<T, set<T>>, a: T, b: T, c: T)
    requires Edge(d, a, b) && WaitsOrSame(d, b, c)
    ensures Waits(d, a, c)
  {
    EdgeWaits(d, a, b);
    if b != c {
      WaitsTransitive(d, a, b, c);
    }
  }

  lemma WaitsSnoc<T(!new)>(d: map<T, set<T>>, a: T, b: T, c: T)
    requires WaitsOrSame(d, a, b) && Edge(d, b, c)
    ensures Waits(d, a, c)
  {
    EdgeWaits(d, b, c);
    if a != b {
      WaitsTransitive(d, a, b, c);
    }
  }

  /** When every edge of `d` is a wait of `e`, every wait of `d` is a wait of `e`. */
  lemma WaitsSimulate<T(!new)>(d: map<T, set<T>>, e: map<T, set<T>>, a: T, b: T)
    requires forall u, v :: Edge(d, u, v) ==> Waits(e, u, v)
    requires Waits(d, a, b)
    ensures Waits(e, a, b)
  {
    var p :| PathBetween(d, a, b, p);
    PathSimulate(d, e, a, b, p);
  }

  lemma {:induction false} PathSimulate<T(!new)>(d: map<T, set<T>>, e: map<T, set<T>>, a: T, b: T, p: seq<T>)
    requires forall u, v :: Edge(d, u, v) ==> Waits(e, u, v)
    requires PathBetween(d, a, b, p)
    ensures Waits(e, a, b)
    decreases |p|
  {
    PathTail(d, a, b, p);
    if |p| > 2 {
      PathSimulate(d, e, p[1], b, p[1..]);
      WaitsTransitive(e, a, p[1], b);
    }
  }

  /** A map of nodes that takes edges to edges takes waits to waits. */
  lemma WaitsMap<S(!new), T(!new)>(d: map<S, set<S>>, e: map<T, set<T>>, f: map<S, T>, a: S, b: S)
    requires forall u, v :: Edge(d, u, v) ==> u in f && v in f && Edge(e, f[u], f[v])
    requires Waits(d, a, b)
    ensures a in f && b in f && Waits(e, f[a], f[b])
  {
    var p :| PathBetween(d, a, b, p);
    assert Edge(d, p[0], p[1]) && Edge(d, p[|p| - 2], p[|p| - 1]);
    forall i | 0 <= i < |p| ensures p[i] in f {
      if i < |p| - 1 {
        assert Edge(d, p[i], p[i + 1]);
      }
    }
    var q := seq(|p|, i requires 0 <= i < |p| => f[p[i]]);
    forall i | 0 <= i < |q| - 1 ensures Edge(e, q[i], q[i + 1]) {
      assert Edge(d, p[i], p[i + 1]);
    }
    assert PathBetween(e, f[a], f[b], q);
  }

  lemma SubgraphWaits<T(!new)>(d: map<T, set<T>>, e: map<T, set<T>>, a: T, b: T)
    requires Subgraph(d, e) && Waits(d, a, b)
    ensures Waits(e, a, b)
  {
    var p :| PathBetween(d, a, b, p);
    assert PathBetween(e, a, b, p);
  }

  lemma SubgraphAcyclic<T(!new)>(d: map<T, set<T>>, e: map<T, set<T>>)
    requires Subgraph(d, e) && Acyclic(e)
    ensures Acyclic(d)
  {
    forall a | Waits(d, a, a) ensures false {
      SubgraphWaits(d, e, a, a);
    }
  }

  /** A set closed under edges and holding the first step holds everything waited for. */
  lemma {:induction false} WaitsStaysIn<T(!new)>(d: map<T, set<T>>, s: set<T>, a: T, b: T)
    requires forall u, v :: u in s && Edge(d, u, v) ==> v in s
    requires a in s && Waits(d, a, b)
    ensures b in s
  {
    var p :| PathBetween(d, a, b, p);
    var i := 0;
    while i < |p| - 1
      invariant 0 <= i < |p| && p[i] in s
    {
      assert Edge(d, p[i], p[i + 1]);
      i := i + 1;
    }
  }

  // ----- adding one edge -----

  lemma {:induction false} WithEdgePath<T(!new)>(d: map<T, set<T>>, a: T, b: T, x: T, y: T, p: seq<T>)
    requires PathBetween(WithEdge(d, a, b), x, y, p)
    ensures Waits(d, x, y) || (WaitsOrSame(d, x, a) && WaitsOrSame(d, b, y))
    decreases |p|
  {
    var e := WithEdge(d, a, b);
    PathTail(e, x, y, p);
    if |p| > 2 {
      WithEdgePath(d, a, b, p[1], y, p[1..]);
    }
    if Edge(d, x, p[1]) {
      if Waits(d, p[1], y) || p[1] == y {
        WaitsCons(d, x, p[1], y);
      } else {
        WaitsCons(d, x, p[1], a);
      }
    } else {
      assert x == a && p[1] == b;
    }
  }

  lemma WithEdgeWaits<T(!new)>(d: map<T, set<T>>, a: T, b: T, x: T, y: T)
    ensures Waits(WithEdge(d, a, b), x, y)
       <==> Waits(d, x, y) || (WaitsOrSame(d, x, a) && WaitsOrSame(d, b, y))
  {
    var e := WithEdge(d, a, b);
    if Waits(e, x, y) {
      var p :| PathBetween(e, x, y, p);
      WithEdgePath(d, a, b, x, y, p);
    }
    if Waits(d, x, y) {
      SubgraphWaits(d, e, x, y);
    }
    if WaitsOrSame(d, x, a) && WaitsOrSame(d, b, y) {
      if x != a {
        SubgraphWaits(d, e, x, a);
      }
      if b != y {
        SubgraphWaits(d, e, b, y);
      }
      WaitsCons(e, a, b, y);
      if x != a {
        WaitsTransitive(e, x, a, y);
      }
    }
  }

  /** Adding the edge `a` waits for `b` closes a cycle exactly when `b` already waits for `a`. */
  lemma WithEdgeAcyclic<T(!new)>(d: map<T, set<T>>, a: T, b: T)
    requires Acyclic(d)
    ensures Acyclic(WithEdge(d, a, b)) <==> !WaitsOrSame(d, b, a)
  {
    var e := WithEdge(d, a, b);
    if WaitsOrSame(d, b, a) {
      WithEdgeWaits(d, a, b, a, a);
      assert Waits(e, a, a);
    } else {
      forall x | Waits(e, x, x) ensures false {
        WithEdgeWaits(d, a, b, x, x);
        if x != a && b != x {
          WaitsTransitive(d, b, x, a);
        }
      }
    }
  }

  // ----- finite sets without a source or a sink -----

  /** A nonempty finite set without cycles has a member that waits for no member of the set. */
  lemma {:induction false} MinimalMember<T(!new)>(d: map<T, set<T>>, s: set<T>) returns (m: T)
    requires s != {}
    requires forall x :: x in s ==> !Waits(d, x, x)
    ensures m in s && forall x :: x in s ==> !Waits(d, m, x)
    decreases s
  {
    m :| m in s;
    var r := set x | x in s && Waits(d, m, x);
    assert forall x :: x in s && Waits(d, m, x) ==> x in r;
    if r != {} {
      assert m !in r;
      var n := MinimalMember(d, r);
      forall x | x in s && x !in r ensures !Waits(d, n, x) {
        if Waits(d, n, x) {
          WaitsTransitive(d, m, n, x);
        }
      }
      m := n;
    }
  }

  /** A nonempty finite set without cycles has a member that no member of the set waits for. */
  lemma {:induction false} MaximalMember<T(!new)>(d: map<T, set<T>>, s: set<T>) returns (m: T)
    requires s != {}
    requires forall x :: x in s ==> !Waits(d, x, x)
    ensures m in s && forall x :: x in s ==> !Waits(d, x, m)
    decreases s
  {
    m :| m in s;
    var r := set x | x in s && Waits(d, x, m);
    assert forall x :: x in s && Waits(d, x, m) ==> x in r;
    if r != {} {
      assert m !in r;
      var n := MaximalMember(d, r);
      forall x | x in s && x !in r ensures !Waits(d, x, n) {
        if Waits(d, x, n) {
          WaitsTransitive(d, x, n, m);
        }
      }
      m := n;
    }
  }

  /** If every member of a finite set waits directly for a member, each member is behind a cycle. */
  lemma StuckBehindCycle<T(!new)>(d: map<T, set<T>>, s: set<T>, x: T)
    requires forall a :: a in s ==> exists b :: b in s && Edge(d, a, b)
    requires x in s
    ensures BehindCycle(d, x)
  {
    var r := set y | y in s && WaitsOrSame(d, x, y);
    if forall y :: y in r ==> !Waits(d, y, y) {
      assert x in r;
      var m := MinimalMember(d, r);
      var b :| b in s && Edge(d, m, b);
      EdgeWaits(d, m, b);
      WaitsSnoc(d, x, m, b);
    }
  }

  /** Everything behind a cycle lies on one exactly when nothing off the cycles waits directly for
      something on one. */
  lemma BehindIsOnCycle<T(!new)>(d: map<T, set<T>>)
    ensures (forall x :: BehindCycle(d, x) ==> Waits(d, x, x))
       <==> (forall a, b :: Edge(d, a, b) && Waits(d, b, b) ==> Waits(d, a, a))
  {
    if forall x :: BehindCycle(d, x) ==> Waits(d, x, x) {
      forall a, b | Edge(d, a, b) && Waits(d, b, b) ensures Waits(d, a, a) {
        EdgeWaits(d, a, b);
        assert BehindCycle(d, a);
      }
    }
    if forall a, b :: Edge(d, a, b) && Waits(d, b, b) ==> Waits(d, a, a) {
      forall x | BehindCycle(d, x) ensures Waits(d, x, x) {
        var c :| WaitsOrSame(d, x, c) && Waits(d, c, c);
        if x != c {
          var p :| PathBetween(d, x, c, p);
          CycleReachesBack(d, x, c, p);
        }
      }
    }
  }

  lemma {:induction false} CycleReachesBack<T(!new)>(d: map<T, set<T>>, x: T, c: T, p: seq<T>)
    requires forall a, b :: Edge(d, a, b) && Waits(d, b, b) ==> Waits(d, a, a)
    requires PathBetween(d, x, c, p) && Waits(d, c, c)
    ensures Waits(d, x, x)
    decreases |p|
  {
    PathTail(d, x, c, p);
    if |p| > 2 {
      CycleReachesBack(d, p[1], c, p[1..]);
    }
  }

  // ----- orders that list prerequisites first -----

  function Elems<T>(s: seq<T>): set<T> {
    set x | x in s
  }

  lemma ElemsPrefix<T>(s: seq<T>, i: nat)
    requires i < |s|
    ensures Elems(s[..i + 1]) == Elems(s[..i]) + {s[i]}
    ensures Elems(s[..i + 1]) <= Elems(s)
  {
    assert s[..i + 1] == s[..i] + [s[i]];
  }

  ghost predicate Distinct<T>(s: seq<T>) {
    forall i, j :: 0 <= i < j < |s| ==> s[i] != s[j]
  }

  /** Everything a listed node directly waits for is listed strictly before it. */
  ghost predicate PrerequisitesFirst<T(!new)>(d: map<T, set<T>>, order: seq<T>) {
    forall i, b :: 0 <= i < |order| && Edge(d, order[i], b) ==> b in order[..i]
  }

  lemma {:induction false} ListedBefore<T(!new)>(d: map<T, set<T>>, order: seq<T>, i: nat, b: T, p: seq<T>)
    requires PrerequisitesFirst(d, order) && i < |order|
    requires PathBetween(d, order[i], b, p)
    ensures b in order[..i]
    decreases |p|
  {
    PathTail(d, order[i], b, p);
    var j :| 0 <= j < i && order[j] == p[1];
    if |p| > 2 {
      ListedBefore(d, order, j, b, p[1..]);
    }
  }

  lemma ListedNotBehindCycle<T(!new)>(d: map<T, set<T>>, order: seq<T>, x: T)
    requires PrerequisitesFirst(d, order) && Distinct(order) && x in order
    ensures !BehindCycle(d, x)
  {
    forall c | WaitsOrSame(d, x, c) && Waits(d, c, c) ensures false {
      var i :| 0 <= i < |order| && order[i] == x;
      if c != x {
        var p :| PathBetween(d, x, c, p);
        ListedBefore(d, order, i, c, p);
      }
      var j :| 0 <= j < |order| && order[j] == c;
      var q :| PathBetween(d, c, c, q);
      ListedBefore(d, order, j, c, q);
    }
  }

  /** An exhausted Kahn pass splits the nodes: the ones it could not list are exactly the ones on
      or behind a cycle, and it listed everything exactly when the graph has no cycle. */
  lemma KahnSplit<T(!new)>(d: map<T, set<T>>, order: seq<T>)
    requires Closed(d) && PrerequisitesFirst(d, order) && Distinct(order)
    requires forall x :: x in order ==> x in d
    requires forall x :: x in d && x !in order ==> exists b :: b in d[x] && b !in order
    ensures forall x :: x in d ==> (x !in order <==> BehindCycle(d, x))
    ensures Acyclic(d) <==> (forall x :: x in d ==> x in order)
  {
    var rest := set x | x in d && x !in order;
    forall a | a in rest ensures exists b :: b in rest && Edge(d, a, b) {
      var b :| b in d[a] && b !in order;
      assert Edge(d, a, b);
      assert b in rest;
    }
    forall x | x in d ensures x !in order <==> BehindCycle(d, x) {
      if x in order {
        ListedNotBehindCycle(d, order, x);
      } else {
        StuckBehindCycle(d, rest, x);
      }
    }
    if forall x :: x in d ==> x in order {
      forall a | Waits(d, a, a) ensures false {
        var c := WaitsFirst(d, a, a);
        assert BehindCycle(d, a);
      }
    }
  }
}
