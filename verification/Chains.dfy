/** Chains of prerequisites and how deep a node sits: its longest chain, counted in nodes. */
module Chains {
  import opened Digraph

  /** `p` walks from `t` along prerequisites; the node itself counts. */
  ghost predicate Chain<T(!new)>(d: map<T, set<T>>, t: T, p: seq<T>) {
    |p| >= 1 && p[0] == t && t in d && IsPath(d, p)
  }

  ghost predicate DepthAtMost<T(!new)>(d: map<T, set<T>>, t: T, k: int) {
    forall p: seq<T> :: Chain(d, t, p) ==> |p| <= k
  }

  ghost predicate HasChain<T(!new)>(d: map<T, set<T>>, t: T, k: int) {
    exists p: seq<T> :: Chain(d, t, p) && |p| == k
  }

  /** The longest chain from `t` has exactly `k` nodes. */
  ghost predicate IsDepth<T(!new)>(d: map<T, set<T>>, t: T, k: int) {
    HasChain(d, t, k) && DepthAtMost(d, t, k)
  }

  /** The longest chain of the whole graph has exactly `k` nodes. */
  ghost predicate LongestChain<T(!new)>(d: map<T, set<T>>, k: int) {
    (exists t :: t in d && HasChain(d, t, k)) && forall t :: t in d ==> DepthAtMost(d, t, k)
  }

  lemma ChainTail<T(!new)>(d: map<T, set<T>>, t: T, p: seq<T>)
    requires Closed(d) && Chain(d, t, p) && |p| > 1
    ensures p[1] in d[t] && Chain(d, p[1], p[1..])
  {
    assert Edge(d, p[0], p[1]);
    forall i | 0 <= i < |p[1..]| - 1 ensures Edge(d, p[1..][i], p[1..][i + 1]) {
      assert Edge(d, p[i + 1], p[i + 2]);
    }
  }

  lemma ChainCons<T(!new)>(d: map<T, set<T>>, t: T, b: T, p: seq<T>)
    requires t in d && b in d[t] && Chain(d, b, p)
    ensures Chain(d, t, [t] + p)
  {
    var q := [t] + p;
    forall i | 0 <= i < |q| - 1 ensures Edge(d, q[i], q[i + 1]) {
      if i > 0 {
        assert Edge(d, p[i - 1], p[i]);
      }
    }
  }

  /** A node is at depth at most `k + 1` exactly when its prerequisites are at depth at most `k`. */
  lemma DepthAtMostStep<T(!new)>(d: map<T, set<T>>, t: T, k: nat)
    requires Closed(d) && t in d
    ensures DepthAtMost(d, t, k + 1) <==> forall b :: b in d[t] ==> DepthAtMost(d, b, k)
  {
    if forall b :: b in d[t] ==> DepthAtMost(d, b, k) {
      forall p | Chain(d, t, p) ensures |p| <= k + 1 {
        if |p| > 1 {
          ChainTail(d, t, p);
        }
      }
    }
    if DepthAtMost(d, t, k + 1) {
      forall b, p | b in d[t] && Chain(d, b, p) ensures |p| <= k {
        ChainCons(d, t, b, p);
      }
    }
  }

  lemma DepthPositive<T(!new)>(d: map<T, set<T>>, t: T)
    requires t in d
    ensures HasChain(d, t, 1) && !DepthAtMost(d, t, 0)
  {
    assert Chain(d, t, [t]);
  }

  lemma HasChainCons<T(!new)>(d: map<T, set<T>>, t: T, b: T, k: int)
    requires t in d && b in d[t] && HasChain(d, b, k)
    ensures HasChain(d, t, k + 1)
  {
    var p :| Chain(d, b, p) && |p| == k;
    ChainCons(d, t, b, p);
    assert |[t] + p| == k + 1;
  }

  /** A map of nodes that takes edges to edges takes chains to chains of the same length. */
  lemma DepthMap<S(!new), T(!new)>(d: map<S, set<S>>, e: map<T, set<T>>, f: map<S, T>, a: S, k: int)
    requires forall u, v :: Edge(d, u, v) ==> u in f && v in f && Edge(e, f[u], f[v])
    requires a in f && f[a] in e && DepthAtMost(e, f[a], k)
    ensures DepthAtMost(d, a, k)
  {
    forall q | Chain(d, a, q) ensures |q| <= k {
      forall i | 0 <= i < |q| ensures q[i] in f {
        assert i > 0 ==> Edge(d, q[i - 1], q[i]);
      }
      var image := seq(|q|, i requires 0 <= i < |q| => f[q[i]]);
      forall i | 0 <= i < |image| - 1 ensures Edge(e, image[i], image[i + 1]) {
        assert Edge(d, q[i], q[i + 1]);
      }
      assert Chain(e, f[a], image);
    }
  }

  lemma LongestChainUnique<T(!new)>(d: map<T, set<T>>, j: int, k: int)
    requires LongestChain(d, j) && LongestChain(d, k)
    ensures j == k
  {
    var t :| t in d && HasChain(d, t, j);
    var u :| u in d && HasChain(d, u, k);
    assert DepthAtMost(d, t, k) && DepthAtMost(d, u, j);
  }

  // ----- depths computed along Kahn's order -----

  /** While the nodes of `listed` are done and the dependents `pending` of `node` still have to hear
      of it: listed nodes carry their depth; any other node carries one more than the deepest listed
      prerequisite it has heard of, or 1 if it has none. */
  ghost predicate DepthInv<T(!new)>(d: map<T, set<T>>, depths: map<T, nat>, listed: set<T>, node: T, pending: set<T>) {
    && (forall x :: x in listed ==> x in d && x in depths && IsDepth(d, x, depths[x]))
    && (forall x :: x in d && x !in listed ==> Heard(d, depths, listed, node, pending, x))
  }

  ghost predicate Heard<T(!new)>(d: map<T, set<T>>, depths: map<T, nat>, listed: set<T>, node: T, pending: set<T>, x: T)
    requires x in d
  {
    && (d[x] == {} ==> x in depths)
    && (x in depths ==> depths[x] == 1 || exists b :: b in d[x] && b in listed && b in depths && depths[x] == depths[b] + 1)
    && (x in depths ==> depths[x] >= 1)
    && (forall b :: b in d[x] && b in listed && !(b == node && x in pending) ==>
          b in depths && x in depths && depths[x] >= depths[b] + 1)
  }

  /** A node whose prerequisites are all listed carries its depth. */
  lemma HeardAll<T(!new)>(d: map<T, set<T>>, depths: map<T, nat>, listed: set<T>, node: T, x: T)
    requires Closed(d) && DepthInv(d, depths, listed, node, {})
    requires x in d && x !in listed && d[x] <= listed
    ensures x in depths && IsDepth(d, x, depths[x])
  {
    assert Heard(d, depths, listed, node, {}, x);
    if d[x] != {} {
      var b :| b in d[x];
      assert b in listed;
    }
    assert x in depths && depths[x] >= 1;
    if depths[x] == 1 {
      DepthPositive(d, x);
    } else {
      var b :| b in d[x] && b in listed && b in depths && depths[x] == depths[b] + 1;
      HasChainCons(d, x, b, depths[b]);
    }
    forall b | b in d[x] ensures DepthAtMost(d, b, depths[x] - 1) {
      assert b in listed && IsDepth(d, b, depths[b]);
    }
    DepthAtMostStep(d, x, depths[x] - 1);
  }

  lemma DepthStart<T(!new)>(d: map<T, set<T>>, depths: map<T, nat>, node: T)
    requires depths.Keys <= d.Keys && forall x :: x in d ==> (x in depths <==> d[x] == {})
    requires forall x :: x in depths ==> depths[x] == 1
    ensures DepthInv(d, depths, {}, node, {})
  {
  }

  /** Listing `node`: its dependents have yet to hear of it. */
  lemma DepthPop<T(!new)>(d: map<T, set<T>>, depths: map<T, nat>, listed: set<T>, last: T, node: T, pending: set<T>)
    requires Closed(d) && DepthInv(d, depths, listed, last, {})
    requires node in d && node !in listed && d[node] <= listed
    requires forall x :: x in d && node in d[x] ==> x in pending
    ensures node in depths && DepthInv(d, depths, listed + {node}, node, pending)
  {
    HeardAll(d, depths, listed, last, node);
    forall x | x in d && x !in listed + {node} ensures Heard(d, depths, listed + {node}, node, pending, x) {
      assert Heard(d, depths, listed, last, {}, x);
    }
  }

  /** A dependent takes the larger of what it knew, at least 1, and one more than `current`. */
  function Raise<T>(depths: map<T, nat>, x: T, current: nat): map<T, nat> {
    var known := if x in depths then depths[x] else 1;
    depths[x := if known >= current + 1 then known else current + 1]
  }

  /** One dependent hears of `node`. */
  lemma DepthRelease<T(!new)>(d: map<T, set<T>>, depths: map<T, nat>, listed: set<T>, node: T, pending: set<T>, x: T)
    requires DepthInv(d, depths, listed, node, pending)
    requires node in listed && node in depths && x in d && x !in listed && x in pending && node in d[x]
    ensures DepthInv(d, Raise(depths, x, depths[node]), listed, node, pending - {x})
  {
    var before := if x in depths then depths[x] else 1;
    var depths' := Raise(depths, x, depths[node]);
    assert Heard(d, depths, listed, node, pending, x);
    assert IsDepth(d, node, depths[node]);
    DepthPositive(d, node);
    forall y | y in d && y !in listed ensures Heard(d, depths', listed, node, pending - {x}, y) {
      assert Heard(d, depths, listed, node, pending, y);
      if y == x && before < depths[node] + 1 {
        assert node in d[y] && node in listed && node in depths' && depths'[y] == depths'[node] + 1;
      } else if y in depths && depths[y] != 1 {
        var b :| b in d[y] && b in listed && b in depths && depths[y] == depths[b] + 1;
        assert b in depths' && depths'[y] == depths'[b] + 1;
      }
    }
  }
}
