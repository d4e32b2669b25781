/** The graph rewrites as functions on dependency maps, and what they do to the transitive
    "must wait for" relation. */
module Rewrites {
  import opened Results
  import opened Core
  import opened Digraph

  type Deps = map<TaskId, set<TaskId>>

  /** Arguments of a decomposition: `links` holds pairs (task, prerequisite) among the children. */
  datatype Decomposition = Decomposition(
    parent: TaskId,
    children: seq<Task>,
    links: seq<(TaskId, TaskId)>,
    terminals: seq<TaskId>)

  // ----- the stages of a decomposition -----

  function Ids(tasks: seq<Task>): set<TaskId> {
    set t | t in tasks :: t.id
  }

  function TasksWith(tasks: map<TaskId, Task>, added: seq<Task>): map<TaskId, Task> {
    if added == [] then tasks
    else var n := |added| - 1; TasksWith(tasks, added[..n])[added[n].id := added[n]]
  }

  function WithNodes(d: Deps, ids: set<TaskId>): Deps {
    map x | x in d.Keys + ids :: if x in d then d[x] else {}
  }

  function Targets(links: set<(TaskId, TaskId)>, x: TaskId): set<TaskId> {
    set e | e in links && e.0 == x :: e.1
  }

  function WithEdges(d: Deps, links: set<(TaskId, TaskId)>): Deps {
    map x | x in d :: d[x] + Targets(links, x)
  }

  /** The tasks that name `parent` as their parent. */
  function Kids(tasks: map<TaskId, Task>, parent: TaskId): set<TaskId> {
    set t | t in tasks && tasks[t].parent == Some(parent)
  }

  function Inherited(d: Deps, kids: set<TaskId>, upstream: set<TaskId>): Deps {
    map x | x in d :: if x in kids && d[x] == {} then upstream else d[x]
  }

  function Downstream(d: Deps, parent: TaskId): set<TaskId> {
    set x | x in d && parent in d[x]
  }

  function Rewired(d: Deps, downstream: set<TaskId>, parent: TaskId, terminals: set<TaskId>): Deps {
    map x | x in d :: if x in downstream then d[x] - {parent} + terminals else d[x]
  }

  /** The graph once the children are added and linked. */
  function Linked(d: Deps, children: seq<Task>, links: seq<(TaskId, TaskId)>): Deps {
    WithEdges(WithNodes(d, Ids(children)), Elems(links))
  }

  /** The graph once the initial children have inherited the parent's upstream as well. */
  function Grown(tasks: map<TaskId, Task>, d: Deps, parent: TaskId, children: seq<Task>,
                 links: seq<(TaskId, TaskId)>): Deps
    requires parent in d
  {
    Inherited(Linked(d, children, links), Kids(TasksWith(tasks, children), parent), d[parent])
  }

  /** The graph a successful decomposition leaves behind. */
  function Decomposed(tasks: map<TaskId, Task>, d: Deps, p: Decomposition): Deps
    requires p.parent in d
  {
    Rewired(Grown(tasks, d, p.parent, p.children, p.links), Downstream(d, p.parent), p.parent, Elems(p.terminals))
  }

  /** The children name the parent and their links stay in the graph. */
  ghost predicate LinksSoundly(d: Deps, parent: TaskId, children: seq<Task>, links: seq<(TaskId, TaskId)>) {
    && (forall c :: c in children ==> c.parent == Some(parent))
    && (forall e :: e in Elems(links) ==> e.0 in d.Keys + Ids(children) && e.1 in d.Keys + Ids(children))
  }

  /** Exactly when a decomposition succeeds. */
  ghost predicate Admissible(tasks: map<TaskId, Task>, d: Deps, p: Decomposition) {
    && p.parent in d
    && LinksSoundly(d, p.parent, p.children, p.links)
    && Acyclic(Grown(tasks, d, p.parent, p.children, p.links))
    && (Downstream(d, p.parent) != {} ==> Elems(p.terminals) <= d.Keys + Ids(p.children))
    && Acyclic(Decomposed(tasks, d, p))
  }

  // ----- one step of each stage -----

  function WithAll(d: Deps, x: TaskId, prerequisites: set<TaskId>): Deps {
    if x in d then d[x := d[x] + prerequisites] else d
  }

  lemma ChildrenNone(tasks: map<TaskId, Task>, d: Deps, children: seq<Task>)
    ensures TasksWith(tasks, children[..0]) == tasks && WithNodes(d, Ids(children[..0])) == d
  {
    assert Ids(children[..0]) == {};
  }

  lemma ChildrenStep(tasks: map<TaskId, Task>, d: Deps, children: seq<Task>, i: nat)
    requires i < |children|
    ensures TasksWith(tasks, children[..i + 1]) == TasksWith(tasks, children[..i])[children[i].id := children[i]]
    ensures WithNode(WithNodes(d, Ids(children[..i])), children[i].id) == WithNodes(d, Ids(children[..i + 1]))
    ensures forall c :: c in children[..i + 1] <==> c in children[..i] || c == children[i]
  {
    assert children[..i + 1] == children[..i] + [children[i]];
    assert children[..i + 1][..i] == children[..i];
    assert Ids(children[..i + 1]) == Ids(children[..i]) + {children[i].id};
  }

  lemma NoEdges(d: Deps)
    ensures WithEdges(d, {}) == d
  {
    forall x | x in d ensures WithEdges(d, {})[x] == d[x] {
    }
  }

  lemma EdgesStep(d: Deps, links: set<(TaskId, TaskId)>, a: TaskId, b: TaskId)
    requires a in d
    ensures WithEdge(WithEdges(d, links), a, b) == WithEdges(d, links + {(a, b)})
  {
    var l, r := WithEdge(WithEdges(d, links), a, b), WithEdges(d, links + {(a, b)});
    forall x | x in d ensures l[x] == r[x] {
      assert Targets(links + {(a, b)}, x) == Targets(links, x) + if x == a then {b} else {} by {
        if x == a {
          assert (a, b) in links + {(a, b)};
        }
      }
    }
    assert l.Keys == r.Keys;
  }

  lemma LinksNone(d: Deps, links: seq<(TaskId, TaskId)>)
    ensures Elems(links[..0]) == {} && WithEdges(d, Elems(links[..0])) == d
  {
    assert Elems(links[..0]) == {};
    NoEdges(d);
  }

  lemma LinksStep(d: Deps, links: seq<(TaskId, TaskId)>, i: nat)
    requires i < |links|
    ensures links[i] in Elems(links) && Elems(links[..i + 1]) == Elems(links[..i]) + {links[i]}
    ensures links[i].0 in d ==>
      WithEdge(WithEdges(d, Elems(links[..i])), links[i].0, links[i].1) == WithEdges(d, Elems(links[..i + 1]))
    ensures Acyclic(WithEdges(d, Elems(links))) ==> Acyclic(WithEdges(d, Elems(links[..i + 1])))
  {
    ElemsPrefix(links, i);
    if links[i].0 in d {
      EdgesStep(d, Elems(links[..i]), links[i].0, links[i].1);
      assert (links[i].0, links[i].1) == links[i];
    }
    if !Acyclic(WithEdges(d, Elems(links[..i + 1]))) {
      LinkBlocked(d, Elems(links[..i + 1]), Elems(links));
    }
  }

  lemma AllStep(d: Deps, x: TaskId, done: set<TaskId>, y: TaskId)
    requires x in d
    ensures WithAll(d, x, {}) == d
    ensures WithEdge(WithAll(d, x, done), x, y) == WithAll(d, x, done + {y})
  {
    assert d[x] + {} == d[x];
    assert d[x] + done + {y} == d[x] + (done + {y});
  }

  lemma InheritNone(d: Deps, upstream: set<TaskId>)
    ensures forall kids: set<TaskId> {:trigger kids - kids} :: Inherited(d, kids - kids, upstream) == d
  {
    forall kids: set<TaskId> ensures Inherited(d, kids - kids, upstream) == d {
      assert kids - kids == {};
    }
  }

  lemma InheritAlone(d: Deps, upstream: set<TaskId>, x: TaskId)
    requires x in d
    ensures Inherited(d, {x}, upstream) == if d[x] == {} then WithAll(d, x, upstream) else d
  {
    assert {} + upstream == upstream;
  }

  lemma InheritStep(d: Deps, kids: set<TaskId>, rest: set<TaskId>, upstream: set<TaskId>, x: TaskId)
    requires rest <= kids && x in rest && x in d
    ensures x in Inherited(d, kids - rest, upstream)
    ensures Inherited(Inherited(d, kids - rest, upstream), {x}, upstream) == Inherited(d, kids - (rest - {x}), upstream)
  {
  }

  lemma RewireNone(d: Deps, parent: TaskId, terminals: set<TaskId>)
    ensures forall xs: set<TaskId> {:trigger xs - xs} :: Rewired(d, xs - xs, parent, terminals) == d
  {
    forall xs: set<TaskId> ensures Rewired(d, xs - xs, parent, terminals) == d {
      assert xs - xs == {};
    }
  }

  lemma RewireAlone(d: Deps, parent: TaskId, terminals: set<TaskId>, x: TaskId)
    requires x in d
    ensures WithAll(WithoutEdge(d, x, parent), x, terminals) == Rewired(d, {x}, parent, terminals)
  {
  }

  lemma RewireStep(d: Deps, downstream: set<TaskId>, rest: set<TaskId>, parent: TaskId, terminals: set<TaskId>, x: TaskId)
    requires rest <= downstream && x in rest && Edge(d, x, parent)
    ensures Edge(Rewired(d, downstream - rest, parent, terminals), x, parent)
    ensures Rewired(Rewired(d, downstream - rest, parent, terminals), {x}, parent, terminals)
         == Rewired(d, downstream - (rest - {x}), parent, terminals)
  {
  }

  /** A subgraph of every later stage: a cycle met on the way is a cycle of the finished stage. */
  lemma CycleStays(d: Deps, e: Deps)
    requires Subgraph(d, e) && !Acyclic(d)
    ensures !Acyclic(e)
  {
    if Acyclic(e) {
      SubgraphAcyclic(d, e);
    }
  }

  lemma LinkBlocked(d: Deps, done: set<(TaskId, TaskId)>, links: set<(TaskId, TaskId)>)
    requires done <= links && !Acyclic(WithEdges(d, done))
    ensures !Acyclic(WithEdges(d, links))
  {
    CycleStays(WithEdges(d, done), WithEdges(d, links));
  }

  lemma AllBlocked(d: Deps, x: TaskId, done: set<TaskId>, prerequisites: set<TaskId>)
    requires done <= prerequisites && !Acyclic(WithAll(d, x, done))
    ensures !Acyclic(WithAll(d, x, prerequisites))
  {
    CycleStays(WithAll(d, x, done), WithAll(d, x, prerequisites));
  }

  lemma InheritBlocked(d: Deps, done: set<TaskId>, kids: set<TaskId>, upstream: set<TaskId>)
    requires done <= kids && !Acyclic(Inherited(d, done, upstream))
    ensures !Acyclic(Inherited(d, kids, upstream))
  {
    CycleStays(Inherited(d, done, upstream), Inherited(d, kids, upstream));
  }

  /** A cycle met while rewiring means the finished rewiring has a cycle too. */
  lemma RewireBlocked(d: Deps, done: set<TaskId>, downstream: set<TaskId>, parent: TaskId, terminals: set<TaskId>)
    requires Acyclic(d) && done <= downstream && forall x :: x in downstream ==> Edge(d, x, parent)
    requires !Acyclic(Rewired(d, done, parent, terminals))
    ensures !Acyclic(Rewired(d, downstream, parent, terminals))
  {
    if Acyclic(Rewired(d, downstream, parent, terminals)) {
      OverlaidAcyclic(d, parent, terminals, downstream);
      CycleStays(Rewired(d, done, parent, terminals), Overlaid(d, downstream, terminals));
    }
  }

  lemma GrownExtendsLinked(tasks: map<TaskId, Task>, d: Deps, parent: TaskId, children: seq<Task>,
                           links: seq<(TaskId, TaskId)>)
    requires parent in d
    ensures Acyclic(Grown(tasks, d, parent, children, links)) ==> Acyclic(Linked(d, children, links))
  {
    var linked := Linked(d, children, links);
    if !Acyclic(linked) {
      CycleStays(linked, Grown(tasks, d, parent, children, links));
    }
  }

  lemma GrownExtendsOld(tasks: map<TaskId, Task>, d: Deps, parent: TaskId, children: seq<Task>,
                        links: seq<(TaskId, TaskId)>)
    requires parent in d
    ensures Subgraph(d, Grown(tasks, d, parent, children, links))
    ensures Grown(tasks, d, parent, children, links).Keys == d.Keys + Ids(children)
  {
    forall a, b | Edge(d, a, b) ensures Edge(Grown(tasks, d, parent, children, links), a, b) {
      assert b in Linked(d, children, links)[a];
    }
  }

  // ----- intermediate graphs of the rewiring -----

  /** Both the edges to the parent and the edges to the terminals at once. */
  function Overlaid(d: Deps, downstream: set<TaskId>, terminals: set<TaskId>): Deps {
    map x | x in d :: if x in downstream then d[x] + terminals else d[x]
  }

  lemma {:induction false} OverlaidPath(d: Deps, parent: TaskId, terminals: set<TaskId>, downstream: set<TaskId>,
                                        u: TaskId, v: TaskId, q: seq<TaskId>)
    requires PathBetween(Overlaid(d, downstream, terminals), u, v, q)
    ensures var over := Overlaid(d, downstream, terminals);
            Waits(Rewired(d, downstream, parent, terminals), u, v) || WaitsOrSame(over, parent, v)
    decreases |q|
  {
    var over := Overlaid(d, downstream, terminals);
    var rewired := Rewired(d, downstream, parent, terminals);
    PathTail(over, u, v, q);
    if q[1] == parent {
      assert |q| > 2 ==> Waits(over, parent, v);
    } else {
      assert Edge(rewired, u, q[1]);
      if |q| > 2 {
        OverlaidPath(d, parent, terminals, downstream, q[1], v, q[1..]);
        if Waits(rewired, q[1], v) {
          WaitsCons(rewired, u, q[1], v);
        }
      } else {
        EdgeWaits(rewired, u, v);
      }
    }
  }

  /** If the graph is acyclic before and after the rewiring, it is so with both edge sets present,
      so every graph passed through on the way is acyclic as well. */
  lemma OverlaidAcyclic(d: Deps, parent: TaskId, terminals: set<TaskId>, downstream: set<TaskId>)
    requires Acyclic(d) && Acyclic(Rewired(d, downstream, parent, terminals))
    requires forall x :: x in downstream ==> Edge(d, x, parent)
    ensures Acyclic(Overlaid(d, downstream, terminals))
  {
    var over := Overlaid(d, downstream, terminals);
    forall c | Waits(over, c, c) ensures false {
      var q :| PathBetween(over, c, c, q);
      OverlaidPath(d, parent, terminals, downstream, c, c, q);
      if c != parent {
        var q' :| PathBetween(over, parent, c, q');
        UpstreamOfParent(d, parent, terminals, downstream, parent, c, q');
      }
      UpstreamOfParent(d, parent, terminals, downstream, c, c, q);
    }
  }

  /** Above the parent the overlay adds nothing, since no dependent of the parent lies there. */
  lemma {:induction false} UpstreamOfParent(d: Deps, parent: TaskId, terminals: set<TaskId>,
                                            downstream: set<TaskId>, u: TaskId, v: TaskId, q: seq<TaskId>)
    requires Acyclic(d)
    requires forall x :: x in downstream ==> Edge(d, x, parent)
    requires PathBetween(Overlaid(d, downstream, terminals), u, v, q) && WaitsOrSame(d, parent, u)
    ensures Waits(d, u, v) && Waits(d, parent, v)
    decreases |q|
  {
    var over := Overlaid(d, downstream, terminals);
    PathTail(over, u, v, q);
    if u in downstream {
      WaitsSnoc(d, parent, u, parent);
    }
    assert Edge(d, u, q[1]);
    WaitsSnoc(d, parent, u, q[1]);
    EdgeWaits(d, u, q[1]);
    if |q| > 2 {
      UpstreamOfParent(d, parent, terminals, downstream, q[1], v, q[1..]);
      WaitsTransitive(d, u, q[1], v);
    }
  }

  // ----- decomposing with fresh children -----

  /** The children's own dependency graph. */
  function ChildGraph(p: Decomposition): Deps {
    WithEdges(map c | c in Ids(p.children) :: {}, Elems(p.links))
  }

  /** What a planner hands over: fresh children of this parent, linked among themselves without a
      cycle, and at least one terminal child. */
  ghost predicate FreshChildren(tasks: map<TaskId, Task>, p: Decomposition) {
    && p.parent in tasks
    && (forall c :: c in p.children ==> c.parent == Some(p.parent) && c.id !in tasks)
    && (forall e :: e in p.links ==> e.0 in Ids(p.children) && e.1 in Ids(p.children))
    && Acyclic(ChildGraph(p))
    && Elems(p.terminals) != {} && Elems(p.terminals) <= Ids(p.children)
  }

  /** Children that the parent had before are left alone: they wait for something already, or there is
      nothing to inherit. */
  ghost predicate OldChildrenSettled(tasks: map<TaskId, Task>, d: Deps, parent: TaskId) {
    parent in d && (d[parent] == {} || forall t :: t in Kids(tasks, parent) && t in d ==> d[t] != {})
  }

  /** A sound graph `d`, a disjoint sound child graph `cd`, and the place where it goes in. */
  ghost predicate Splice(d: Deps, cd: Deps, parent: TaskId, terminals: set<TaskId>) {
    && Closed(d) && Acyclic(d) && parent in d
    && Closed(cd) && Acyclic(cd) && cd.Keys !! d.Keys
    && terminals != {} && terminals <= cd.Keys
  }

  /** The child graph put in the parent's place; with `keep` the old edges to the parent stay too. */
  function Spliced(d: Deps, cd: Deps, parent: TaskId, terminals: set<TaskId>, keep: bool): Deps
    requires parent in d
  {
    map x | x in d.Keys + cd.Keys ::
      if x in cd then (if cd[x] == {} then d[parent] else cd[x])
      else if parent in d[x] then (if keep then d[x] else d[x] - {parent}) + terminals
      else d[x]
  }

  /** What waiting means after the splice, in terms of the two graphs before it. */
  ghost predicate SplicedWaits(d: Deps, cd: Deps, parent: TaskId, terminals: set<TaskId>, u: TaskId, v: TaskId) {
    if v in cd then
      if u in cd then Waits(cd, u, v)
      else Waits(d, u, parent) && exists t :: t in terminals && WaitsOrSame(cd, t, v)
    else if u in cd then Waits(d, parent, v)
    else Waits(d, u, v)
  }

  lemma {:induction false} SplicedPathWaits(d: Deps, cd: Deps, parent: TaskId, terminals: set<TaskId>, keep: bool,
                                            u: TaskId, v: TaskId, q: seq<TaskId>)
    requires Splice(d, cd, parent, terminals)
    requires PathBetween(Spliced(d, cd, parent, terminals, keep), u, v, q)
    ensures SplicedWaits(d, cd, parent, terminals, u, v)
    decreases |q|
  {
    var g := Spliced(d, cd, parent, terminals, keep);
    PathTail(g, u, v, q);
    var w := q[1];
    if |q| > 2 {
      SplicedPathWaits(d, cd, parent, terminals, keep, w, v, q[1..]);
    }
    SplicedEdgeStep(d, cd, parent, terminals, keep, u, w, v);
  }

  lemma SplicedEdgeStep(d: Deps, cd: Deps, parent: TaskId, terminals: set<TaskId>, keep: bool,
                        u: TaskId, w: TaskId, v: TaskId)
    requires Splice(d, cd, parent, terminals)
    requires Edge(Spliced(d, cd, parent, terminals, keep), u, w)
    requires w == v || SplicedWaits(d, cd, parent, terminals, w, v)
    ensures SplicedWaits(d, cd, parent, terminals, u, v)
  {
    assert Edge(d, u, w) ==> w !in cd;
    assert Edge(d, parent, w) ==> w !in cd;
    assert Edge(cd, u, w) ==> w in cd;
    assert forall t :: t in terminals ==> t in cd;
    if u in cd {
      if w in cd {
        assert Edge(cd, u, w);
        if v in cd {
          WaitsCons(cd, u, w, v);
        }
      } else {
        assert Edge(d, parent, w);
        if v in cd {
          WaitsCons(d, parent, w, parent);
        } else {
          WaitsCons(d, parent, w, v);
        }
      }
    } else if w in cd {
      assert Edge(d, u, parent) && w in terminals;
      EdgeWaits(d, u, parent);
      if v !in cd {
        WaitsTransitive(d, u, parent, v);
      }
    } else {
      assert Edge(d, u, w);
      if v in cd {
        WaitsCons(d, u, w, parent);
      } else {
        WaitsCons(d, u, w, v);
      }
    }
  }

  lemma SplicedAcyclic(d: Deps, cd: Deps, parent: TaskId, terminals: set<TaskId>, keep: bool)
    requires Splice(d, cd, parent, terminals)
    ensures Acyclic(Spliced(d, cd, parent, terminals, keep))
  {
    var g := Spliced(d, cd, parent, terminals, keep);
    forall c | Waits(g, c, c) ensures false {
      var q :| PathBetween(g, c, c, q);
      SplicedPathWaits(d, cd, parent, terminals, keep, c, c, q);
    }
  }

  /** Every child waits for all the parent waited for: it reaches an initial child, which inherits. */
  lemma ChildInherits(d: Deps, cd: Deps, parent: TaskId, terminals: set<TaskId>, keep: bool, k: TaskId, y: TaskId)
    requires Splice(d, cd, parent, terminals)
    requires k in cd && y in d[parent]
    ensures Waits(Spliced(d, cd, parent, terminals, keep), k, y)
  {
    var g := Spliced(d, cd, parent, terminals, keep);
    var below := set x | x in cd && WaitsOrSame(cd, k, x);
    assert k in below;
    var m := MinimalMember(cd, below);
    if cd[m] != {} {
      var x :| x in cd[m];
      assert Edge(cd, m, x);
      EdgeWaits(cd, m, x);
      WaitsSnoc(cd, k, m, x);
    }
    assert Edge(g, m, y);
    ChildWaitsKept(d, cd, parent, terminals, keep, k, m);
    WaitsSnoc(g, k, m, y);
  }

  lemma ChildWaitsKept(d: Deps, cd: Deps, parent: TaskId, terminals: set<TaskId>, keep: bool, k: TaskId, m: TaskId)
    requires Splice(d, cd, parent, terminals)
    ensures Waits(cd, k, m) ==> Waits(Spliced(d, cd, parent, terminals, keep), k, m)
  {
    if Waits(cd, k, m) {
      SubgraphWaits(cd, Spliced(d, cd, parent, terminals, keep), k, m);
    }
  }

  /** Every old wait survives, except waits for the parent itself. */
  lemma {:induction false} OldPathKept(d: Deps, cd: Deps, parent: TaskId, terminals: set<TaskId>, keep: bool,
                                       u: TaskId, v: TaskId, q: seq<TaskId>)
    requires Splice(d, cd, parent, terminals)
    requires PathBetween(d, u, v, q) && v != parent
    ensures Waits(Spliced(d, cd, parent, terminals, keep), u, v)
    decreases |q|
  {
    var g := Spliced(d, cd, parent, terminals, keep);
    PathTail(d, u, v, q);
    var w := q[1];
    if w != parent {
      assert Edge(g, u, w);
      if |q| > 2 {
        OldPathKept(d, cd, parent, terminals, keep, w, v, q[1..]);
      }
      WaitsCons(g, u, w, v);
    } else {
      var t :| t in terminals;
      assert Edge(g, u, t);
      PathTail(d, parent, v, q[1..]);
      var y := q[2];
      ChildInherits(d, cd, parent, terminals, keep, t, y);
      WaitsCons(g, u, t, y);
      if |q| > 3 {
        OldPathKept(d, cd, parent, terminals, keep, y, v, q[2..]);
        WaitsTransitive(g, u, y, v);
      }
    }
  }

  lemma NothingNeedsParent(d: Deps, cd: Deps, parent: TaskId, terminals: set<TaskId>, z: TaskId)
    requires Splice(d, cd, parent, terminals)
    ensures !Edge(Spliced(d, cd, parent, terminals, false), z, parent)
  {
    if Edge(d, parent, parent) {
      EdgeWaits(d, parent, parent);
    }
    assert !Edge(cd, z, parent);
  }

  /** The complete picture of who waits for whom after a splice. */
  lemma SplicedWaitsExactly(d: Deps, cd: Deps, parent: TaskId, terminals: set<TaskId>, u: TaskId, v: TaskId)
    requires Splice(d, cd, parent, terminals)
    ensures Waits(Spliced(d, cd, parent, terminals, false), u, v)
       <==> v != parent && SplicedWaits(d, cd, parent, terminals, u, v)
  {
    var g := Spliced(d, cd, parent, terminals, false);
    if Waits(g, u, v) {
      var q :| PathBetween(g, u, v, q);
      SplicedPathWaits(d, cd, parent, terminals, false, u, v, q);
      var z := WaitsLast(g, u, v);
      NothingNeedsParent(d, cd, parent, terminals, z);
    } else if v != parent && SplicedWaits(d, cd, parent, terminals, u, v) {
      SplicedWaitsKept(d, cd, parent, terminals, u, v);
    }
  }

  lemma SplicedWaitsKept(d: Deps, cd: Deps, parent: TaskId, terminals: set<TaskId>, u: TaskId, v: TaskId)
    requires Splice(d, cd, parent, terminals) && v != parent
    requires SplicedWaits(d, cd, parent, terminals, u, v)
    ensures Waits(Spliced(d, cd, parent, terminals, false), u, v)
  {
    var g := Spliced(d, cd, parent, terminals, false);
    if v in cd {
      if u in cd {
        ChildWaitsKept(d, cd, parent, terminals, false, u, v);
      } else {
        var t :| t in terminals && WaitsOrSame(cd, t, v);
        var z := WaitsLast(d, u, parent);
        assert z in d && z !in cd;
        assert Edge(g, z, t);
        if z != u {
          if z == parent {
            EdgeWaits(d, parent, parent);
          }
          var q :| PathBetween(d, u, z, q);
          OldPathKept(d, cd, parent, terminals, false, u, z, q);
        }
        WaitsSnoc(g, u, z, t);
        ChildWaitsKept(d, cd, parent, terminals, false, t, v);
        if t != v {
          WaitsTransitive(g, u, t, v);
        }
      }
    } else if u in cd {
      var y := WaitsFirst(d, parent, v);
      ChildInherits(d, cd, parent, terminals, false, u, y);
      if y != v {
        var q :| PathBetween(d, y, v, q);
        OldPathKept(d, cd, parent, terminals, false, y, v, q);
        WaitsTransitive(g, u, y, v);
      }
    } else {
      var q :| PathBetween(d, u, v, q);
      OldPathKept(d, cd, parent, terminals, false, u, v, q);
    }
  }

  // ----- from the stages to the splice -----

  lemma {:induction false} TasksWithMeans(tasks: map<TaskId, Task>, added: seq<Task>)
    ensures TasksWith(tasks, added).Keys == tasks.Keys + Ids(added)
    ensures forall t :: t in tasks && t !in Ids(added) ==> TasksWith(tasks, added)[t] == tasks[t]
    ensures forall t :: t in Ids(added) ==> TasksWith(tasks, added)[t] in added && TasksWith(tasks, added)[t].id == t
  {
    if added != [] {
      var n := |added| - 1;
      TasksWithMeans(tasks, added[..n]);
      assert added == added[..n] + [added[n]];
      assert Ids(added) == Ids(added[..n]) + {added[n].id};
    }
  }

  lemma FreshKids(tasks: map<TaskId, Task>, p: Decomposition)
    requires FreshChildren(tasks, p)
    ensures Kids(TasksWith(tasks, p.children), p.parent) == Kids(tasks, p.parent) + Ids(p.children)
  {
    TasksWithMeans(tasks, p.children);
  }

  lemma ChildGraphClosed(tasks: map<TaskId, Task>, p: Decomposition)
    requires FreshChildren(tasks, p)
    ensures ChildGraph(p).Keys == Ids(p.children) && Closed(ChildGraph(p))
  {
    var cd := ChildGraph(p);
    forall a, b | Edge(cd, a, b) ensures b in cd {
      var e :| e in Elems(p.links) && e.0 == a && e.1 == b;
    }
  }

  /** With fresh children the staged rewrite is the splice of the child graph. */
  lemma DecomposedIsSplice(tasks: map<TaskId, Task>, d: Deps, p: Decomposition)
    requires FreshChildren(tasks, p) && tasks.Keys == d.Keys && Closed(d) && Acyclic(d)
    requires OldChildrenSettled(tasks, d, p.parent)
    ensures Splice(d, ChildGraph(p), p.parent, Elems(p.terminals))
    ensures Decomposed(tasks, d, p) == Spliced(d, ChildGraph(p), p.parent, Elems(p.terminals), false)
    ensures Overlaid(Grown(tasks, d, p.parent, p.children, p.links), Downstream(d, p.parent), Elems(p.terminals))
         == Spliced(d, ChildGraph(p), p.parent, Elems(p.terminals), true)
  {
    ChildGraphClosed(tasks, p);
    GrownSettled(tasks, d, p);
    var cd, terms := ChildGraph(p), Elems(p.terminals);
    RewiredPointwise(d, cd, p.parent, terms, Grown(tasks, d, p.parent, p.children, p.links));
  }

  /** The children next to the old graph, the initial ones waiting for what the parent waits for. */
  function Beside(d: Deps, cd: Deps, parent: TaskId): Deps
    requires parent in d
  {
    map x | x in d.Keys + cd.Keys :: if x in cd then (if cd[x] == {} then d[parent] else cd[x]) else d[x]
  }

  lemma GrownSettled(tasks: map<TaskId, Task>, d: Deps, p: Decomposition)
    requires FreshChildren(tasks, p) && tasks.Keys == d.Keys && OldChildrenSettled(tasks, d, p.parent)
    ensures Grown(tasks, d, p.parent, p.children, p.links) == Beside(d, ChildGraph(p), p.parent)
  {
    FreshKids(tasks, p);
    LinkedFresh(tasks, d, p);
    InheritedByKids(Linked(d, p.children, p.links), d, ChildGraph(p), Kids(tasks, p.parent), p.parent);
  }

  lemma LinkedFresh(tasks: map<TaskId, Task>, d: Deps, p: Decomposition)
    requires FreshChildren(tasks, p) && tasks.Keys == d.Keys
    ensures var linked, cd := Linked(d, p.children, p.links), ChildGraph(p);
      && cd.Keys == Ids(p.children) && d.Keys !! cd.Keys && linked.Keys == d.Keys + cd.Keys
      && forall x :: x in linked ==> linked[x] == if x in cd then cd[x] else d[x]
  {
    NewIds(tasks, p);
    LinkedAmong(d, Ids(p.children), Elems(p.links));
  }

  lemma NewIds(tasks: map<TaskId, Task>, p: Decomposition)
    requires FreshChildren(tasks, p)
    ensures tasks.Keys !! Ids(p.children) && forall e :: e in Elems(p.links) ==> e.0 in Ids(p.children)
  {
  }

  lemma LinkedAmong(d: Deps, ids: set<TaskId>, links: set<(TaskId, TaskId)>)
    requires d.Keys !! ids && forall e :: e in links ==> e.0 in ids
    ensures var linked, cd := WithEdges(WithNodes(d, ids), links), WithEdges(map c | c in ids :: {}, links);
      forall x :: x in linked ==> linked[x] == if x in cd then cd[x] else d[x]
  {
    forall x | x in d ensures Targets(links, x) == {} {
    }
  }

  lemma InheritedByKids(linked: Deps, d: Deps, cd: Deps, siblings: set<TaskId>, parent: TaskId)
    requires parent in d && linked.Keys == d.Keys + cd.Keys && d.Keys !! cd.Keys && siblings <= d.Keys
    requires forall x :: x in linked ==> linked[x] == if x in cd then cd[x] else d[x]
    requires d[parent] == {} || forall t :: t in siblings ==> d[t] != {}
    ensures Inherited(linked, siblings + cd.Keys, d[parent]) == Beside(d, cd, parent)
  {
  }

  lemma RewiredPointwise(d: Deps, cd: Deps, parent: TaskId, terminals: set<TaskId>, grown: Deps)
    requires parent in d && cd.Keys !! d.Keys
    requires grown == Beside(d, cd, parent)
    ensures Rewired(grown, Downstream(d, parent), parent, terminals) == Spliced(d, cd, parent, terminals, false)
    ensures Overlaid(grown, Downstream(d, parent), terminals) == Spliced(d, cd, parent, terminals, true)
  {
  }

  lemma GrownByFresh(tasks: map<TaskId, Task>, d: Deps, p: Decomposition, x: TaskId)
    requires FreshChildren(tasks, p) && tasks.Keys == d.Keys && x in d.Keys + Ids(p.children)
    ensures Grown(tasks, d, p.parent, p.children, p.links)[x]
         == if x in Ids(p.children) then (if ChildGraph(p)[x] == {} then d[p.parent] else ChildGraph(p)[x])
            else if x in Kids(tasks, p.parent) && d[x] == {} then d[p.parent]
            else d[x]
  {
    FreshKids(tasks, p);
    LinkedFresh(tasks, d, p);
  }

  /** Decomposing with fresh children always succeeds. */
  lemma FreshIsAdmissible(tasks: map<TaskId, Task>, d: Deps, p: Decomposition)
    requires FreshChildren(tasks, p) && tasks.Keys == d.Keys && Closed(d) && Acyclic(d)
    requires OldChildrenSettled(tasks, d, p.parent)
    ensures Admissible(tasks, d, p)
  {
    DecomposedIsSplice(tasks, d, p);
    var cd, terms := ChildGraph(p), Elems(p.terminals);
    SplicedAcyclic(d, cd, p.parent, terms, false);
    SplicedAcyclic(d, cd, p.parent, terms, true);
    var over := Overlaid(Grown(tasks, d, p.parent, p.children, p.links), Downstream(d, p.parent), terms);
    assert Subgraph(Grown(tasks, d, p.parent, p.children, p.links), over);
    SubgraphAcyclic(Grown(tasks, d, p.parent, p.children, p.links), over);
  }

  /** After decomposing with fresh children, waits are exactly those `SplicedWaits` spells out: old
      pairs wait as before except that nothing waits for the parent, children wait for what the
      parent waited for, and what waited for the parent waits for everything at or above a terminal. */
  lemma DecomposedWaits(tasks: map<TaskId, Task>, d: Deps, p: Decomposition, u: TaskId, v: TaskId)
    requires FreshChildren(tasks, p) && tasks.Keys == d.Keys && Closed(d) && Acyclic(d)
    requires OldChildrenSettled(tasks, d, p.parent)
    ensures Waits(Decomposed(tasks, d, p), u, v)
       <==> v != p.parent && SplicedWaits(d, ChildGraph(p), p.parent, Elems(p.terminals), u, v)
  {
    DecomposedIsSplice(tasks, d, p);
    SplicedWaitsExactly(d, ChildGraph(p), p.parent, Elems(p.terminals), u, v);
  }

  // ----- removing a task -----

  /** Dropping a task that nothing waits for leaves all other waits alone. */
  lemma WithoutNodeWaits(d: Deps, x: TaskId, u: TaskId, v: TaskId)
    requires Downstream(d, x) == {} && u != x
    ensures Waits(WithoutNode(d, x), u, v) <==> Waits(d, u, v)
  {
    var g := WithoutNode(d, x);
    if Waits(g, u, v) {
      SubgraphWaits(g, d, u, v);
    }
    if Waits(d, u, v) {
      var q :| PathBetween(d, u, v, q);
      assert forall a :: !Edge(d, a, x) by {
        assert forall a :: Edge(d, a, x) ==> a in Downstream(d, x);
      }
      forall i | 0 <= i < |q| - 1 ensures Edge(g, q[i], q[i + 1]) {
        assert i > 0 ==> Edge(d, q[i - 1], q[i]);
        assert Edge(d, q[i], q[i + 1]);
      }
      assert PathBetween(g, u, v, q);
    }
  }

  /** After decomposing a task into fresh children nothing waits for it any more, so it can be removed. */
  lemma NothingWaitsForReplaced(tasks: map<TaskId, Task>, d: Deps, p: Decomposition)
    requires FreshChildren(tasks, p) && tasks.Keys == d.Keys && Closed(d) && Acyclic(d)
    requires OldChildrenSettled(tasks, d, p.parent)
    ensures Downstream(Decomposed(tasks, d, p), p.parent) == {}
  {
    var g := Decomposed(tasks, d, p);
    forall x | x in Downstream(g, p.parent) ensures false {
      assert Edge(g, x, p.parent);
      EdgeWaits(g, x, p.parent);
      DecomposedWaits(tasks, d, p, x, p.parent);
    }
  }

  /** Replacing a task by fresh children keeps every wait between the tasks that survive, and adds
      none between them. */
  lemma ReplacedWaits(tasks: map<TaskId, Task>, d: Deps, p: Decomposition, u: TaskId, v: TaskId)
    requires FreshChildren(tasks, p) && tasks.Keys == d.Keys && Closed(d) && Acyclic(d)
    requires OldChildrenSettled(tasks, d, p.parent)
    requires u in d && v in d && u != p.parent && v != p.parent
    ensures Downstream(Decomposed(tasks, d, p), p.parent) == {}
    ensures Waits(WithoutNode(Decomposed(tasks, d, p), p.parent), u, v) <==> Waits(d, u, v)
  {
    NothingWaitsForReplaced(tasks, d, p);
    DecomposedIsSplice(tasks, d, p);
    DecomposedWaits(tasks, d, p, u, v);
    WithoutNodeWaits(Decomposed(tasks, d, p), p.parent, u, v);
  }

  // ----- inserting a task between two others -----

  /** `down` waits for `mid`, which waits for `up`, in place of any direct edge. */
  function Between(d: Deps, mid: TaskId, up: TaskId, down: TaskId): Deps {
    WithEdge(WithEdge(WithoutEdge(WithNode(d, mid), down, up), mid, up), down, mid)
  }

  lemma BetweenEdge(d: Deps, mid: TaskId, up: TaskId, down: TaskId, a: TaskId, b: TaskId)
    requires Closed(d) && mid !in d && up in d && down in d
    ensures Edge(Between(d, mid, up, down), a, b)
       <==> (a == mid && b == up) || (a == down && b == mid) || (Edge(d, a, b) && !(a == down && b == up))
    ensures Edge(d, a, b) ==> a != mid && b != mid
  {
  }

  lemma {:induction false} BetweenPath(d: Deps, mid: TaskId, up: TaskId, down: TaskId, u: TaskId, v: TaskId, q: seq<TaskId>)
    requires Closed(d) && mid !in d && up in d && down in d
    requires PathBetween(Between(d, mid, up, down), u, v, q) && v != mid
    ensures if u == mid then WaitsOrSame(WithEdge(d, down, up), up, v) else Waits(WithEdge(d, down, up), u, v)
    decreases |q|
  {
    var g, e := Between(d, mid, up, down), WithEdge(d, down, up);
    PathTail(g, u, v, q);
    var w := q[1];
    BetweenEdge(d, mid, up, down, u, w);
    if |q| > 2 {
      BetweenPath(d, mid, up, down, w, v, q[1..]);
    }
    if u == mid {
    } else if w == mid {
      WaitsCons(e, down, up, v);
    } else {
      assert Edge(e, u, w);
      WaitsCons(e, u, w, v);
    }
  }

  /** Inserting a fresh task keeps every wait; the only waits it can add between old tasks are those
      that go through the new "down waits for up". */
  lemma BetweenWaits(d: Deps, mid: TaskId, up: TaskId, down: TaskId, u: TaskId, v: TaskId)
    requires Closed(d) && mid !in d && up in d && down in d && u != mid && v != mid
    ensures Waits(Between(d, mid, up, down), u, v)
       <==> Waits(d, u, v) || (WaitsOrSame(d, u, down) && WaitsOrSame(d, up, v))
  {
    var g, e := Between(d, mid, up, down), WithEdge(d, down, up);
    WithEdgeWaits(d, down, up, u, v);
    if Waits(g, u, v) {
      var q :| PathBetween(g, u, v, q);
      BetweenPath(d, mid, up, down, u, v, q);
    }
    if Waits(e, u, v) {
      forall a, b | Edge(e, a, b) ensures Waits(g, a, b) {
        BetweenEdge(d, mid, up, down, a, b);
        if a == down && b == up {
          assert Edge(g, mid, up);
          EdgeWaits(g, mid, up);
          WaitsCons(g, down, mid, up);
        } else {
          EdgeWaits(g, a, b);
        }
      }
      WaitsSimulate(e, g, u, v);
    }
  }

  /** Inserting a fresh task closes a cycle exactly when `up` already waits for `down`. */
  lemma BetweenAcyclic(d: Deps, mid: TaskId, up: TaskId, down: TaskId)
    requires Closed(d) && Acyclic(d) && mid !in d && up in d && down in d
    ensures Acyclic(Between(d, mid, up, down)) <==> !WaitsOrSame(d, up, down)
  {
    var g, e := Between(d, mid, up, down), WithEdge(d, down, up);
    WithEdgeAcyclic(d, down, up);
    if Acyclic(e) {
      forall c | Waits(g, c, c) ensures false {
        if c == mid {
          forall x ensures Edge(g, mid, x) <==> x == up {
            BetweenEdge(d, mid, up, down, mid, x);
          }
          CycleThrough(g, mid, up);
          BetweenWaits(d, mid, up, down, up, up);
          WithEdgeWaits(d, down, up, up, up);
        } else {
          BetweenWaits(d, mid, up, down, c, c);
          WithEdgeWaits(d, down, up, c, c);
        }
      }
    } else {
      var c :| Waits(e, c, c);
      var w := WaitsFirst(e, c, c);
      BetweenWaits(d, mid, up, down, c, c);
      WithEdgeWaits(d, down, up, c, c);
      assert Waits(g, c, c);
    }
  }

  /** A cycle at `mid` passes through its only prerequisite. */
  lemma CycleThrough(g: Deps, mid: TaskId, up: TaskId)
    requires Waits(g, mid, mid) && Edge(g, mid, up) && (forall x :: Edge(g, mid, x) ==> x == up)
    ensures Waits(g, up, up)
  {
    var w := WaitsFirst(g, mid, mid);
    WaitsSnoc(g, up, mid, up);
  }
}
