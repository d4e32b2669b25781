/** From a proposal to the running graph: what validation promises survives the mapping of ids, the
    stored decomposition, and the reload. */
module Pipeline {
  import opened Results
  import opened Core
  import opened Digraph
  import opened Chains
  import opened Sorting
  import opened Rewrites
  import opened TaskGraphs
  import opened TaskStores
  import opened StoreAgreement
  import opened Validator
  import opened Applier
  import opened Rounds
  import Kahn

  function Links(p: PlanProposal, ids: seq<TaskId>): seq<(TaskId, TaskId)>
    requires |ids| == |p.tasks|
  {
    MapDependencies(p.dependencies, IdMap(p.tasks, ids))
  }

  /** The graph over the new tasks. */
  function NewGraph(p: PlanProposal, ids: seq<TaskId>): Deps
    requires |ids| == |p.tasks|
  {
    WithEdges(map id | id in Elems(ids) :: {}, Elems(Links(p, ids)))
  }

  function ProposedGraph(p: PlanProposal): map<string, set<string>> {
    DependencyGraph(TrimmedIds(p.tasks), p.dependencies)
  }

  /** The dependency writes its ends exactly as some tasks write their ids. */
  predicate Written(p: PlanProposal, dep: ProposedDependency) {
    (exists t :: t in p.tasks && t.tempId == dep.task) && (exists t :: t in p.tasks && t.tempId == dep.dependsOn)
  }

  predicate Verbatim(p: PlanProposal) {
    forall dep :: dep in p.dependencies ==> Written(p, dep)
  }

  /** The proposal without the dependencies that the mapping drops. */
  function KeptGraph(p: PlanProposal): map<string, set<string>> {
    map id | id in TrimmedIds(p.tasks) :: KeptPrerequisites(p, id)
  }

  function KeptPrerequisites(p: PlanProposal, id: string): set<string> {
    set dep | dep in p.dependencies && Written(p, dep) && Trim(dep.task) == id :: Trim(dep.dependsOn)
  }

  /** The trimmed temporary id each new task came from. */
  function Names(p: PlanProposal, ids: seq<TaskId>): map<TaskId, string>
    requires |ids| == |p.tasks|
  {
    map id | id in ids :: Trim(p.tasks[IndexOf(ids, id)].tempId)
  }

  function IndexOf(ids: seq<TaskId>, id: TaskId): (i: nat)
    requires id in ids
    ensures i < |ids| && ids[i] == id
  {
    if ids[0] == id then 0 else 1 + IndexOf(ids[1..], id)
  }

  lemma NameAt(p: PlanProposal, ids: seq<TaskId>, i: nat)
    requires |ids| == |p.tasks| && Distinct(ids) && i < |ids|
    ensures ids[i] in Names(p, ids) && Names(p, ids)[ids[i]] == Trim(p.tasks[i].tempId)
  {
    var j := IndexOf(ids, ids[i]);
    assert j == i;
  }

  /** A stored pair always comes from a dependency of the proposal. */
  lemma LinkIsDependency(p: PlanProposal, ids: seq<TaskId>, a: TaskId, b: TaskId)
    requires |ids| == |p.tasks| && Distinct(ids) && TasksWellFormed(p.tasks)
    requires forall dep :: dep in p.dependencies ==> DependencyWellFormed(TrimmedIds(p.tasks), dep)
    requires Edge(NewGraph(p, ids), a, b)
    ensures a in Names(p, ids) && b in Names(p, ids)
    ensures Edge(ProposedGraph(p), Names(p, ids)[a], Names(p, ids)[b])
    ensures Edge(KeptGraph(p), Names(p, ids)[a], Names(p, ids)[b])
  {
    var e :| e in Elems(Links(p, ids)) && e.0 == a && e.1 == b;
    var dep, i, j := LinkOrigin(p, ids, e);
    NameAt(p, ids, i);
    NameAt(p, ids, j);
    assert DependencyWellFormed(TrimmedIds(p.tasks), dep);
    assert Trim(dep.dependsOn) in Prerequisites(TrimmedIds(p.tasks), p.dependencies, Trim(dep.task));
    assert p.tasks[i] in p.tasks && p.tasks[j] in p.tasks && Written(p, dep);
    assert Trim(dep.dependsOn) in KeptPrerequisites(p, Trim(dep.task));
  }

  lemma LinkOrigin(p: PlanProposal, ids: seq<TaskId>, e: (TaskId, TaskId))
    returns (dep: ProposedDependency, i: nat, j: nat)
    requires |ids| == |p.tasks| && e in Links(p, ids)
    ensures dep in p.dependencies && i < |ids| && j < |ids| && e == (ids[i], ids[j])
    ensures p.tasks[i].tempId == dep.task && p.tasks[j].tempId == dep.dependsOn
  {
    var idMap := IdMap(p.tasks, ids);
    IdMapMeans(p.tasks, ids);
    MappedExactly(p.dependencies, idMap);
    dep :| dep in p.dependencies && dep.task in idMap && dep.dependsOn in idMap && e == (idMap[dep.task], idMap[dep.dependsOn]);
    i :| 0 <= i < |p.tasks| && p.tasks[i].tempId == dep.task && idMap[dep.task] == ids[i];
    j :| 0 <= j < |p.tasks| && p.tasks[j].tempId == dep.dependsOn && idMap[dep.dependsOn] == ids[j];
  }

  ghost predicate Accepted(p: PlanProposal, ids: seq<TaskId>) {
    |ids| == |p.tasks| && Distinct(ids) && WellFormed(p, DEFAULT_BUDGETS, 0)
  }

  lemma NewGraphAcyclic(p: PlanProposal, ids: seq<TaskId>)
    requires Accepted(p, ids)
    ensures Acyclic(NewGraph(p, ids))
  {
    var d, e, f := NewGraph(p, ids), ProposedGraph(p), Names(p, ids);
    forall u, v | Edge(d, u, v) ensures u in f && v in f && Edge(e, f[u], f[v]) {
      LinkIsDependency(p, ids, u, v);
    }
    forall a | Waits(d, a, a) ensures false {
      WaitsMap(d, e, f, a, a);
    }
  }

  lemma ChildrenOfPlan(ctx: PlanningContext, parent: TaskId, p: PlanProposal, ids: seq<TaskId>)
    requires |ids| == |p.tasks|
    ensures Ids(NewTasks(ctx, p.tasks, ids)) == Elems(ids)
    ensures ChildGraph(PlanFor(ctx, parent, p, ids)) == NewGraph(p, ids)
    ensures Elems(PlanFor(ctx, parent, p, ids).terminals) == Elems(ids) - set e | e in Links(p, ids) :: e.1
  {
    var tasks := NewTasks(ctx, p.tasks, ids);
    forall i | 0 <= i < |ids| ensures tasks[i].id in Ids(tasks) && tasks[i].id == ids[i] {
      assert tasks[i] in tasks;
    }
    var prerequisites := set e | e in Links(p, ids) :: e.1;
    FilterMembers((id: TaskId) => id !in prerequisites, ids);
  }

  /** Every new task is a terminal or is waited for by one. */
  lemma TerminalsCover(p: PlanProposal, ids: seq<TaskId>, c: TaskId) returns (t: TaskId)
    requires Accepted(p, ids) && c in ids
    ensures t in ids && (forall e :: e in Links(p, ids) ==> e.1 != t) && WaitsOrSame(NewGraph(p, ids), t, c)
  {
    var d := NewGraph(p, ids);
    NewGraphAcyclic(p, ids);
    MappedLinks(p, ids);
    var above := set x | x in Elems(ids) && WaitsOrSame(d, x, c);
    assert c in above;
    t := MaximalMember(d, above);
    forall e | e in Links(p, ids) ensures e.1 != t {
      if e.1 == t {
        assert e in Elems(Links(p, ids)) && t in Targets(Elems(Links(p, ids)), e.0);
        assert Edge(d, e.0, t);
        EdgeWaits(d, e.0, t);
        WaitsCons(d, e.0, t, c);
      }
    }
  }

  /** A validated proposal is always a fit decomposition: fresh children, acyclic links, and terminal
      children that are not empty. */
  lemma PlanIsFresh(mine: map<TaskId, Task>, ctx: PlanningContext, parent: TaskId, p: PlanProposal, ids: seq<TaskId>)
    requires Accepted(p, ids) && FreshIds(mine, ids) && parent in mine && ctx.parent == Some(parent)
    ensures FreshChildren(mine, PlanFor(ctx, parent, p, ids))
  {
    var plan := PlanFor(ctx, parent, p, ids);
    ChildrenOfPlan(ctx, parent, p, ids);
    NewGraphAcyclic(p, ids);
    MappedLinks(p, ids);
    var t := TerminalsCover(p, ids, ids[0]);
    assert t in Elems(plan.terminals);
    forall c | c in plan.children ensures c.parent == Some(parent) && c.id !in mine {
      var i :| 0 <= i < |plan.children| && plan.children[i] == c;
      assert c.id == ids[i] && ids[i] in ids;
    }
  }

  /** The store before a plan is applied to `parent`. */
  ghost predicate ReadyToApply(tasks: map<TaskId, Task>, rows: Rows, ctx: PlanningContext, parent: TaskId,
                               p: PlanProposal, ids: seq<TaskId>) {
    && (forall t :: t in tasks ==> tasks[t].id == t) && RowsStayInside(tasks, rows)
    && Acyclic(GraphOf(WorkflowTasks(tasks, ctx.workflow), rows))
    && parent in WorkflowTasks(tasks, ctx.workflow) && ctx.parent == Some(parent)
    && Accepted(p, ids) && FreshIds(tasks, ids)
  }

  lemma PlanFits(tasks: map<TaskId, Task>, rows: Rows, ctx: PlanningContext, parent: TaskId, p: PlanProposal, ids: seq<TaskId>)
    requires ReadyToApply(tasks, rows, ctx, parent, p, ids)
    ensures FreshChildren(WorkflowTasks(tasks, ctx.workflow), PlanFor(ctx, parent, p, ids))
    ensures NewChildren(tasks, ctx.workflow, PlanFor(ctx, parent, p, ids).children)
  {
    PlanIsFresh(WorkflowTasks(tasks, ctx.workflow), ctx, parent, p, ids);
    var children := NewTasks(ctx, p.tasks, ids);
    forall c | c in children ensures c.id !in tasks && c.workflow == ctx.workflow {
      var i :| 0 <= i < |children| && children[i] == c;
      assert c.id == ids[i] && ids[i] in ids;
    }
  }

  /** The workflow's graph after the plan has been stored and loaded again. */
  function Reloaded(tasks: map<TaskId, Task>, rows: Rows, wf: WorkflowId, plan: Decomposition): Deps {
    GraphOf(WorkflowTasks(StoredTasks(tasks, plan), wf), StoredRows(rows, plan))
  }

  /** Applying a validated plan never fails, and the graph it leaves can be loaded. */
  lemma PlanCommits(tasks: map<TaskId, Task>, rows: Rows, ctx: PlanningContext, parent: TaskId, p: PlanProposal, ids: seq<TaskId>)
    requires ReadyToApply(tasks, rows, ctx, parent, p, ids)
    ensures Commits(tasks, rows, PlanFor(ctx, parent, p, ids))
    ensures Acyclic(Reloaded(tasks, rows, ctx.workflow, PlanFor(ctx, parent, p, ids)))
  {
    var plan := PlanFor(ctx, parent, p, ids);
    PlanFits(tasks, rows, ctx, parent, p, ids);
    FreshCommits(tasks, rows, ctx.workflow, plan);
    ReloadedIsSplice(tasks, rows, ctx, parent, p, ids);
    SplicedAcyclic(GraphOf(WorkflowTasks(tasks, ctx.workflow), rows), NewGraph(p, ids), parent, Elems(plan.terminals), false);
  }

  /** The waits of the reloaded graph, in terms of the old graph and the new tasks' own graph. */
  lemma ReloadedWaits(tasks: map<TaskId, Task>, rows: Rows, ctx: PlanningContext, parent: TaskId, p: PlanProposal,
                      ids: seq<TaskId>, u: TaskId, v: TaskId)
    requires ReadyToApply(tasks, rows, ctx, parent, p, ids)
    ensures var plan := PlanFor(ctx, parent, p, ids);
      Waits(Reloaded(tasks, rows, ctx.workflow, plan), u, v) <==>
        v != parent && SplicedWaits(GraphOf(WorkflowTasks(tasks, ctx.workflow), rows), NewGraph(p, ids), parent, Elems(plan.terminals), u, v)
  {
    var plan := PlanFor(ctx, parent, p, ids);
    ReloadedIsSplice(tasks, rows, ctx, parent, p, ids);
    SplicedWaitsExactly(GraphOf(WorkflowTasks(tasks, ctx.workflow), rows), NewGraph(p, ids), parent, Elems(plan.terminals), u, v);
  }

  lemma ReloadedIsSplice(tasks: map<TaskId, Task>, rows: Rows, ctx: PlanningContext, parent: TaskId,
                         p: PlanProposal, ids: seq<TaskId>)
    requires ReadyToApply(tasks, rows, ctx, parent, p, ids)
    ensures var plan, d := PlanFor(ctx, parent, p, ids), GraphOf(WorkflowTasks(tasks, ctx.workflow), rows);
      && Splice(d, NewGraph(p, ids), parent, Elems(plan.terminals))
      && Reloaded(tasks, rows, ctx.workflow, plan) == Spliced(d, NewGraph(p, ids), parent, Elems(plan.terminals), false)
  {
    var plan := PlanFor(ctx, parent, p, ids);
    PlanFits(tasks, rows, ctx, parent, p, ids);
    StoredIsSplice(tasks, rows, ctx.workflow, plan);
    GraphClosed(tasks, rows, ctx.workflow);
    ChildrenOfPlan(ctx, parent, p, ids);
    ChildGraphClosed(WorkflowTasks(tasks, ctx.workflow), plan);
  }

  /** The pipeline theorem. After a validated plan has replaced `parent`, whatever waited for the
      parent waits for every new task and still for everything the parent waited for; every new task
      waits for everything the parent waited for; all other waits are untouched; and nothing waits
      for the discarded parent. */
  lemma PlanTakesParentsPlace(tasks: map<TaskId, Task>, rows: Rows, ctx: PlanningContext, parent: TaskId,
                              p: PlanProposal, ids: seq<TaskId>, x: TaskId, c: TaskId, y: TaskId)
    requires ReadyToApply(tasks, rows, ctx, parent, p, ids)
    requires x in WorkflowTasks(tasks, ctx.workflow) && c in ids && y in WorkflowTasks(tasks, ctx.workflow)
    ensures var d, g := GraphOf(WorkflowTasks(tasks, ctx.workflow), rows),
                        Reloaded(tasks, rows, ctx.workflow, PlanFor(ctx, parent, p, ids));
      && (Waits(g, x, c) <==> Waits(d, x, parent))
      && (y != parent ==> (Waits(g, c, y) <==> Waits(d, parent, y)))
      && (y != parent ==> (Waits(g, x, y) <==> Waits(d, x, y)))
      && !Waits(g, x, parent) && !Waits(g, c, parent)
  {
    var d, terms := GraphOf(WorkflowTasks(tasks, ctx.workflow), rows), Elems(PlanFor(ctx, parent, p, ids).terminals);
    ChildrenOfPlan(ctx, parent, p, ids);
    var t := TerminalsCover(p, ids, c);
    assert t in terms;
    ReloadedWaits(tasks, rows, ctx, parent, p, ids, x, c);
    ReloadedWaits(tasks, rows, ctx, parent, p, ids, c, y);
    ReloadedWaits(tasks, rows, ctx, parent, p, ids, x, y);
    ReloadedWaits(tasks, rows, ctx, parent, p, ids, x, parent);
    ReloadedWaits(tasks, rows, ctx, parent, p, ids, c, parent);
    assert x !in Elems(ids) && y !in Elems(ids) && c in NewGraph(p, ids);
  }

  // ----- ids that are not trimmed -----

  lemma {:induction false} MappedCount(deps: seq<ProposedDependency>, idMap: map<string, TaskId>)
    ensures |MapDependencies(deps, idMap)| <= |deps|
    ensures |MapDependencies(deps, idMap)| == |deps| <==> forall dep :: dep in deps ==> dep.task in idMap && dep.dependsOn in idMap
  {
    if deps != [] {
      var n := |deps| - 1;
      MappedCount(deps[..n], idMap);
      assert deps == deps[..n] + [deps[n]];
      assert forall dep :: dep in deps <==> dep in deps[..n] || dep == deps[n];
    }
  }

  /** Applying keeps all dependencies exactly when they are written verbatim: validation trims ids,
      the mapping does not. */
  lemma NoneDroppedIffVerbatim(p: PlanProposal, ids: seq<TaskId>)
    requires |ids| == |p.tasks|
    ensures |Links(p, ids)| == |p.dependencies| <==> Verbatim(p)
  {
    var idMap := IdMap(p.tasks, ids);
    IdMapMeans(p.tasks, ids);
    MappedCount(p.dependencies, idMap);
    forall s ensures s in idMap <==> exists t :: t in p.tasks && t.tempId == s {
      if s in idMap {
        var i :| 0 <= i < |p.tasks| && p.tasks[i].tempId == s && idMap[s] == ids[i];
        assert p.tasks[i] in p.tasks;
      }
      if t :| t in p.tasks && t.tempId == s {
        var i :| 0 <= i < |p.tasks| && p.tasks[i] == t;
        assert p.tasks[i].tempId in idMap;
      }
    }
  }

  /** New tasks wait for each other exactly as the dependencies that are not dropped say. */
  lemma MappingKeepsWaits(p: PlanProposal, ids: seq<TaskId>, i: nat, j: nat)
    requires Accepted(p, ids) && i < |ids| && j < |ids|
    ensures Waits(NewGraph(p, ids), ids[i], ids[j])
       <==> Waits(KeptGraph(p), Trim(p.tasks[i].tempId), Trim(p.tasks[j].tempId))
  {
    var d, e, names := NewGraph(p, ids), KeptGraph(p), Names(p, ids);
    NameAt(p, ids, i);
    NameAt(p, ids, j);
    if Waits(d, ids[i], ids[j]) {
      forall u, v | Edge(d, u, v) ensures u in names && v in names && Edge(e, names[u], names[v]) {
        LinkIsDependency(p, ids, u, v);
      }
      WaitsMap(d, e, names, ids[i], ids[j]);
    }
    var back := Numbers(p, ids);
    if Waits(e, Trim(p.tasks[i].tempId), Trim(p.tasks[j].tempId)) {
      forall u, v | Edge(e, u, v) ensures u in back && v in back && Edge(d, back[u], back[v]) {
        DependencyIsLink(p, ids, u, v);
      }
      NumberAt(p, ids, i);
      NumberAt(p, ids, j);
      WaitsMap(e, d, back, Trim(p.tasks[i].tempId), Trim(p.tasks[j].tempId));
    }
  }

  /** Every dropped dependency follows from the others. */
  ghost predicate DropsAreImplied(p: PlanProposal) {
    forall dep :: dep in p.dependencies && !Written(p, dep) ==> Waits(KeptGraph(p), Trim(dep.task), Trim(dep.dependsOn))
  }

  ghost predicate MeaningKept(p: PlanProposal, ids: seq<TaskId>)
    requires |ids| == |p.tasks|
  {
    var d, e := NewGraph(p, ids), ProposedGraph(p);
    forall i, j :: 0 <= i < |ids| && 0 <= j < |ids| ==>
      (Waits(d, ids[i], ids[j]) <==> Waits(e, Trim(p.tasks[i].tempId), Trim(p.tasks[j].tempId)))
  }

  /** The new tasks wait for each other as proposed exactly when no dropped dependency says anything that
      the others do not. */
  lemma MeaningKeptIffImplied(p: PlanProposal, ids: seq<TaskId>)
    requires Accepted(p, ids)
    ensures MeaningKept(p, ids) <==> DropsAreImplied(p)
  {
    if DropsAreImplied(p) {
      forall i: nat, j: nat | i < |ids| && j < |ids|
        ensures Waits(NewGraph(p, ids), ids[i], ids[j])
           <==> Waits(ProposedGraph(p), Trim(p.tasks[i].tempId), Trim(p.tasks[j].tempId))
      {
        MappingKeepsWaits(p, ids, i, j);
        KeptWaits(p, Trim(p.tasks[i].tempId), Trim(p.tasks[j].tempId));
      }
    }
    if dep :| dep in p.dependencies && !Written(p, dep) && !Waits(KeptGraph(p), Trim(dep.task), Trim(dep.dependsOn)) {
      var i, j := EndsOf(p, dep);
      MappingKeepsWaits(p, ids, i, j);
      DependencyWaits(p, dep);
    }
  }

  lemma EndsOf(p: PlanProposal, dep: ProposedDependency) returns (i: nat, j: nat)
    requires DependencyWellFormed(TrimmedIds(p.tasks), dep)
    ensures i < |p.tasks| && j < |p.tasks|
    ensures Trim(p.tasks[i].tempId) == Trim(dep.task) && Trim(p.tasks[j].tempId) == Trim(dep.dependsOn)
  {
    var t :| t in p.tasks && Trim(t.tempId) == Trim(dep.task);
    var w :| w in p.tasks && Trim(w.tempId) == Trim(dep.dependsOn);
    i :| 0 <= i < |p.tasks| && p.tasks[i] == t;
    j :| 0 <= j < |p.tasks| && p.tasks[j] == w;
  }

  lemma DependencyWaits(p: PlanProposal, dep: ProposedDependency)
    requires dep in p.dependencies && DependencyWellFormed(TrimmedIds(p.tasks), dep)
    ensures Waits(ProposedGraph(p), Trim(dep.task), Trim(dep.dependsOn))
  {
    assert Trim(dep.dependsOn) in Prerequisites(TrimmedIds(p.tasks), p.dependencies, Trim(dep.task));
    EdgeWaits(ProposedGraph(p), Trim(dep.task), Trim(dep.dependsOn));
  }

  lemma KeptWaits(p: PlanProposal, u: string, v: string)
    requires AllWellFormed(TrimmedIds(p.tasks), p.dependencies) && DropsAreImplied(p)
    ensures Waits(KeptGraph(p), u, v) <==> Waits(ProposedGraph(p), u, v)
  {
    var kept, all := KeptGraph(p), ProposedGraph(p);
    forall a, b | Edge(kept, a, b) ensures Edge(all, a, b) {
      var dep :| dep in p.dependencies && Written(p, dep) && Trim(dep.task) == a && Trim(dep.dependsOn) == b;
      assert DependencyWellFormed(TrimmedIds(p.tasks), dep);
    }
    if Waits(kept, u, v) {
      SubgraphWaits(kept, all, u, v);
    }
    if Waits(all, u, v) {
      forall a, b | Edge(all, a, b) ensures Waits(kept, a, b) {
        var dep :| dep in p.dependencies && Trim(dep.task) == a && Trim(dep.dependsOn) == b;
        if Written(p, dep) {
          assert b in KeptPrerequisites(p, a);
          EdgeWaits(kept, a, b);
        }
      }
      WaitsSimulate(all, kept, u, v);
    }
  }

  /** The task that carries each trimmed id. */
  function Numbers(p: PlanProposal, ids: seq<TaskId>): map<string, TaskId>
    requires |ids| == |p.tasks|
  {
    NumbersOf(p.tasks, ids)
  }

  function NumbersOf(tasks: seq<ProposedTask>, ids: seq<TaskId>): map<string, TaskId>
    requires |ids| == |tasks|
  {
    if tasks == [] then map[]
    else var n := |tasks| - 1; NumbersOf(tasks[..n], ids[..n])[Trim(tasks[n].tempId) := ids[n]]
  }

  lemma {:induction false} NumbersMean(tasks: seq<ProposedTask>, ids: seq<TaskId>, i: nat)
    requires |ids| == |tasks| && TasksWellFormed(tasks) && i < |tasks|
    ensures Trim(tasks[i].tempId) in NumbersOf(tasks, ids) && NumbersOf(tasks, ids)[Trim(tasks[i].tempId)] == ids[i]
    decreases |tasks|
  {
    var n := |tasks| - 1;
    if i < n {
      LastTask(tasks);
      NumbersMean(tasks[..n], ids[..n], i);
      assert tasks[..n][i] == tasks[i];
    }
  }

  lemma NumberAt(p: PlanProposal, ids: seq<TaskId>, i: nat)
    requires Accepted(p, ids) && i < |ids|
    ensures Trim(p.tasks[i].tempId) in Numbers(p, ids) && Numbers(p, ids)[Trim(p.tasks[i].tempId)] == ids[i]
  {
    NumbersMean(p.tasks, ids, i);
  }

  lemma DependencyIsLink(p: PlanProposal, ids: seq<TaskId>, u: string, v: string)
    requires Accepted(p, ids) && Edge(KeptGraph(p), u, v)
    ensures u in Numbers(p, ids) && v in Numbers(p, ids)
    ensures Edge(NewGraph(p, ids), Numbers(p, ids)[u], Numbers(p, ids)[v])
  {
    var dep, i, j := EdgeOrigin(p, u, v);
    NumberAt(p, ids, i);
    NumberAt(p, ids, j);
    LinkStored(p, ids, dep, i, j);
  }

  lemma EdgeOrigin(p: PlanProposal, u: string, v: string) returns (dep: ProposedDependency, i: nat, j: nat)
    requires Edge(KeptGraph(p), u, v)
    ensures dep in p.dependencies && i < |p.tasks| && j < |p.tasks|
    ensures p.tasks[i].tempId == dep.task && p.tasks[j].tempId == dep.dependsOn
    ensures Trim(dep.task) == u && Trim(dep.dependsOn) == v
  {
    dep :| dep in p.dependencies && Written(p, dep) && Trim(dep.task) == u && Trim(dep.dependsOn) == v;
    var t :| t in p.tasks && t.tempId == dep.task;
    var w :| w in p.tasks && w.tempId == dep.dependsOn;
    i :| 0 <= i < |p.tasks| && p.tasks[i] == t;
    j :| 0 <= j < |p.tasks| && p.tasks[j] == w;
  }

  lemma LinkStored(p: PlanProposal, ids: seq<TaskId>, dep: ProposedDependency, i: nat, j: nat)
    requires |ids| == |p.tasks| && TasksWellFormed(p.tasks) && i < |ids| && j < |ids| && dep in p.dependencies
    requires p.tasks[i].tempId == dep.task && p.tasks[j].tempId == dep.dependsOn
    ensures Edge(NewGraph(p, ids), ids[i], ids[j])
  {
    var idMap := IdMap(p.tasks, ids);
    IdMapMeans(p.tasks, ids);
    MappedExactly(p.dependencies, idMap);
    assert (ids[i], ids[j]) in Elems(Links(p, ids));
    TargetsMeans(Elems(Links(p, ids)), ids[i], ids[j]);
  }

  /** A validated proposal that loses its only dependency: the waiting end is written with a space. */
  lemma UntrimmedDependencyIsLost(ids: seq<TaskId>)
    requires |ids| == 2 && Distinct(ids)
    ensures WellFormed(Untrimmed(), DEFAULT_BUDGETS, 0)
    ensures Waits(ProposedGraph(Untrimmed()), "b", "a")
    ensures Links(Untrimmed(), ids) == []
  {
    UntrimmedIsWellFormed();
    UntrimmedWaits();
    NothingMapped(ids);
  }

  lemma UntrimmedIsWellFormed()
    ensures WellFormed(Untrimmed(), DEFAULT_BUDGETS, 0)
  {
    var p := Untrimmed();
    UntrimmedTasks();
    UntrimmedGraph();
    TwoLevels(ProposedGraph(p));
    forall dep | dep in p.dependencies ensures DependencyWellFormed(TrimmedIds(p.tasks), dep) {
      assert dep == p.dependencies[0];
    }
  }

  lemma UntrimmedWaits()
    ensures Waits(ProposedGraph(Untrimmed()), "b", "a")
  {
    UntrimmedGraph();
    EdgeWaits(ProposedGraph(Untrimmed()), "b", "a");
  }

  lemma NothingMapped(ids: seq<TaskId>)
    requires |ids| == 2 && Distinct(ids)
    ensures Links(Untrimmed(), ids) == []
  {
    var p := Untrimmed();
    MappedCount(p.dependencies, IdMap(p.tasks, ids));
    IdMapMeans(p.tasks, ids);
    assert p.dependencies[0] in p.dependencies && "b " !in IdMap(p.tasks, ids);
  }

  lemma UntrimmedTasks()
    ensures TrimmedIds(Untrimmed().tasks) == {"a", "b"} && TasksWellFormed(Untrimmed().tasks)
  {
    var tasks := Untrimmed().tasks;
    assert Trim("a") == "a" && Trim("b") == "b" && Trim("x") == "x";
    assert tasks[0] in tasks && tasks[1] in tasks;
  }

  lemma UntrimmedGraph()
    ensures var d := ProposedGraph(Untrimmed()); d.Keys == {"a", "b"} && d["a"] == {} && d["b"] == {"a"}
    ensures DependencyWellFormed({"a", "b"}, Untrimmed().dependencies[0])
  {
    UntrimmedTasks();
    var deps := Untrimmed().dependencies;
    assert Trim("b ") == "b" && Trim("a") == "a" by {
      assert "b "[..1] == "b";
    }
    assert deps[0] in deps && DependencyWellFormed({"a", "b"}, deps[0]) && Trim(deps[0].task) == "b";
    assert Prerequisites({"a", "b"}, deps, "b") == {"a"};
    assert Prerequisites({"a", "b"}, deps, "a") == {};
  }

  function Untrimmed(): PlanProposal {
    PlanProposal([ProposedTask("a", "x", ["x"], 0, []), ProposedTask("b", "x", ["x"], 0, [])],
                 [ProposedDependency("b ", "a")])
  }

  lemma TwoLevels(d: map<string, set<string>>)
    requires d.Keys == {"a", "b"} && d["a"] == {} && d["b"] == {"a"}
    ensures ShapeWithinBudget(d, 15)
  {
    assert Closed(d);
    DepthAtMostStep(d, "a", 0);
    DepthAtMostStep(d, "b", 1);
    forall c | Waits(d, c, c) ensures false {
      var w := WaitsFirst(d, c, c);
      assert w == "a";
      if w == c {
        var z := WaitsFirst(d, "a", "a");
      } else {
        var z := WaitsFirst(d, "a", c);
      }
    }
    assert forall id :: id in d ==> DepthAtMost(d, id, 2);
  }

  // ----- the limit on the size of a workflow -----

  /** The tasks after a plan has been applied, below a parent or at the root. */
  function AfterApply(tasks: map<TaskId, Task>, ctx: PlanningContext, p: PlanProposal, ids: seq<TaskId>): map<TaskId, Task>
    requires |ids| == |p.tasks|
  {
    if ctx.parent.Some? then StoredTasks(tasks, PlanFor(ctx, ctx.parent.value, p, ids))
    else TasksWith(tasks, RootTasks(NewTasks(ctx, p.tasks, ids), LinkedChildren(Links(p, ids))))
  }

  /** A plan is applied after a validation that takes the workflow to be empty. Its size stays within the
      limit exactly when the plan also passes with the true number of tasks. */
  lemma LimitKeptIffChecked(tasks: map<TaskId, Task>, ctx: PlanningContext, p: PlanProposal, ids: seq<TaskId>)
    requires Accepted(p, ids) && FreshIds(tasks, ids)
    ensures var before, after := WorkflowTasks(tasks, ctx.workflow), WorkflowTasks(AfterApply(tasks, ctx, p, ids), ctx.workflow);
      && |after| == |before| + |p.tasks|
      && (|after| <= 200 <==> WellFormed(p, DEFAULT_BUDGETS, |before|))
  {
    PlanAddsItsTasks(tasks, ctx, p, ids);
  }

  lemma PlanAddsItsTasks(tasks: map<TaskId, Task>, ctx: PlanningContext, p: PlanProposal, ids: seq<TaskId>)
    requires |ids| == |p.tasks| && FreshIds(tasks, ids)
    ensures |WorkflowTasks(AfterApply(tasks, ctx, p, ids), ctx.workflow)| == |WorkflowTasks(tasks, ctx.workflow)| + |p.tasks|
  {
    if ctx.parent.Some? {
      var parent := ctx.parent.value;
      var plan := PlanFor(ctx, parent, p, ids);
      FreshTasksCount(tasks, AdoptAll(plan.children, parent), ids, ctx.workflow);
      DiscardKeepsSize(TasksWith(tasks, AdoptAll(plan.children, parent)), parent, ctx.workflow);
    } else {
      FreshTasksCount(tasks, RootTasks(NewTasks(ctx, p.tasks, ids), LinkedChildren(Links(p, ids))), ids, ctx.workflow);
    }
  }

  lemma DiscardKeepsSize(tasks: map<TaskId, Task>, x: TaskId, wf: WorkflowId)
    ensures x in tasks ==> |WorkflowTasks(tasks[x := tasks[x].(state := Discarded)], wf)| == |WorkflowTasks(tasks, wf)|
  {
    if x in tasks {
      var a, b := WorkflowTasks(tasks[x := tasks[x].(state := Discarded)], wf), WorkflowTasks(tasks, wf);
      assert a.Keys == b.Keys;
      assert |a| == |a.Keys| && |b| == |b.Keys|;
    }
  }

  lemma FreshTasksCount(tasks: map<TaskId, Task>, added: seq<Task>, ids: seq<TaskId>, wf: WorkflowId)
    requires FreshIds(tasks, ids) && |added| == |ids|
    requires forall i :: 0 <= i < |ids| ==> added[i].id == ids[i] && added[i].workflow == wf
    ensures |WorkflowTasks(TasksWith(tasks, added), wf)| == |WorkflowTasks(tasks, wf)| + |ids|
  {
    var before, after := WorkflowTasks(tasks, wf), WorkflowTasks(TasksWith(tasks, added), wf);
    FreshTasksJoin(tasks, added, ids, wf);
    Kahn.DistinctSize(ids);
    assert |after| == |after.Keys| && |before| == |before.Keys|;
    assert |before.Keys + Elems(ids)| == |before.Keys| + |Elems(ids)|;
  }

  lemma FreshTasksJoin(tasks: map<TaskId, Task>, added: seq<Task>, ids: seq<TaskId>, wf: WorkflowId)
    requires FreshIds(tasks, ids) && |added| == |ids|
    requires forall i :: 0 <= i < |ids| ==> added[i].id == ids[i] && added[i].workflow == wf
    ensures WorkflowTasks(TasksWith(tasks, added), wf).Keys == WorkflowTasks(tasks, wf).Keys + Elems(ids)
    ensures WorkflowTasks(tasks, wf).Keys !! Elems(ids)
  {
    var stored := TasksWith(tasks, added);
    TasksWithMeans(tasks, added);
    AddedIds(added, ids);
    forall t ensures t in stored && stored[t].workflow == wf <==> (t in tasks && tasks[t].workflow == wf) || t in ids {
      if t in ids {
        assert stored[t] in added;
      }
    }
  }

  lemma AddedIds(added: seq<Task>, ids: seq<TaskId>)
    requires |added| == |ids| && forall i :: 0 <= i < |ids| ==> added[i].id == ids[i]
    ensures Ids(added) == Elems(ids)
  {
    forall i | 0 <= i < |ids| ensures ids[i] in Ids(added) {
      assert added[i] in added;
    }
  }

  /** A plan of two tasks passes, is applied to a workflow of 199 and takes it past the limit of 200. */
  lemma LimitIsExceeded(tasks: map<TaskId, Task>, ctx: PlanningContext, ids: seq<TaskId>)
    requires |ids| == 2 && FreshIds(tasks, ids) && |WorkflowTasks(tasks, ctx.workflow)| == 199
    ensures Accepted(Untrimmed(), ids)
    ensures |WorkflowTasks(AfterApply(tasks, ctx, Untrimmed(), ids), ctx.workflow)| == 201
  {
    UntrimmedIsWellFormed();
    LimitKeptIffChecked(tasks, ctx, Untrimmed(), ids);
  }

  // ----- plans at the root -----

  /** In a workflow of their own, the tasks a root plan starts as `Ready` are exactly the runnable
      ones. */
  lemma RootReadyIsRunnable(ctx: PlanningContext, p: PlanProposal, ids: seq<TaskId>, i: nat)
    requires Accepted(p, ids) && i < |ids|
    ensures RootStored(ctx, p, ids).Keys == NewGraph(p, ids).Keys
    ensures IsRunnable(RootStored(ctx, p, ids), NewGraph(p, ids), ids[i]) <==> RootStored(ctx, p, ids)[ids[i]].state == Ready
  {
    var links, tasks := Links(p, ids), NewTasks(ctx, p.tasks, ids);
    var stored := RootStored(ctx, p, ids);
    RootStoredAt(ctx, p, ids, i);
    MappedLinks(p, ids);
    if ids[i] in LinkedChildren(links) {
      var e :| e in links && e.0 == ids[i];
      assert e in Elems(links) && e.1 in Targets(Elems(links), ids[i]);
      var j :| 0 <= j < |ids| && ids[j] == e.1;
      RootStoredAt(ctx, p, ids, j);
    } else {
      assert Targets(Elems(links), ids[i]) == {};
    }
  }

  function RootStored(ctx: PlanningContext, p: PlanProposal, ids: seq<TaskId>): map<TaskId, Task>
    requires |ids| == |p.tasks|
  {
    TasksWith(map[], RootTasks(NewTasks(ctx, p.tasks, ids), LinkedChildren(Links(p, ids))))
  }

  lemma RootStoredAt(ctx: PlanningContext, p: PlanProposal, ids: seq<TaskId>, i: nat)
    requires |ids| == |p.tasks| && Distinct(ids) && i < |ids|
    ensures var stored := RootStored(ctx, p, ids);
      && stored.Keys == Elems(ids) && ids[i] in stored
      && stored[ids[i]] == RootTask(NewTask(ctx, p.tasks[i], ids[i]), LinkedChildren(Links(p, ids)))
  {
    var added := RootTasks(NewTasks(ctx, p.tasks, ids), LinkedChildren(Links(p, ids)));
    AddedAt(map[], added, ids, i);
    TasksWithMeans(map[], added);
    forall k | 0 <= k < |ids| ensures ids[k] in Ids(added) {
      assert added[k] in added;
    }
    assert Ids(added) == Elems(ids);
  }

  /** A chain of new tasks is never longer than a chain of the proposal. */
  lemma NewChainsWithinBudget(p: PlanProposal, ids: seq<TaskId>, id: TaskId)
    requires Accepted(p, ids) && id in ids
    ensures DepthAtMost(NewGraph(p, ids), id, 15)
  {
    var d, e, names := NewGraph(p, ids), ProposedGraph(p), Names(p, ids);
    forall u, v | Edge(d, u, v) ensures u in names && v in names && Edge(e, names[u], names[v]) {
      LinkIsDependency(p, ids, u, v);
    }
    var i :| 0 <= i < |ids| && ids[i] == id;
    NameAt(p, ids, i);
    assert p.tasks[i] in p.tasks && TaskWellFormed(p.tasks[i]);
    assert names[id] in e;
    DepthMap(d, e, names, id, 15);
  }

  /** A validated plan stored at the root of an empty workflow runs to the end within as many rounds
      as the depth budget allows. */
  lemma PlanFinishesWithinBudget(ctx: PlanningContext, p: PlanProposal, ids: seq<TaskId>)
    requires Accepted(p, ids)
    ensures AllVerified(AfterRounds(RootStored(ctx, p, ids), NewGraph(p, ids), 15))
  {
    var tasks, d, k := RootStored(ctx, p, ids), NewGraph(p, ids), 15;
    RootReadyIsRunnable(ctx, p, ids, 0);
    MappedLinks(p, ids);
    assert Closed(d) by {
      forall a, b | Edge(d, a, b) ensures b in d {
        TargetsMeans(Elems(Links(p, ids)), a, b);
        assert (a, b) in Links(p, ids);
      }
    }
    forall t | t in tasks ensures tasks[t].state.IsRunnableCandidate() && tasks[t].assignedAgent == None {
      var i :| 0 <= i < |ids| && ids[i] == t;
      RootStoredAt(ctx, p, ids, i);
    }
    VerifiedByDepth(tasks, d, k);
    forall t | t in tasks ensures DepthAtMost(d, t, k) {
      NewChainsWithinBudget(p, ids, t);
    }
  }
}
