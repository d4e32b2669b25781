/** Applying a validated proposal: temporary ids become task ids, dependencies become pairs of task
    ids, and the tasks are stored, either as the children of a decomposed parent or at the root. */
module Applier {
  import opened Results
  import opened Core
  import opened Digraph
  import opened Sorting
  import opened Rewrites
  import opened TaskStores
  import opened Validator

  datatype PlanningContext = PlanningContext(workflow: WorkflowId, parent: Option<TaskId>, now: Timestamp)

  datatype PlannerError = Validation(errors: seq<PlanError>) | Storage(error: StoreError)

  datatype Applied = Applied(idMap: map<string, TaskId>, dependenciesCreated: nat)

  // ----- mapping a proposal to tasks -----

  const NO_NEEDS := Requirements([], None, NoReasoning, false, false, 0)

  function NewTask(ctx: PlanningContext, pt: ProposedTask, id: TaskId): Task {
    Task(id, ctx.workflow, ctx.parent, pt.objective, pt.criteria, Backlog, pt.priority, ctx.now, None,
         NO_NEEDS.(capabilities := pt.requiredCapabilities))
  }

  function NewTasks(ctx: PlanningContext, tasks: seq<ProposedTask>, ids: seq<TaskId>): seq<Task>
    requires |ids| == |tasks|
  {
    seq(|tasks|, i requires 0 <= i < |tasks| => NewTask(ctx, tasks[i], ids[i]))
  }

  /** Temporary ids as written, not trimmed; the last task wins a repeated id. */
  function IdMap(tasks: seq<ProposedTask>, ids: seq<TaskId>): map<string, TaskId>
    requires |ids| == |tasks|
  {
    if tasks == [] then map[]
    else var n := |tasks| - 1; IdMap(tasks[..n], ids[..n])[tasks[n].tempId := ids[n]]
  }

  /** Pairs for the dependencies whose two ends are known; the others are dropped without a word. */
  function MapDependencies(deps: seq<ProposedDependency>, idMap: map<string, TaskId>): seq<(TaskId, TaskId)> {
    if deps == [] then []
    else
      var n := |deps| - 1;
      var front := MapDependencies(deps[..n], idMap);
      if deps[n].task in idMap && deps[n].dependsOn in idMap
      then front + [(idMap[deps[n].task], idMap[deps[n].dependsOn])]
      else front
  }

  /** Tasks that no other new task waits for, in order. */
  function Terminals(ids: seq<TaskId>, links: seq<(TaskId, TaskId)>): seq<TaskId> {
    var prerequisites := set e | e in links :: e.1;
    Filter((id: TaskId) => id !in prerequisites, ids)
  }

  function PlanFor(ctx: PlanningContext, parent: TaskId, p: PlanProposal, ids: seq<TaskId>): Decomposition
    requires |ids| == |p.tasks|
  {
    var links := MapDependencies(p.dependencies, IdMap(p.tasks, ids));
    Decomposition(parent, NewTasks(ctx, p.tasks, ids), links, Terminals(ids, links))
  }

  /** Freshly drawn ids: all different and none stored yet. */
  ghost predicate FreshIds(tasks: map<TaskId, Task>, ids: seq<TaskId>) {
    Distinct(ids) && forall id :: id in ids ==> id !in tasks
  }

  /** At the root, tasks without prerequisites start `Ready` and the others in the backlog. */
  function RootTask(task: Task, waiting: set<TaskId>): Task {
    if task.id in waiting then task
    else match task.TransitionTo(Ready) case Ok(t) => t case Err(_) => task
  }

  function RootTasks(tasks: seq<Task>, waiting: set<TaskId>): seq<Task> {
    seq(|tasks|, i requires 0 <= i < |tasks| => RootTask(tasks[i], waiting))
  }

  // ----- what the stored tasks say -----

  /** The task says what was proposed: its objective, criteria, priority and required capabilities, in the
      workflow, below the parent and with the time of the planning; it waits for an agent. */
  predicate Carries(t: Task, ctx: PlanningContext, pt: ProposedTask) {
    && t.objective == pt.objective && t.criteria == pt.criteria && t.priority == pt.priority
    && t.needs.capabilities == pt.requiredCapabilities
    && t.needs.suggestedRole == None && t.needs.minReasoning == NoReasoning && t.needs.contextTokens == 0
    && !t.needs.requiresTools && !t.needs.requiresVision
    && t.workflow == ctx.workflow && t.parent == ctx.parent && t.createdAt == ctx.now
    && t.state in {Backlog, Ready} && t.assignedAgent == None
  }

  lemma {:induction false} AddedAt(tasks: map<TaskId, Task>, added: seq<Task>, ids: seq<TaskId>, i: nat)
    requires |added| == |ids| && Distinct(ids) && i < |ids|
    requires forall k :: 0 <= k < |ids| ==> added[k].id == ids[k]
    ensures ids[i] in TasksWith(tasks, added) && TasksWith(tasks, added)[ids[i]] == added[i]
    decreases |ids|
  {
    var n := |ids| - 1;
    if i < n {
      AddedAt(tasks, added[..n], ids[..n], i);
    }
  }

  lemma ChildrenCarry(tasks: map<TaskId, Task>, ctx: PlanningContext, p: PlanProposal, ids: seq<TaskId>)
    requires |ids| == |p.tasks| && FreshIds(tasks, ids) && ctx.parent.Some? && ctx.parent.value in tasks
    ensures var stored := StoredTasks(tasks, PlanFor(ctx, ctx.parent.value, p, ids));
      forall i :: 0 <= i < |ids| ==> ids[i] in stored && Carries(stored[ids[i]], ctx, p.tasks[i])
  {
    forall i | 0 <= i < |ids|
      ensures var stored := StoredTasks(tasks, PlanFor(ctx, ctx.parent.value, p, ids));
        ids[i] in stored && Carries(stored[ids[i]], ctx, p.tasks[i])
    {
      AddedAt(tasks, AdoptAll(NewTasks(ctx, p.tasks, ids), ctx.parent.value), ids, i);
      assert ids[i] in ids;
    }
  }

  lemma RootsCarry(tasks: map<TaskId, Task>, ctx: PlanningContext, p: PlanProposal, ids: seq<TaskId>)
    requires |ids| == |p.tasks| && FreshIds(tasks, ids)
    ensures var stored := TasksWith(tasks, RootTasks(NewTasks(ctx, p.tasks, ids), LinkedChildren(MapDependencies(p.dependencies, IdMap(p.tasks, ids)))));
      forall i :: 0 <= i < |ids| ==> ids[i] in stored && Carries(stored[ids[i]], ctx, p.tasks[i])
  {
    var added := RootTasks(NewTasks(ctx, p.tasks, ids), LinkedChildren(MapDependencies(p.dependencies, IdMap(p.tasks, ids))));
    forall i | 0 <= i < |ids| ensures ids[i] in TasksWith(tasks, added) && Carries(TasksWith(tasks, added)[ids[i]], ctx, p.tasks[i]) {
      AddedAt(tasks, added, ids, i);
    }
  }

  // ----- applying -----

  /** Validates and applies. A rejected proposal, or a decomposition the store refuses, changes
      nothing. `ids` are the identifiers drawn for the new tasks. */
  method Apply(store: TaskStore, ctx: PlanningContext, p: PlanProposal, ids: seq<TaskId>)
    returns (r: Result<Applied, PlannerError>)
    requires store.Valid() && |ids| == |p.tasks| && FreshIds(store.tasks, ids)
    modifies store
    ensures store.Valid()
    ensures r.Err? && r.error.Validation? <==> !WellFormed(p, DEFAULT_BUDGETS, 0)
    ensures r.Err? ==> store.tasks == old(store.tasks) && store.rows == old(store.rows)
    ensures r.Err? && r.error.Validation? ==> forall e :: e in r.error.errors <==> Fault(p, DEFAULT_BUDGETS, 0, e)
    ensures WellFormed(p, DEFAULT_BUDGETS, 0) && ctx.parent.Some? ==>
      var plan := PlanFor(ctx, ctx.parent.value, p, ids);
      && (r.Ok? <==> Commits(old(store.tasks), old(store.rows), plan))
      && (r.Ok? ==> store.tasks == StoredTasks(old(store.tasks), plan) && store.rows == StoredRows(old(store.rows), plan))
    ensures WellFormed(p, DEFAULT_BUDGETS, 0) && ctx.parent == None ==>
      var links := MapDependencies(p.dependencies, IdMap(p.tasks, ids));
      && r.Ok?
      && store.tasks == TasksWith(old(store.tasks), RootTasks(NewTasks(ctx, p.tasks, ids), LinkedChildren(links)))
      && store.rows == old(store.rows) + Elems(links)
    ensures r.Ok? ==> 1 <= |p.tasks| <= 50
    ensures r.Ok? ==> forall i :: 0 <= i < |ids| ==> ids[i] in store.tasks && Carries(store.tasks[ids[i]], ctx, p.tasks[i])
    ensures r.Ok? ==> r.value == Applied(IdMap(p.tasks, ids), |MapDependencies(p.dependencies, IdMap(p.tasks, ids))|)
  {
    var report := ValidateWithBudget(p, DEFAULT_BUDGETS, 0);
    if !report.isValid {
      return Err(Validation(report.errors));
    }
    var idMap, tasks := MapTasks(ctx, p.tasks, ids);
    var links := MapLinks(p.dependencies, idMap);
    if ctx.parent.Some? {
      var terminals := Terminals(ids, links);
      var stored := store.DecomposeTaskTransactional(ctx.parent.value, tasks, links, terminals);
      if stored.Err? {
        return Err(Storage(stored.error));
      }
      ChildrenCarry(old(store.tasks), ctx, p, ids);
    } else {
      MappedLinks(p, ids);
      StoreRoot(store, tasks, ids, links);
      RootsCarry(old(store.tasks), ctx, p, ids);
    }
    return Ok(Applied(idMap, |links|));
  }

  method MapTasks(ctx: PlanningContext, proposed: seq<ProposedTask>, ids: seq<TaskId>)
    returns (idMap: map<string, TaskId>, tasks: seq<Task>)
    requires |ids| == |proposed|
    ensures idMap == IdMap(proposed, ids) && tasks == NewTasks(ctx, proposed, ids)
  {
    idMap, tasks := map[], [];
    for i := 0 to |proposed|
      invariant idMap == IdMap(proposed[..i], ids[..i])
      invariant tasks == NewTasks(ctx, proposed, ids)[..i]
    {
      assert proposed[..i + 1][..i] == proposed[..i] && ids[..i + 1][..i] == ids[..i];
      idMap := idMap[proposed[i].tempId := ids[i]];
      tasks := tasks + [NewTask(ctx, proposed[i], ids[i])];
    }
    assert proposed[..|proposed|] == proposed && ids[..|ids|] == ids;
  }

  method MapLinks(deps: seq<ProposedDependency>, idMap: map<string, TaskId>) returns (links: seq<(TaskId, TaskId)>)
    ensures links == MapDependencies(deps, idMap)
  {
    links := [];
    for k := 0 to |deps|
      invariant links == MapDependencies(deps[..k], idMap)
    {
      assert deps[..k + 1][..k] == deps[..k];
      if deps[k].task in idMap && deps[k].dependsOn in idMap {
        links := links + [(idMap[deps[k].task], idMap[deps[k].dependsOn])];
      }
    }
    assert deps[..|deps|] == deps;
  }

  /** Root-level creation: the tasks, then the dependency rows. */
  method StoreRoot(store: TaskStore, tasks: seq<Task>, ids: seq<TaskId>, links: seq<(TaskId, TaskId)>)
    requires store.Valid() && FreshIds(store.tasks, ids) && |tasks| == |ids|
    requires forall i :: 0 <= i < |tasks| ==> tasks[i].id == ids[i]
    requires forall e :: e in links ==> e.0 in ids && e.1 in ids
    modifies store
    ensures store.Valid()
    ensures store.tasks == TasksWith(old(store.tasks), RootTasks(tasks, LinkedChildren(links)))
    ensures store.rows == old(store.rows) + Elems(links)
  {
    CreateAll(store, RootTasks(tasks, LinkedChildren(links)), ids);
    AddRows(store, links);
  }

  method CreateAll(store: TaskStore, tasks: seq<Task>, ids: seq<TaskId>)
    requires store.Valid() && FreshIds(store.tasks, ids) && |tasks| == |ids|
    requires forall i :: 0 <= i < |tasks| ==> tasks[i].id == ids[i]
    modifies store`tasks
    ensures store.Valid()
    ensures store.tasks == TasksWith(old(store.tasks), tasks)
    ensures store.tasks.Keys == old(store.tasks).Keys + Elems(ids)
  {
    for i := 0 to |tasks|
      invariant store.Valid()
      invariant store.tasks == TasksWith(old(store.tasks), tasks[..i])
      invariant store.tasks.Keys == old(store.tasks).Keys + Elems(ids[..i])
    {
      assert tasks[..i + 1][..i] == tasks[..i];
      ElemsPrefix(ids, i);
      assert ids[i] in ids && ids[i] !in Elems(ids[..i]);
      var created := store.CreateTask(tasks[i]);
    }
    assert tasks[..|tasks|] == tasks && ids[..|tasks|] == ids;
  }

  method AddRows(store: TaskStore, links: seq<(TaskId, TaskId)>)
    requires store.Valid() && forall e :: e in links ==> e.0 in store.tasks && e.1 in store.tasks
    modifies store`rows
    ensures store.Valid()
    ensures store.rows == old(store.rows) + Elems(links)
  {
    for k := 0 to |links|
      invariant store.Valid() && store.rows == old(store.rows) + Elems(links[..k])
    {
      ElemsPrefix(links, k);
      assert links[k] in links && (links[k].0, links[k].1) == links[k];
      var inserted := store.AddDependency(links[k].0, links[k].1);
    }
    assert links[..|links|] == links;
  }

  // ----- what the mapping keeps -----

  lemma {:induction false} IdMapOrigin(tasks: seq<ProposedTask>, ids: seq<TaskId>, s: string) returns (i: nat)
    requires |ids| == |tasks| && s in IdMap(tasks, ids)
    ensures i < |tasks| && tasks[i].tempId == s && IdMap(tasks, ids)[s] == ids[i]
  {
    var n := |tasks| - 1;
    if s == tasks[n].tempId {
      i := n;
    } else {
      i := IdMapOrigin(tasks[..n], ids[..n], s);
    }
  }

  lemma {:induction false} IdMapAt(tasks: seq<ProposedTask>, ids: seq<TaskId>, i: nat)
    requires |ids| == |tasks| && i < |tasks|
    ensures tasks[i].tempId in IdMap(tasks, ids)
    ensures TasksWellFormed(tasks) ==> IdMap(tasks, ids)[tasks[i].tempId] == ids[i]
    decreases |tasks|
  {
    var n := |tasks| - 1;
    if i < n {
      IdMapAt(tasks[..n], ids[..n], i);
      LastTask(tasks);
    }
  }

  /** Which task each temporary id names, when no two tasks share one. */
  lemma IdMapMeans(tasks: seq<ProposedTask>, ids: seq<TaskId>)
    requires |ids| == |tasks|
    ensures forall s :: s in IdMap(tasks, ids) ==> exists i :: 0 <= i < |tasks| && tasks[i].tempId == s && IdMap(tasks, ids)[s] == ids[i]
    ensures forall i :: 0 <= i < |tasks| ==> tasks[i].tempId in IdMap(tasks, ids)
    ensures TasksWellFormed(tasks) ==> forall i :: 0 <= i < |tasks| ==> IdMap(tasks, ids)[tasks[i].tempId] == ids[i]
  {
    forall s | s in IdMap(tasks, ids)
      ensures exists i :: 0 <= i < |tasks| && tasks[i].tempId == s && IdMap(tasks, ids)[s] == ids[i]
    {
      var i := IdMapOrigin(tasks, ids, s);
    }
    forall i | 0 <= i < |tasks|
      ensures tasks[i].tempId in IdMap(tasks, ids)
      ensures TasksWellFormed(tasks) ==> IdMap(tasks, ids)[tasks[i].tempId] == ids[i]
    {
      IdMapAt(tasks, ids, i);
    }
  }

  /** The pairs are exactly the dependencies whose two ends are known. */
  lemma {:induction false} MappedExactly(deps: seq<ProposedDependency>, idMap: map<string, TaskId>)
    ensures forall e :: e in MapDependencies(deps, idMap) <==>
      exists dep :: dep in deps && dep.task in idMap && dep.dependsOn in idMap && e == (idMap[dep.task], idMap[dep.dependsOn])
  {
    if deps != [] {
      var n := |deps| - 1;
      MappedExactly(deps[..n], idMap);
      assert deps == deps[..n] + [deps[n]];
    }
  }

  lemma MappedLinks(p: PlanProposal, ids: seq<TaskId>)
    requires |ids| == |p.tasks|
    ensures forall e :: e in MapDependencies(p.dependencies, IdMap(p.tasks, ids)) ==> e.0 in ids && e.1 in ids
  {
    IdMapMeans(p.tasks, ids);
    MappedExactly(p.dependencies, IdMap(p.tasks, ids));
  }
}
