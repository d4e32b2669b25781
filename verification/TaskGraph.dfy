/** The in-memory task graph: tasks, what each task waits for, and the mirrored dependents map. */
module TaskGraphs {
  import opened Results
  import opened Core
  import opened Digraph
  import opened Kahn
  import opened Rewrites
  import opened Sorting

  datatype GraphError =
    | TaskNotFound(id: TaskId)
    | CycleDetected(id: TaskId)
    | InvalidDecomposition(id: TaskId)

  /** A task may start: an unassigned candidate whose direct prerequisites are all verified. */
  ghost predicate IsRunnable(tasks: map<TaskId, Task>, d: Deps, t: TaskId) {
    && t in tasks
    && tasks[t].state.IsRunnableCandidate() && tasks[t].assignedAgent == None
    && (t in d ==> forall p :: p in d[t] ==> p in tasks && tasks[p].state == Verified)
  }

  /** Highest priority first, then oldest first. */
  predicate Precedes(a: Task, b: Task) {
    a.priority > b.priority || (a.priority == b.priority && a.createdAt < b.createdAt)
  }

  /** No listed task is followed by one that precedes it. */
  ghost predicate ByPriority(tasks: map<TaskId, Task>, r: seq<TaskId>) {
    && (forall t :: t in r ==> t in tasks)
    && forall i, j :: 0 <= i < j < |r| ==> !Precedes(tasks[r[j]], tasks[r[i]])
  }

  class TaskGraph {
    var tasks: map<TaskId, Task>
    var dependencies: Deps
    var dependents: Deps

    /** The two maps mirror each other and mention only tasks of the graph. */
    ghost predicate Mirrored()
      reads this
    {
      && tasks.Keys == dependencies.Keys
      && Mirrors(dependencies, dependents)
      && forall t :: t in tasks ==> tasks[t].id == t
    }

    ghost predicate Valid()
      reads this
    {
      Mirrored() && Acyclic(dependencies)
    }

    constructor ()
      ensures Valid() && tasks == map[] && dependencies == map[]
    {
      tasks, dependencies, dependents := map[], map[], map[];
      new;
      forall a | Waits(dependencies, a, a) ensures false {
        var c := WaitsFirst(dependencies, a, a);
      }
    }

    method AddTask(task: Task)
      requires Mirrored()
      modifies this
      ensures Mirrored()
      ensures tasks == old(tasks)[task.id := task]
      ensures dependencies == WithNode(old(dependencies), task.id)
      ensures forall a, b :: Edge(dependencies, a, b) <==> Edge(old(dependencies), a, b)
      ensures old(Acyclic(dependencies)) ==> Acyclic(dependencies)
    {
      tasks := tasks[task.id := task];
      dependencies := WithNode(dependencies, task.id);
      dependents := WithNode(dependents, task.id);
      MirrorWithNode(old(dependencies), old(dependents), task.id);
      if old(Acyclic(dependencies)) {
        SubgraphAcyclic(dependencies, old(dependencies));
      }
    }

    /** Adds the edge unless it would close a cycle; a refused edge leaves no trace. */
    method AddDependency(taskId: TaskId, dependsOn: TaskId) returns (r: Result<(), GraphError>)
      requires Valid()
      modifies this`dependencies, this`dependents
      ensures Valid()
      ensures r.Ok? <==> taskId in tasks && dependsOn in tasks && !WaitsOrSame(old(dependencies), dependsOn, taskId)
      ensures r.Ok? <==> taskId in tasks && dependsOn in tasks && Acyclic(WithEdge(old(dependencies), taskId, dependsOn))
      ensures r.Ok? ==> dependencies == WithEdge(old(dependencies), taskId, dependsOn)
      ensures r.Err? ==> dependencies == old(dependencies) && dependents == old(dependents)
      ensures taskId == dependsOn ==> r == Err(CycleDetected(taskId))
      ensures taskId != dependsOn && taskId !in tasks ==> r == Err(TaskNotFound(taskId))
      ensures taskId != dependsOn && taskId in tasks && dependsOn !in tasks ==> r == Err(TaskNotFound(dependsOn))
      ensures taskId in tasks && dependsOn in tasks && r.Err? ==>
        r.error.CycleDetected? && BehindCycle(WithEdge(old(dependencies), taskId, dependsOn), r.error.id)
    {
      WithEdgeAcyclic(dependencies, taskId, dependsOn);
      if taskId == dependsOn {
        EdgeWaits(WithEdge(dependencies, taskId, taskId), taskId, taskId);
        return Err(CycleDetected(taskId));
      }
      if taskId !in tasks {
        return Err(TaskNotFound(taskId));
      }
      if dependsOn !in tasks {
        return Err(TaskNotFound(dependsOn));
      }
      if Edge(dependencies, taskId, dependsOn) {
        EdgeWaits(dependencies, taskId, dependsOn);
        if WaitsOrSame(dependencies, dependsOn, taskId) {
          WaitsTransitive(dependencies, taskId, dependsOn, taskId);
        }
      }
      MirrorWithEdge(dependencies, dependents, taskId, dependsOn);
      dependencies := WithEdge(dependencies, taskId, dependsOn);
      dependents := WithEdge(dependents, dependsOn, taskId);
      var check := ValidateAcyclic();
      if check.Err? {
        dependencies := WithoutEdge(dependencies, taskId, dependsOn);
        dependents := WithoutEdge(dependents, dependsOn, taskId);
        assert !Edge(old(dependents), dependsOn, taskId);
        assert dependencies == old(dependencies);
        assert dependents == old(dependents);
        return Err(check.error);
      }
      return Ok(());
    }

    method RemoveDependency(taskId: TaskId, dependsOn: TaskId) returns (r: Result<(), GraphError>)
      requires Valid()
      modifies this`dependencies, this`dependents
      ensures Valid()
      ensures r.Ok? <==> taskId in tasks && dependsOn in tasks
      ensures r.Ok? ==> dependencies == WithoutEdge(old(dependencies), taskId, dependsOn)
      ensures r.Err? ==> dependencies == old(dependencies) && dependents == old(dependents)
      ensures r.Err? ==> r.error == TaskNotFound(if taskId !in tasks then taskId else dependsOn)
    {
      if taskId !in tasks {
        return Err(TaskNotFound(taskId));
      }
      if dependsOn !in tasks {
        return Err(TaskNotFound(dependsOn));
      }
      dependencies := WithoutEdge(dependencies, taskId, dependsOn);
      dependents := WithoutEdge(dependents, dependsOn, taskId);
      MirrorWithoutEdge(old(dependencies), old(dependents), taskId, dependsOn);
      SubgraphAcyclic(dependencies, old(dependencies));
      return Ok(());
    }

    /** Removes a task that nothing waits for, together with its edges to its prerequisites. */
    method RemoveTask(taskId: TaskId) returns (r: Result<Option<Task>, GraphError>)
      requires Valid()
      modifies this
      ensures Valid()
      ensures r.Ok? <==> Downstream(old(dependencies), taskId) == {}
      ensures r.Ok? ==> dependencies == WithoutNode(old(dependencies), taskId) && tasks == old(tasks) - {taskId}
      ensures r.Ok? ==> r.value == if taskId in old(tasks) then Some(old(tasks)[taskId]) else None
      ensures r.Err? ==> r.error == InvalidDecomposition(taskId)
      ensures r.Err? ==> tasks == old(tasks) && dependencies == old(dependencies) && dependents == old(dependents)
    {
      forall x ensures x in Downstream(dependencies, taskId) <==> Edge(dependents, taskId, x) {
        assert Edge(dependencies, x, taskId) <==> Edge(dependents, taskId, x);
      }
      if taskId in dependents && dependents[taskId] != {} {
        var x :| x in dependents[taskId];
        assert Edge(dependents, taskId, x);
        return Err(InvalidDecomposition(taskId));
      }
      if taskId in dependencies {
        var deps := dependencies[taskId];
        dependencies := dependencies - {taskId};
        ForgetDependent(taskId, deps);
      }
      dependents := dependents - {taskId};
      var removed := if taskId in tasks then Some(tasks[taskId]) else None;
      tasks := tasks - {taskId};
      assert dependencies == WithoutNode(old(dependencies), taskId);
      assert dependents == WithoutMention(old(dependents), taskId) by {
        forall y | y in dependents ensures dependents[y] == old(dependents)[y] - {taskId} {
          assert Edge(old(dependencies), taskId, y) <==> Edge(old(dependents), y, taskId);
        }
      }
      MirrorWithoutNode(old(dependencies), old(dependents), taskId);
      SubgraphAcyclic(dependencies, old(dependencies));
      return Ok(removed);
    }

    /** Drops `taskId` from the dependents of each of `deps`. */
    method ForgetDependent(taskId: TaskId, deps: set<TaskId>)
      modifies this`dependents
      ensures dependents == map y | y in old(dependents) ::
        if y in deps then old(dependents)[y] - {taskId} else old(dependents)[y]
    {
      var rest := deps;
      while rest != {}
        invariant rest <= deps
        invariant dependents == map y | y in old(dependents) ::
          if y in deps - rest then old(dependents)[y] - {taskId} else old(dependents)[y]
        decreases rest
      {
        var dep :| dep in rest;
        rest := rest - {dep};
        if dep in dependents {
          dependents := dependents[dep := dependents[dep] - {taskId}];
        }
      }
    }

    /** The prerequisite counts of all tasks and a queue of those without prerequisites, in any order. */
    method InitialDegrees() returns (inDegree: map<TaskId, nat>, queue: seq<TaskId>)
      requires Mirrored()
      ensures KahnInv(dependencies, inDegree, queue, [], {})
    {
      inDegree := map id | id in tasks :: if id in dependencies then |dependencies[id]| else 0;
      queue := [];
      var rest := inDegree.Keys;
      while rest != {}
        invariant rest <= inDegree.Keys
        invariant multiset(queue) == multiset(ZerosAmong(inDegree, inDegree.Keys - rest))
        decreases rest
      {
        var id :| id in rest;
        ZerosGrow(inDegree, inDegree.Keys - rest, id);
        assert inDegree.Keys - (rest - {id}) == inDegree.Keys - rest + {id};
        rest := rest - {id};
        if inDegree[id] == 0 {
          queue := queue + [id];
        }
      }
      assert inDegree.Keys - rest == dependencies.Keys;
      Start(dependencies, inDegree, queue);
    }

    /** Lowers the counter of every dependent of the node just listed. */
    method ReleaseDependents(node: TaskId, inDegree0: map<TaskId, nat>, queue0: seq<TaskId>, ghost order: seq<TaskId>)
      returns (inDegree: map<TaskId, nat>, queue: seq<TaskId>)
      requires node in dependents && KahnInv(dependencies, inDegree0, queue0, order, dependents[node])
      ensures KahnInv(dependencies, inDegree, queue, order, {})
    {
      inDegree, queue := inDegree0, queue0;
      var downstream := dependents[node];
      while downstream != {}
        invariant KahnInv(dependencies, inDegree, queue, order, downstream)
        decreases downstream
      {
        var next :| next in downstream;
        Release(dependencies, inDegree, queue, order, downstream, next);
        downstream := downstream - {next};
        inDegree := inDegree[next := inDegree[next] - 1];
        if inDegree[next] == 0 {
          queue := queue + [next];
        }
      }
    }

    /** Kahn's check: succeeds exactly on acyclic graphs. The reported task is on a cycle or waits
        for one that is. */
    method ValidateAcyclic() returns (r: Result<(), GraphError>)
      requires Mirrored()
      ensures r.Ok? <==> Acyclic(dependencies)
      ensures r.Err? ==> r.error.CycleDetected? && r.error.id in tasks && BehindCycle(dependencies, r.error.id)
    {
      var inDegree, queue := InitialDegrees();
      var visitedCount := 0;
      ghost var order: seq<TaskId> := [];
      while queue != []
        invariant KahnInv(dependencies, inDegree, queue, order, {}) && visitedCount == |order|
        decreases dependencies.Keys - Elems(order)
      {
        Pop(dependencies, dependents, inDegree, queue, order);
        var node := queue[0];
        queue, visitedCount, order := queue[1..], visitedCount + 1, order + [node];
        inDegree, queue := ReleaseDependents(node, inDegree, queue, order);
      }
      Finish(dependencies, inDegree, order);
      if visitedCount != |tasks| {
        var id :| id in inDegree && inDegree[id] > 0;
        return Err(CycleDetected(id));
      }
      return Ok(());
    }

    /** Kahn's loop, keeping the order in which tasks leave the queue. */
    method DrainQueue() returns (inDegree: map<TaskId, nat>, order: seq<TaskId>)
      requires Mirrored()
      ensures KahnInv(dependencies, inDegree, [], order, {})
    {
      var queue;
      inDegree, queue := InitialDegrees();
      order := [];
      while queue != []
        invariant KahnInv(dependencies, inDegree, queue, order, {})
        decreases dependencies.Keys - Elems(order)
      {
        Pop(dependencies, dependents, inDegree, queue, order);
        var node := queue[0];
        queue, order := queue[1..], order + [node];
        inDegree, queue := ReleaseDependents(node, inDegree, queue, order);
      }
    }

    /** Lists every task once, prerequisites first; fails exactly when the graph has a cycle. The task
        a failure names is the last one listed, or else a new identifier, and so never one that the cycle
        keeps waiting. */
    method TopologicalSort(fallback: TaskId) returns (r: Result<seq<TaskId>, GraphError>)
      requires Mirrored() && fallback !in tasks
      ensures r.Ok? <==> Acyclic(dependencies)
      ensures r.Ok? ==> Distinct(r.value) && PrerequisitesFirst(dependencies, r.value)
      ensures r.Ok? ==> forall t :: t in r.value <==> t in tasks
      ensures r.Err? ==> r.error.CycleDetected? && !BehindCycle(dependencies, r.error.id)
      ensures r.Err? ==> (r.error.id == fallback <==> AllStuck(dependencies))
      ensures r.Err? && r.error.id != fallback ==> r.error.id in tasks
    {
      var inDegree, order := DrainQueue();
      Sorted(dependencies, inDegree, order);
      if |order| != |tasks| {
        StrangersWaitForNothing(dependencies, fallback);
        return Err(CycleDetected(if order != [] then order[|order| - 1] else fallback));
      }
      return Ok(order);
    }

    /** All runnable tasks, once each, highest priority first and oldest first within a priority. */
    method FindRunnableTasks() returns (r: seq<TaskId>)
      requires Mirrored()
      ensures Distinct(r)
      ensures forall t :: t in r <==> IsRunnable(tasks, dependencies, t)
      ensures forall t :: t in r <==>
        && t in tasks && (tasks[t].state == Ready || tasks[t].state == Backlog) && tasks[t].assignedAgent == None
        && forall p :: p in dependencies[t] ==> p in tasks && tasks[p].state == Verified
      ensures ByPriority(tasks, r)
      ensures forall i, j :: 0 <= i < j < |r| ==>
        || tasks[r[i]].priority > tasks[r[j]].priority
        || (tasks[r[i]].priority == tasks[r[j]].priority && tasks[r[i]].createdAt <= tasks[r[j]].createdAt)
    {
      var runnable: seq<Task> := [];
      var rest := tasks.Keys;
      while rest != {}
        invariant rest <= tasks.Keys
        invariant multiset(runnable) == multiset(RunnableAmong(tasks, dependencies, tasks.Keys - rest))
        decreases rest
      {
        var id :| id in rest;
        var task := tasks[id];
        RunnableGrows(tasks, dependencies, tasks.Keys - rest, id);
        assert tasks.Keys - (rest - {id}) == tasks.Keys - rest + {id};
        rest := rest - {id};
        if task.state.IsRunnableCandidate() && task.assignedAgent == None {
          var allVerified := id !in dependencies ||
            forall dep :: dep in dependencies[id] ==> dep in tasks && tasks[dep].state == Verified;
          if allVerified {
            runnable := runnable + [task];
          }
        }
      }
      assert tasks.Keys - rest == tasks.Keys;
      RunnableSorted(tasks, dependencies, runnable);
      r := IdsOf(SortBy(Precedes, runnable));
    }

    // ----- decomposition -----

    /** Adds the prerequisites of one task, stopping at the first refusal. */
    method AddDependencies(taskId: TaskId, prerequisites: set<TaskId>) returns (r: Result<(), GraphError>)
      requires Valid() && taskId in tasks
      modifies this`dependencies, this`dependents
      ensures Valid()
      ensures r.Ok? <==> prerequisites <= tasks.Keys && Acyclic(WithAll(old(dependencies), taskId, prerequisites))
      ensures r.Ok? ==> dependencies == WithAll(old(dependencies), taskId, prerequisites)
      ensures r.Err? ==> r.error.CycleDetected? || (r.error.TaskNotFound? && !(prerequisites <= tasks.Keys))
    {
      ghost var was, done := dependencies, {};
      var rest := prerequisites;
      AllStep(was, taskId, {}, taskId);
      while rest != {}
        invariant Valid()
        invariant rest + done == prerequisites && done <= tasks.Keys
        invariant dependencies == WithAll(was, taskId, done)
        decreases rest
      {
        var dep :| dep in rest;
        AllStep(was, taskId, done, dep);
        var step := AddDependency(taskId, dep);
        if step.Err? {
          if dep in tasks {
            AllBlocked(was, taskId, done + {dep}, prerequisites);
          }
          return step;
        }
        rest, done := rest - {dep}, done + {dep};
      }
      assert done == prerequisites;
      return Ok(());
    }

    method AddChildren(parentId: TaskId, children: seq<Task>) returns (r: Result<(), GraphError>)
      requires Valid()
      modifies this
      ensures Valid()
      ensures r.Ok? <==> forall c :: c in children ==> c.parent == Some(parentId)
      ensures r.Ok? ==> tasks == TasksWith(old(tasks), children)
      ensures r.Ok? ==> dependencies == WithNodes(old(dependencies), Ids(children))
      ensures r.Err? ==> r.error.InvalidDecomposition?
    {
      ChildrenNone(old(tasks), old(dependencies), children);
      for i := 0 to |children|
        invariant Valid()
        invariant forall c :: c in children[..i] ==> c.parent == Some(parentId)
        invariant tasks == TasksWith(old(tasks), children[..i])
        invariant dependencies == WithNodes(old(dependencies), Ids(children[..i]))
      {
        var child := children[i];
        if child.parent != Some(parentId) {
          return Err(InvalidDecomposition(child.id));
        }
        ChildrenStep(old(tasks), old(dependencies), children, i);
        AddTask(child);
      }
      assert children[..|children|] == children;
      return Ok(());
    }

    method LinkChildren(links: seq<(TaskId, TaskId)>) returns (r: Result<(), GraphError>)
      requires Valid()
      modifies this`dependencies, this`dependents
      ensures Valid()
      ensures r.Ok? <==> (forall e :: e in Elems(links) ==> e.0 in tasks && e.1 in tasks) &&
                         Acyclic(WithEdges(old(dependencies), Elems(links)))
      ensures r.Ok? ==> dependencies == WithEdges(old(dependencies), Elems(links))
    {
      LinksNone(old(dependencies), links);
      for i := 0 to |links|
        invariant Valid()
        invariant forall e :: e in Elems(links[..i]) ==> e.0 in tasks && e.1 in tasks
        invariant dependencies == WithEdges(old(dependencies), Elems(links[..i]))
      {
        LinksStep(old(dependencies), links, i);
        r := AddDependency(links[i].0, links[i].1);
        if r.Err? {
          return;
        }
      }
      assert links[..|links|] == links;
      return Ok(());
    }

    /** A child without prerequisites of its own takes over what the parent waits for. */
    method InheritOne(child: TaskId, upstream: set<TaskId>) returns (r: Result<(), GraphError>)
      requires Valid() && child in tasks && upstream <= tasks.Keys
      modifies this`dependencies, this`dependents
      ensures Valid()
      ensures r.Ok? <==> Acyclic(Inherited(old(dependencies), {child}, upstream))
      ensures r.Ok? ==> dependencies == Inherited(old(dependencies), {child}, upstream)
    {
      InheritAlone(dependencies, upstream, child);
      if dependencies[child] == {} {
        r := AddDependencies(child, upstream);
      } else {
        return Ok(());
      }
    }

    method InheritUpstream(parentId: TaskId, upstream: set<TaskId>) returns (r: Result<(), GraphError>)
      requires Valid() && upstream <= tasks.Keys
      modifies this`dependencies, this`dependents
      ensures Valid()
      ensures r.Ok? <==> Acyclic(Inherited(old(dependencies), Kids(tasks, parentId), upstream))
      ensures r.Ok? ==> dependencies == Inherited(old(dependencies), Kids(tasks, parentId), upstream)
    {
      var kids := Kids(tasks, parentId);
      var rest := kids;
      InheritNone(dependencies, upstream);
      while rest != {}
        invariant Valid() && rest <= kids
        invariant dependencies == Inherited(old(dependencies), kids - rest, upstream)
        decreases rest
      {
        var child :| child in rest;
        InheritStep(old(dependencies), kids, rest, upstream, child);
        rest := rest - {child};
        r := InheritOne(child, upstream);
        if r.Err? {
          InheritBlocked(old(dependencies), kids - rest, kids, upstream);
          return;
        }
      }
      assert kids - rest == kids;
      return Ok(());
    }

    /** One task that waited for the parent now waits for the terminal children. */
    method RewireOne(x: TaskId, parentId: TaskId, targets: set<TaskId>) returns (r: Result<(), GraphError>)
      requires Valid() && Edge(dependencies, x, parentId)
      modifies this`dependencies, this`dependents
      ensures Valid()
      ensures r.Ok? <==> targets <= tasks.Keys && Acyclic(Rewired(old(dependencies), {x}, parentId, targets))
      ensures r.Ok? ==> dependencies == Rewired(old(dependencies), {x}, parentId, targets)
    {
      RewireAlone(dependencies, parentId, targets, x);
      var removed := RemoveDependency(x, parentId);
      if removed.Err? {
        return removed;
      }
      r := AddDependencies(x, targets);
    }

    method RewireDownstream(parentId: TaskId, downstream: set<TaskId>, terminals: seq<TaskId>)
      returns (r: Result<(), GraphError>)
      requires Valid() && forall x :: x in downstream ==> Edge(dependencies, x, parentId)
      modifies this`dependencies, this`dependents
      ensures Valid()
      ensures r.Ok? <==> (downstream != {} ==> Elems(terminals) <= tasks.Keys) &&
                         Acyclic(Rewired(old(dependencies), downstream, parentId, Elems(terminals)))
      ensures r.Ok? ==> dependencies == Rewired(old(dependencies), downstream, parentId, Elems(terminals))
    {
      var targets := Elems(terminals);
      var rest := downstream;
      RewireNone(dependencies, parentId, targets);
      while rest != {}
        invariant Valid() && rest <= downstream
        invariant dependencies == Rewired(old(dependencies), downstream - rest, parentId, targets)
        invariant rest != downstream ==> targets <= tasks.Keys
        decreases rest
      {
        var x :| x in rest;
        RewireStep(old(dependencies), downstream, rest, parentId, targets, x);
        rest := rest - {x};
        r := RewireOne(x, parentId, targets);
        if r.Err? {
          if targets <= tasks.Keys {
            RewireBlocked(old(dependencies), downstream - rest, downstream, parentId, targets);
          }
          return;
        }
      }
      assert downstream - rest == downstream;
      return Ok(());
    }

    /** Adds the children and links them among themselves. */
    method AddLinkedChildren(parentId: TaskId, children: seq<Task>, links: seq<(TaskId, TaskId)>)
      returns (r: Result<(), GraphError>)
      requires Valid()
      modifies this
      ensures Valid()
      ensures r.Ok? <==>
        LinksSoundly(old(dependencies), parentId, children, links) && Acyclic(Linked(old(dependencies), children, links))
      ensures r.Ok? ==> tasks == TasksWith(old(tasks), children)
      ensures r.Ok? ==> dependencies == Linked(old(dependencies), children, links)
      ensures (exists c :: c in children && c.parent != Some(parentId)) ==> r.Err? && r.error.InvalidDecomposition?
    {
      r := AddChildren(parentId, children);
      if r.Err? {
        return;
      }
      TasksWithMeans(old(tasks), children);
      r := LinkChildren(links);
    }

    /** Adds the children, links them, and lets the initial ones inherit from the parent. */
    method GrowChildren(parentId: TaskId, children: seq<Task>, links: seq<(TaskId, TaskId)>)
      returns (r: Result<(), GraphError>)
      requires Valid() && parentId in tasks
      modifies this
      ensures Valid()
      ensures r.Ok? <==>
        LinksSoundly(old(dependencies), parentId, children, links) &&
        Acyclic(Grown(old(tasks), old(dependencies), parentId, children, links))
      ensures r.Ok? ==> tasks == TasksWith(old(tasks), children)
      ensures r.Ok? ==> dependencies == Grown(old(tasks), old(dependencies), parentId, children, links)
      ensures (exists c :: c in children && c.parent != Some(parentId)) ==> r.Err? && r.error.InvalidDecomposition?
    {
      var upstream := dependencies[parentId];
      assert upstream <= tasks.Keys by {
        assert forall y :: y in upstream ==> Edge(dependencies, parentId, y);
      }
      GrownExtendsLinked(old(tasks), old(dependencies), parentId, children, links);
      r := AddLinkedChildren(parentId, children, links);
      if r.Err? {
        return;
      }
      TasksWithMeans(old(tasks), children);
      r := InheritUpstream(parentId, upstream);
    }

    method GrowAndRewire(plan: Decomposition, downstream: set<TaskId>) returns (r: Result<(), GraphError>)
      requires Valid() && plan.parent in tasks && downstream == Downstream(dependencies, plan.parent)
      modifies this
      ensures Valid()
      ensures r.Ok? <==> Admissible(old(tasks), old(dependencies), plan)
      ensures r.Ok? ==> tasks == TasksWith(old(tasks), plan.children)
      ensures r.Ok? ==> dependencies == Decomposed(old(tasks), old(dependencies), plan)
      ensures (exists c :: c in plan.children && c.parent != Some(plan.parent)) ==> r.Err? && r.error.InvalidDecomposition?
    {
      AdmissibleInStages(old(tasks), old(dependencies), plan);
      r := GrowChildren(plan.parent, plan.children, plan.links);
      if r.Ok? {
        r := RewireDownstream(plan.parent, downstream, plan.terminals);
      }
    }

    /** Breaks a task into children that take its place in the order; the task itself stays, with
        nothing waiting for it. Succeeds exactly on admissible arguments. An error can leave some
        edges already rewritten, but never a cycle or a broken mirror. */
    method DecomposeTask(parentId: TaskId, children: seq<Task>, links: seq<(TaskId, TaskId)>, terminals: seq<TaskId>)
      returns (r: Result<(), GraphError>)
      requires Valid()
      modifies this
      ensures Valid()
      ensures r.Ok? <==> Admissible(old(tasks), old(dependencies), Decomposition(parentId, children, links, terminals))
      ensures r.Ok? ==> tasks == TasksWith(old(tasks), children)
      ensures r.Ok? ==>
        dependencies == Decomposed(old(tasks), old(dependencies), Decomposition(parentId, children, links, terminals))
      ensures parentId !in old(tasks) ==>
        r == Err(TaskNotFound(parentId)) && tasks == old(tasks) && dependencies == old(dependencies)
      ensures parentId in old(tasks) && (exists c :: c in children && c.parent != Some(parentId)) ==>
        r.Err? && r.error.InvalidDecomposition?
    {
      if parentId !in tasks {
        return Err(TaskNotFound(parentId));
      }
      DependentsAreDownstream(dependencies, dependents, parentId);
      r := GrowAndRewire(Decomposition(parentId, children, links, terminals), dependents[parentId]);
      if r.Ok? {
        r := ValidateAcyclic();
      }
    }

    /** Replaces a task by children: decomposes it, then removes it. */
    method ReplaceTaskWithChildren(parentId: TaskId, children: seq<Task>, links: seq<(TaskId, TaskId)>,
                                   terminals: seq<TaskId>) returns (r: Result<(), GraphError>)
      requires Valid()
      modifies this
      ensures Valid()
      ensures var plan := Decomposition(parentId, children, links, terminals);
              r.Ok? <==> Admissible(old(tasks), old(dependencies), plan) &&
                         Downstream(Decomposed(old(tasks), old(dependencies), plan), parentId) == {}
      ensures r.Ok? ==> tasks == TasksWith(old(tasks), children) - {parentId}
      ensures var plan := Decomposition(parentId, children, links, terminals);
              r.Ok? ==> dependencies == WithoutNode(Decomposed(old(tasks), old(dependencies), plan), parentId)
    {
      var decomposed := DecomposeTask(parentId, children, links, terminals);
      if decomposed.Err? {
        return decomposed;
      }
      var removed := RemoveTask(parentId);
      if removed.Err? {
        return Err(removed.error);
      }
      return Ok(());
    }

    /** Puts a new task on the way from `downId` up to `upId`, in place of any direct edge. */
    method InsertTaskBetween(newTask: Task, upId: TaskId, downId: TaskId) returns (r: Result<(), GraphError>)
      requires Valid()
      modifies this
      ensures Valid()
      ensures r.Ok? <==> upId in old(tasks) && downId in old(tasks) &&
                         Acyclic(Between(old(dependencies), newTask.id, upId, downId))
      ensures r.Ok? ==> tasks == old(tasks)[newTask.id := newTask]
      ensures r.Ok? ==> dependencies == Between(old(dependencies), newTask.id, upId, downId)
      ensures upId !in old(tasks) || downId !in old(tasks) ==>
        r == Err(TaskNotFound(if upId !in old(tasks) then upId else downId)) &&
        tasks == old(tasks) && dependencies == old(dependencies)
    {
      if upId !in tasks {
        return Err(TaskNotFound(upId));
      }
      if downId !in tasks {
        return Err(TaskNotFound(downId));
      }
      var newId := newTask.id;
      AddTask(newTask);
      var _ := RemoveDependency(downId, upId);
      ghost var cut := dependencies;
      WithEdgeAcyclic(cut, newId, upId);
      var upper := AddDependency(newId, upId);
      if upper.Err? {
        CycleStays(WithEdge(cut, newId, upId), WithEdge(WithEdge(cut, newId, upId), downId, newId));
        return upper;
      }
      WithEdgeAcyclic(dependencies, downId, newId);
      var lower := AddDependency(downId, newId);
      if lower.Err? {
        return lower;
      }
      var check := ValidateAcyclic();
      return check;
    }

    method ReassignOwnership(taskId: TaskId, agent: Option<AgentId>) returns (r: Result<(), GraphError>)
      requires Valid()
      modifies this`tasks
      ensures Valid()
      ensures r == if taskId in old(tasks) then Ok(()) else Err(TaskNotFound(taskId))
      ensures tasks == if taskId in old(tasks) then old(tasks)[taskId := old(tasks)[taskId].(assignedAgent := agent)]
                       else old(tasks)
    {
      if taskId !in tasks {
        return Err(TaskNotFound(taskId));
      }
      tasks := tasks[taskId := tasks[taskId].(assignedAgent := agent)];
      return Ok(());
    }

    /** Any run of operations, failed ones included, keeps the maps mirrored and the graph acyclic. */
    method Run(ops: seq<GraphOp>)
      requires Valid()
      modifies this
      ensures Valid()
    {
      for i := 0 to |ops|
        invariant Valid()
      {
        match ops[i]
        case AddTaskOp(t) =>
          AddTask(t);
        case AddDependencyOp(a, b) =>
          var _ := AddDependency(a, b);
        case RemoveDependencyOp(a, b) =>
          var _ := RemoveDependency(a, b);
        case RemoveTaskOp(a) =>
          var _ := RemoveTask(a);
        case DecomposeOp(p) =>
          var _ := DecomposeTask(p.parent, p.children, p.links, p.terminals);
        case ReplaceOp(p) =>
          var _ := ReplaceTaskWithChildren(p.parent, p.children, p.links, p.terminals);
        case InsertOp(t, a, b) =>
          var _ := InsertTaskBetween(t, a, b);
        case ReassignOp(t, agent) =>
          var _ := ReassignOwnership(t, agent);
      }
    }
  }

  datatype GraphOp =
    | AddTaskOp(task: Task)
    | AddDependencyOp(taskId: TaskId, dependsOn: TaskId)
    | RemoveDependencyOp(taskId: TaskId, dependsOn: TaskId)
    | RemoveTaskOp(taskId: TaskId)
    | DecomposeOp(plan: Decomposition)
    | ReplaceOp(plan: Decomposition)
    | InsertOp(task: Task, upId: TaskId, downId: TaskId)
    | ReassignOp(taskId: TaskId, agent: Option<AgentId>)

  // ----- facts used by the methods above -----

  /** The two stages of a decomposition: what must hold for each, and what waits for the parent between
      them. */
  lemma AdmissibleInStages(tasks: map<TaskId, Task>, d: Deps, p: Decomposition)
    requires p.parent in d && tasks.Keys == d.Keys
    ensures var grown, targets := Grown(tasks, d, p.parent, p.children, p.links), Elems(p.terminals);
      && (Admissible(tasks, d, p) <==>
            && LinksSoundly(d, p.parent, p.children, p.links) && Acyclic(grown)
            && (Downstream(d, p.parent) != {} ==> targets <= TasksWith(tasks, p.children).Keys)
            && Acyclic(Decomposed(tasks, d, p)))
      && forall x :: x in Downstream(d, p.parent) ==> Edge(grown, x, p.parent)
  {
    TasksWithMeans(tasks, p.children);
    GrownExtendsOld(tasks, d, p.parent, p.children, p.links);
    forall x | x in Downstream(d, p.parent) ensures Edge(Grown(tasks, d, p.parent, p.children, p.links), x, p.parent) {
      assert Edge(d, x, p.parent);
    }
  }

  lemma DependentsAreDownstream(d: Deps, r: Deps, x: TaskId)
    requires Mirrors(d, r) && x in r
    ensures r[x] == Downstream(d, x)
  {
    forall y ensures y in r[x] <==> y in Downstream(d, x) {
      assert Edge(d, y, x) <==> Edge(r, x, y);
    }
  }

  lemma StrangersWaitForNothing(d: Deps, x: TaskId)
    requires x !in d
    ensures !BehindCycle(d, x)
  {
    forall c | Waits(d, x, c) ensures false {
      var y := WaitsFirst(d, x, c);
    }
  }

  // ----- the task a cycle error names -----

  /** `b` and `c` wait for each other, `x` waits for `b`, and `f` is free. */
  function Tangled(f: TaskId, b: TaskId, c: TaskId, x: TaskId): Deps {
    map[f := {}, b := {c}, c := {b}, x := {b}]
  }

  /** The task that a failing check names is any one behind a cycle (`Kahn.Finish`), so it can be `x`, which
      nothing waits for. */
  lemma WaiterMayBeNamed(f: TaskId, b: TaskId, c: TaskId, x: TaskId)
    requires f != b && f != c && f != x && b != c && b != x && c != x
    ensures forall t :: BehindCycle(Tangled(f, b, c, x), t) <==> t in {b, c, x}
    ensures !Waits(Tangled(f, b, c, x), x, x)
  {
    var d := Tangled(f, b, c, x);
    assert Edge(d, b, c) && Edge(d, c, b) && Edge(d, x, b);
    EdgeWaits(d, b, c);
    EdgeWaits(d, c, b);
    EdgeWaits(d, x, b);
    WaitsCons(d, b, c, b);
    WaitsCons(d, c, b, c);
    forall t | BehindCycle(d, t) ensures t in {b, c, x} {
      var y :| WaitsOrSame(d, t, y) && Waits(d, y, y);
      var z := WaitsFirst(d, t, if t == y then t else y);
      assert Edge(d, t, z);
    }
    if Waits(d, x, x) {
      var y := WaitsLast(d, x, x);
      assert false;
    }
  }

  method TangledGraph(f: Task, b: Task, c: Task, x: Task) returns (g: TaskGraph)
    requires f.id != b.id && f.id != c.id && f.id != x.id && b.id != c.id && b.id != x.id && c.id != x.id
    ensures g.Mirrored() && g.tasks.Keys == {f.id, b.id, c.id, x.id} && g.dependencies == Tangled(f.id, b.id, c.id, x.id)
  {
    g := new TaskGraph();
    g.tasks := map[f.id := f, b.id := b, c.id := c, x.id := x];
    g.dependencies := Tangled(f.id, b.id, c.id, x.id);
    g.dependents := TangledMirror(f.id, b.id, c.id, x.id);
    OnlyOneFree(f.id, b.id, c.id, x.id);
  }

  /** The listing of this graph fails and names `f`, which waits for nothing. */
  method SortNamesTheFree(f: Task, b: Task, c: Task, x: Task, fallback: TaskId)
    returns (g: TaskGraph, r: Result<seq<TaskId>, GraphError>)
    requires f.id != b.id && f.id != c.id && f.id != x.id && b.id != c.id && b.id != x.id && c.id != x.id
    requires fallback !in {f.id, b.id, c.id, x.id}
    ensures g.dependencies == Tangled(f.id, b.id, c.id, x.id) && g.dependencies[f.id] == {}
    ensures r == Err(CycleDetected(f.id))
  {
    g := TangledGraph(f, b, c, x);
    OnlyOneFree(f.id, b.id, c.id, x.id);
    r := g.TopologicalSort(fallback);
  }

  function TangledMirror(f: TaskId, b: TaskId, c: TaskId, x: TaskId): Deps {
    map[f := {}, b := {c, x}, c := {b}, x := {}]
  }

  lemma OnlyOneFree(f: TaskId, b: TaskId, c: TaskId, x: TaskId)
    requires f != b && f != c && f != x && b != c && b != x && c != x
    ensures var d := Tangled(f, b, c, x);
      && !Acyclic(d) && !AllStuck(d) && Mirrors(d, TangledMirror(f, b, c, x))
      && forall t :: t in d && !BehindCycle(d, t) ==> t == f
  {
    WaiterMayBeNamed(f, b, c, x);
    var d := Tangled(f, b, c, x);
    assert BehindCycle(d, b) && f in d;
  }

  ghost function RunnableAmong(tasks: map<TaskId, Task>, d: Deps, ids: set<TaskId>): set<Task> {
    set t | t in ids && t in tasks && IsRunnable(tasks, d, t) :: tasks[t]
  }

  lemma RunnableGrows(tasks: map<TaskId, Task>, d: Deps, ids: set<TaskId>, x: TaskId)
    requires x in tasks && x !in ids && forall t :: t in tasks ==> tasks[t].id == t
    ensures multiset(RunnableAmong(tasks, d, ids + {x}))
         == multiset(RunnableAmong(tasks, d, ids)) + if IsRunnable(tasks, d, x) then multiset{tasks[x]} else multiset{}
  {
    var more, less := RunnableAmong(tasks, d, ids + {x}), RunnableAmong(tasks, d, ids);
    assert tasks[x] !in less;
    assert more == less + if IsRunnable(tasks, d, x) then {tasks[x]} else {};
  }

  function IdsOf(s: seq<Task>): (r: seq<TaskId>)
    ensures |r| == |s| && forall i :: 0 <= i < |s| ==> r[i] == s[i].id
  {
    seq(|s|, i requires 0 <= i < |s| => s[i].id)
  }

  lemma RunnableSorted(tasks: map<TaskId, Task>, d: Deps, runnable: seq<Task>)
    requires forall t :: t in tasks ==> tasks[t].id == t
    requires multiset(runnable) == multiset(RunnableAmong(tasks, d, tasks.Keys))
    ensures var r := IdsOf(SortBy(Precedes, runnable));
            Distinct(r) && (forall t :: t in r <==> IsRunnable(tasks, d, t)) && ByPriority(tasks, r)
  {
    SortPermutes(Precedes, runnable);
    SortSorts(Precedes, runnable);
    var sorted := SortBy(Precedes, runnable);
    SetMultisetDistinct(sorted, RunnableAmong(tasks, d, tasks.Keys));
    forall i | 0 <= i < |sorted| ensures sorted[i].id in tasks && tasks[sorted[i].id] == sorted[i] {
      assert sorted[i] in sorted;
    }
    RunnableListed(tasks, d, sorted);
  }

  lemma RunnableListed(tasks: map<TaskId, Task>, d: Deps, sorted: seq<Task>)
    requires forall t :: t in tasks ==> tasks[t].id == t
    requires forall x :: x in sorted <==> x in RunnableAmong(tasks, d, tasks.Keys)
    ensures forall t :: t in IdsOf(sorted) <==> IsRunnable(tasks, d, t)
  {
    var r := IdsOf(sorted);
    forall t ensures t in r <==> IsRunnable(tasks, d, t) {
      if IsRunnable(tasks, d, t) {
        assert tasks[t] in sorted;
        var i :| 0 <= i < |sorted| && sorted[i] == tasks[t];
        assert r[i] == t;
      }
      if t in r {
        var i :| 0 <= i < |r| && r[i] == t;
        assert sorted[i] in sorted;
      }
    }
  }
}
