/** The durable task tables: tasks by id, and one row (task, prerequisite) per dependency. Statements
    run inside a transaction either all take effect or none does. */
module TaskStores {
  import opened Results
  import opened Core
  import opened Digraph
  import opened Rewrites
  import opened TaskGraphs

  type Rows = set<(TaskId, TaskId)>

  datatype StoreError =
    | NotFound(id: TaskId)
    | DuplicateKey(id: TaskId)
    | ForeignKey(id: TaskId)

  // ----- what a stored decomposition changes -----

  function Upstream(rows: Rows, x: TaskId): set<TaskId> {
    Targets(rows, x)
  }

  function Dependents(rows: Rows, x: TaskId): set<TaskId> {
    set e | e in rows && e.1 == x :: e.0
  }

  /** Every child is stored under the parent, whatever parent it names. */
  function Adopt(child: Task, parent: TaskId): Task {
    child.(parent := Some(parent))
  }

  function AdoptAll(children: seq<Task>, parent: TaskId): seq<Task> {
    seq(|children|, i requires 0 <= i < |children| => Adopt(children[i], parent))
  }

  function StoredTasks(tasks: map<TaskId, Task>, p: Decomposition): map<TaskId, Task> {
    var added := TasksWith(tasks, AdoptAll(p.children, p.parent));
    if p.parent in added then added[p.parent := added[p.parent].(state := Discarded)] else added
  }

  /** The children are stored below the parent, whatever parent they name, the parent is discarded, and every other task is
      as it was. */
  ghost predicate ChildrenStored(was: map<TaskId, Task>, now: map<TaskId, Task>, parent: TaskId, children: seq<Task>) {
    && (forall c :: c in children ==> c.id in now && now[c.id] == c.(parent := Some(parent)))
    && parent in was && parent in now && now[parent] == was[parent].(state := Discarded)
    && (forall t :: t in was && t != parent ==> t in now && now[t] == was[t])
    && (forall t :: t in now ==> t in was || exists c :: c in children && c.id == t)
  }

  lemma StoredTasksMean(tasks: map<TaskId, Task>, p: Decomposition)
    requires p.parent in tasks && InsertableChildren(tasks, p.children)
    ensures ChildrenStored(tasks, StoredTasks(tasks, p), p.parent, p.children)
  {
    TasksWithMeans(tasks, AdoptAll(p.children, p.parent));
    AdoptedIds(p.children, p.parent);
    forall c | c in p.children ensures c.id in StoredTasks(tasks, p) && StoredTasks(tasks, p)[c.id] == c.(parent := Some(p.parent)) {
      StoredChild(tasks, p.parent, p.children, c);
    }
  }

  lemma StoredChild(tasks: map<TaskId, Task>, parent: TaskId, children: seq<Task>, c: Task)
    requires InsertableChildren(tasks, children) && c in children
    ensures var added := TasksWith(tasks, AdoptAll(children, parent));
      c.id in added && added[c.id] == c.(parent := Some(parent))
  {
    var adopted := AdoptAll(children, parent);
    TasksWithMeans(tasks, adopted);
    var i :| 0 <= i < |children| && children[i] == c;
    assert adopted[i] in adopted && c.id in Ids(adopted);
    var k :| 0 <= k < |adopted| && adopted[k] == TasksWith(tasks, adopted)[c.id];
    assert children[k].id == c.id;
  }

  /** Children that are the waiting end of some link. */
  function LinkedChildren(links: seq<(TaskId, TaskId)>): set<TaskId> {
    set e | e in links :: e.0
  }

  function Product(xs: set<TaskId>, ys: set<TaskId>): Rows {
    set x, y | x in xs && y in ys :: (x, y)
  }

  function GrownRows(rows: Rows, p: Decomposition): Rows {
    rows + Elems(p.links) + Product(Ids(p.children) - LinkedChildren(p.links), Upstream(rows, p.parent))
  }

  function StoredRows(rows: Rows, p: Decomposition): Rows {
    GrownRows(rows, p) - Product(Dependents(rows, p.parent), {p.parent})
      + Product(Dependents(rows, p.parent), Elems(p.terminals))
  }

  /** Exactly when the transaction commits. */
  ghost predicate Commits(tasks: map<TaskId, Task>, rows: Rows, p: Decomposition) {
    && p.parent in tasks
    && InsertableChildren(tasks, p.children)
    && (forall e :: e in Elems(p.links) ==> e.0 in tasks.Keys + Ids(p.children) && e.1 in tasks.Keys + Ids(p.children))
    && (Dependents(rows, p.parent) != {} ==> Elems(p.terminals) <= tasks.Keys + Ids(p.children))
  }

  ghost predicate InsertableChildren(tasks: map<TaskId, Task>, children: seq<Task>) {
    && (forall c :: c in children ==> c.id !in tasks)
    && forall i, j :: 0 <= i < j < |children| ==> children[i].id != children[j].id
  }

  // ----- loading -----

  function WorkflowTasks(tasks: map<TaskId, Task>, wf: WorkflowId): map<TaskId, Task> {
    map t | t in tasks && tasks[t].workflow == wf :: tasks[t]
  }

  /** The dependency map of one workflow's tasks. */
  function GraphOf(tasks: map<TaskId, Task>, rows: Rows): Deps {
    map x | x in tasks :: Targets(rows, x)
  }

  class TaskStore {
    var tasks: map<TaskId, Task>
    var rows: Rows

    /** Primary and foreign keys. */
    ghost predicate Valid()
      reads this
    {
      && (forall t :: t in tasks ==> tasks[t].id == t)
      && (forall e :: e in rows ==> e.0 in tasks && e.1 in tasks)
    }

    constructor ()
      ensures Valid() && tasks == map[] && rows == {}
    {
      tasks, rows := map[], {};
    }

    method CreateTask(task: Task) returns (r: Result<(), StoreError>)
      requires Valid()
      modifies this`tasks
      ensures Valid()
      ensures r.Ok? <==> task.id !in old(tasks)
      ensures tasks == if r.Ok? then old(tasks)[task.id := task] else old(tasks)
    {
      if task.id in tasks {
        return Err(DuplicateKey(task.id));
      }
      tasks := tasks[task.id := task];
      return Ok(());
    }

    /** Inserts a row, ignoring one that is there already. */
    method AddDependency(taskId: TaskId, dependsOn: TaskId) returns (r: Result<(), StoreError>)
      requires Valid()
      modifies this`rows
      ensures Valid()
      ensures r.Ok? <==> taskId in tasks && dependsOn in tasks
      ensures rows == if r.Ok? then old(rows) + {(taskId, dependsOn)} else old(rows)
      ensures taskId !in tasks ==> r == Err(ForeignKey(taskId))
      ensures taskId in tasks && dependsOn !in tasks ==> r == Err(ForeignKey(dependsOn))
    {
      if taskId !in tasks || dependsOn !in tasks {
        return Err(ForeignKey(if taskId !in tasks then taskId else dependsOn));
      }
      rows := rows + {(taskId, dependsOn)};
      return Ok(());
    }

    /** Inserts every child or reports the first clash. */
    method InsertChildren(parentId: TaskId, children: seq<Task>)
      returns (r: Result<map<TaskId, Task>, StoreError>)
      requires Valid() && parentId in tasks
      ensures r.Ok? <==> InsertableChildren(tasks, children)
      ensures r.Ok? ==> r.value == TasksWith(tasks, AdoptAll(children, parentId))
      ensures r.Err? ==> r.error.DuplicateKey?
    {
      var added := tasks;
      var adopted := AdoptAll(children, parentId);
      for i := 0 to |children|
        invariant added == TasksWith(tasks, adopted[..i])
        invariant added.Keys == tasks.Keys + Ids(children[..i])
        invariant InsertableChildren(tasks, children[..i])
      {
        InsertStep(tasks, children, i);
        assert adopted[..i + 1][..i] == adopted[..i];
        if children[i].id in added {
          return Err(DuplicateKey(children[i].id));
        }
        added := added[children[i].id := Adopt(children[i], parentId)];
      }
      assert children[..|children|] == children && adopted[..|children|] == adopted;
      return Ok(added);
    }

    /** Inserts the children, links them, lets those without a link inherit the parent's
        prerequisites, rewires what waited for the parent, and discards the parent; all or nothing. */
    method DecomposeTaskTransactional(parentId: TaskId, children: seq<Task>, links: seq<(TaskId, TaskId)>,
                                      terminals: seq<TaskId>) returns (r: Result<(), StoreError>)
      requires Valid()
      modifies this
      ensures Valid()
      ensures r.Ok? <==> Commits(old(tasks), old(rows), Decomposition(parentId, children, links, terminals))
      ensures r.Ok? ==> tasks == StoredTasks(old(tasks), Decomposition(parentId, children, links, terminals))
      ensures r.Ok? ==> rows == StoredRows(old(rows), Decomposition(parentId, children, links, terminals))
      ensures r.Err? ==> tasks == old(tasks) && rows == old(rows)
      ensures parentId !in old(tasks) ==> r == Err(NotFound(parentId))
      ensures parentId in old(tasks) && r.Err? ==> if InsertableChildren(old(tasks), children) then r.error.ForeignKey? else r.error.DuplicateKey?
    {
      if parentId !in tasks {
        return Err(NotFound(parentId));
      }
      ghost var plan := Decomposition(parentId, children, links, terminals);
      var upstream := Upstream(rows, parentId);
      var downstream := Dependents(rows, parentId);
      var inserted := InsertChildren(parentId, children);
      if inserted.Err? {
        return Err(inserted.error);
      }
      var newTasks := inserted.value;
      AdoptedIds(children, parentId);
      TasksWithMeans(tasks, AdoptAll(children, parentId));
      assert newTasks.Keys == tasks.Keys + Ids(children);
      if e :| e in links && (e.0 !in newTasks || e.1 !in newTasks) {
        return Err(ForeignKey(e.0));
      }
      var newRows := rows + Elems(links) + Product(Ids(children) - LinkedChildren(links), upstream);
      if downstream != {} {
        if t :| t in terminals && t !in newTasks {
          return Err(ForeignKey(t));
        }
      }
      newRows := newRows - Product(downstream, {parentId}) + Product(downstream, Elems(terminals));
      RowsStayKeyed(tasks, rows, plan);
      tasks := newTasks[parentId := newTasks[parentId].(state := Discarded)];
      rows := newRows;
      return Ok(());
    }

    /** Rebuilds one workflow's graph; a cycle or a row leaving the workflow makes it fail. */
    method LoadTaskGraph(wf: WorkflowId) returns (r: Result<TaskGraph, GraphError>)
      requires Valid()
      ensures var mine := WorkflowTasks(tasks, wf);
              r.Ok? <==> Closed(GraphOf(mine, rows)) && Acyclic(GraphOf(mine, rows))
      ensures r.Ok? ==> fresh(r.value) && r.value.Valid()
      ensures r.Ok? ==> r.value.tasks == WorkflowTasks(tasks, wf) &&
                        r.value.dependencies == GraphOf(WorkflowTasks(tasks, wf), rows)
    {
      var mine := WorkflowTasks(tasks, wf);
      var graph := LoadTasks(mine);
      var edges := set e | e in rows && e.0 in mine;
      LoadWhole(mine, rows, edges);
      var loaded := LoadRows(graph, mine, edges);
      if loaded.Err? {
        return Err(loaded.error);
      }
      return Ok(graph);
    }
  }

  method LoadTasks(mine: map<TaskId, Task>) returns (graph: TaskGraph)
    requires forall t :: t in mine ==> mine[t].id == t
    ensures fresh(graph) && graph.Valid() && graph.tasks == mine && graph.dependencies == GraphOf(mine, {})
  {
    graph := new TaskGraph();
    var rest := mine.Keys;
    while rest != {}
      invariant rest <= mine.Keys && graph.Valid() && fresh(graph)
      invariant graph.tasks == map t | t in mine.Keys - rest :: mine[t]
      invariant graph.dependencies == GraphOf(graph.tasks, {})
      decreases rest
    {
      var t :| t in rest;
      rest := rest - {t};
      assert Targets({}, t) == {};
      graph.AddTask(mine[t]);
    }
    assert mine.Keys - rest == mine.Keys;
  }

  method LoadRows(graph: TaskGraph, mine: map<TaskId, Task>, edges: Rows) returns (r: Result<(), GraphError>)
    requires graph.Valid() && graph.tasks == mine && graph.dependencies == GraphOf(mine, {})
    requires forall e :: e in edges ==> e.0 in mine
    modifies graph`dependencies, graph`dependents
    ensures graph.Valid()
    ensures r.Ok? <==> Closed(GraphOf(mine, edges)) && Acyclic(GraphOf(mine, edges))
    ensures r.Ok? ==> graph.dependencies == GraphOf(mine, edges)
  {
    var left := edges;
    assert edges - left == {};
    while left != {}
      invariant left <= edges && graph.Valid()
      invariant graph.dependencies == GraphOf(mine, edges - left)
      decreases left
    {
      var e :| e in left;
      LoadStep(mine, edges, left, e);
      LoadBlocked(mine, edges, edges - (left - {e}));
      left := left - {e};
      var step := graph.AddDependency(e.0, e.1);
      if step.Err? {
        assert Edge(GraphOf(mine, edges), e.0, e.1);
        return step;
      }
    }
    assert edges - left == edges;
    return Ok(());
  }

  // ----- facts used by the methods above -----

  lemma AdoptedIds(children: seq<Task>, parent: TaskId)
    ensures Ids(AdoptAll(children, parent)) == Ids(children)
  {
    var adopted := AdoptAll(children, parent);
    forall i | 0 <= i < |children| ensures children[i].id in Ids(adopted) && adopted[i].id in Ids(children) {
      assert adopted[i] in adopted && children[i] in children;
    }
  }

  lemma InsertStep(tasks: map<TaskId, Task>, children: seq<Task>, i: nat)
    requires i < |children|
    ensures Ids(children[..i + 1]) == Ids(children[..i]) + {children[i].id}
    ensures InsertableChildren(tasks, children) ==> children[i].id !in tasks.Keys + Ids(children[..i])
    ensures InsertableChildren(tasks, children[..i]) && children[i].id !in tasks.Keys + Ids(children[..i]) ==>
      InsertableChildren(tasks, children[..i + 1])
  {
    var front := children[..i];
    assert children[..i + 1] == front + [children[i]];
    forall j | 0 <= j < i ensures children[j].id in Ids(front) {
      assert front[j] == children[j] && front[j] in front;
    }
  }

  /** The rows of a committed decomposition mention stored tasks only. */
  lemma RowsStayKeyed(tasks: map<TaskId, Task>, rows: Rows, p: Decomposition)
    requires forall e :: e in rows ==> e.0 in tasks && e.1 in tasks
    requires Commits(tasks, rows, p)
    ensures forall e :: e in StoredRows(rows, p) ==> e.0 in tasks.Keys + Ids(p.children) && e.1 in tasks.Keys + Ids(p.children)
  {
    forall e | e in StoredRows(rows, p) ensures e.0 in tasks.Keys + Ids(p.children) && e.1 in tasks.Keys + Ids(p.children) {
      if e in Product(Dependents(rows, p.parent), Elems(p.terminals)) {
        assert e.0 in Dependents(rows, p.parent);
      }
    }
  }

  lemma LoadStep(mine: map<TaskId, Task>, edges: Rows, left: Rows, e: (TaskId, TaskId))
    requires left <= edges && e in left && e.0 in mine
    ensures edges - (left - {e}) == edges - left + {e}
    ensures WithEdge(GraphOf(mine, edges - left), e.0, e.1) == GraphOf(mine, edges - (left - {e}))
  {
    assert edges - (left - {e}) == edges - left + {e};
    var a, b := WithEdge(GraphOf(mine, edges - left), e.0, e.1), GraphOf(mine, edges - left + {e});
    forall x | x in mine ensures a[x] == b[x] {
      assert Targets(edges - left + {e}, x) == Targets(edges - left, x) + if x == e.0 then {e.1} else {};
    }
  }

  lemma LoadBlocked(mine: map<TaskId, Task>, edges: Rows, some: Rows)
    requires some <= edges
    ensures Acyclic(GraphOf(mine, edges)) ==> Acyclic(GraphOf(mine, some))
  {
    if !Acyclic(GraphOf(mine, some)) {
      CycleStays(GraphOf(mine, some), GraphOf(mine, edges));
    }
  }

  lemma LoadWhole(mine: map<TaskId, Task>, rows: Rows, edges: Rows)
    requires edges == set e | e in rows && e.0 in mine
    ensures GraphOf(mine, edges) == GraphOf(mine, rows)
  {
    forall x | x in mine ensures Targets(edges, x) == Targets(rows, x) {
    }
  }
}
