/** The stored decomposition and the in-memory one agree: loading the graph after the transaction
    gives the dependency map that decomposing the loaded graph gives. */
module StoreAgreement {
  import opened Results
  import opened Core
  import opened Digraph
  import opened Rewrites
  import opened TaskStores

  /** Rows never leave a workflow. */
  ghost predicate RowsStayInside(tasks: map<TaskId, Task>, rows: Rows) {
    forall e :: e in rows ==> e.0 in tasks && e.1 in tasks && tasks[e.0].workflow == tasks[e.1].workflow
  }

  /** New ids, each used once, for children of one workflow. */
  ghost predicate NewChildren(tasks: map<TaskId, Task>, wf: WorkflowId, children: seq<Task>) {
    InsertableChildren(tasks, children) && forall c :: c in children ==> c.workflow == wf
  }

  lemma AdoptedAlready(p: Decomposition)
    requires forall c :: c in p.children ==> c.parent == Some(p.parent)
    ensures AdoptAll(p.children, p.parent) == p.children
  {
    forall i | 0 <= i < |p.children| ensures AdoptAll(p.children, p.parent)[i] == p.children[i] {
      assert p.children[i] in p.children;
    }
  }

  /** The tasks the workflow has afterwards: the old ones, with the parent discarded, and the children. */
  lemma StoredWorkflow(tasks: map<TaskId, Task>, wf: WorkflowId, p: Decomposition)
    requires forall t :: t in tasks ==> tasks[t].id == t
    requires FreshChildren(WorkflowTasks(tasks, wf), p) && NewChildren(tasks, wf, p.children)
    ensures WorkflowTasks(StoredTasks(tasks, p), wf).Keys == WorkflowTasks(tasks, wf).Keys + Ids(p.children)
    ensures StoredTasks(tasks, p)[p.parent].state == Discarded
  {
    AdoptedAlready(p);
    TasksWithMeans(tasks, p.children);
    var after := StoredTasks(tasks, p);
    forall t ensures t in WorkflowTasks(after, wf) <==> t in WorkflowTasks(tasks, wf) || t in Ids(p.children) {
      if t in Ids(p.children) {
        assert TasksWith(tasks, p.children)[t] in p.children;
      }
    }
  }

  /** A child's stored prerequisites: its links, or the parent's prerequisites if it has no link. */
  lemma ChildRows(mine: map<TaskId, Task>, rows: Rows, p: Decomposition, x: TaskId)
    requires FreshChildren(mine, p) && x in Ids(p.children)
    requires forall e :: e in rows ==> e.0 !in Ids(p.children)
    ensures Targets(StoredRows(rows, p), x)
         == if ChildGraph(p)[x] == {} then Targets(rows, p.parent) else ChildGraph(p)[x]
  {
    var links := Elems(p.links);
    assert ChildGraph(p)[x] == Targets(links, x);
    assert x !in Dependents(rows, p.parent);
    if x in LinkedChildren(p.links) {
      var e :| e in p.links && e.0 == x;
      assert e.1 in Targets(links, x);
    } else {
      assert Targets(links, x) == {};
    }
    var grown := GrownRows(rows, p);
    forall y ensures y in Targets(StoredRows(rows, p), x) <==> (x, y) in grown {
      TargetsMeans(StoredRows(rows, p), x, y);
    }
    forall y ensures y in (if ChildGraph(p)[x] == {} then Targets(rows, p.parent) else ChildGraph(p)[x]) <==> (x, y) in grown {
      TargetsMeans(links, x, y);
    }
  }

  lemma TargetsMeans(rows: Rows, x: TaskId, y: TaskId)
    ensures y in Targets(rows, x) <==> (x, y) in rows
  {
    if (x, y) in rows {
      assert (x, y).0 == x && (x, y).1 == y;
    }
  }

  /** An old task's stored prerequisites: as before, with the terminals in the parent's place. */
  lemma OldRows(mine: map<TaskId, Task>, rows: Rows, p: Decomposition, x: TaskId)
    requires FreshChildren(mine, p) && x in mine
    ensures Targets(StoredRows(rows, p), x)
         == if p.parent in Targets(rows, x) then Targets(rows, x) - {p.parent} + Elems(p.terminals) else Targets(rows, x)
  {
    TargetsMeans(rows, x, p.parent);
    assert x in Dependents(rows, p.parent) <==> (x, p.parent) in rows;
    assert x !in Ids(p.children);
    forall y ensures y in Targets(StoredRows(rows, p), x) <==>
      ((x, y) in rows && !(y == p.parent && x in Dependents(rows, p.parent))) ||
      (x in Dependents(rows, p.parent) && y in Elems(p.terminals))
    {
      TargetsMeans(StoredRows(rows, p), x, y);
      assert (x, y) !in Elems(p.links);
    }
    forall y ensures y in Targets(rows, x) <==> (x, y) in rows {
      TargetsMeans(rows, x, y);
    }
  }

  lemma AgreementAt(tasks: map<TaskId, Task>, rows: Rows, wf: WorkflowId, p: Decomposition, x: TaskId)
    requires RowsStayInside(tasks, rows) && NewChildren(tasks, wf, p.children)
    requires FreshChildren(WorkflowTasks(tasks, wf), p)
    requires x in WorkflowTasks(tasks, wf).Keys + Ids(p.children)
    ensures Targets(StoredRows(rows, p), x)
         == Spliced(GraphOf(WorkflowTasks(tasks, wf), rows), ChildGraph(p), p.parent, Elems(p.terminals), false)[x]
  {
    if x in Ids(p.children) {
      assert forall e :: e in rows ==> e.0 !in Ids(p.children);
      ChildRows(WorkflowTasks(tasks, wf), rows, p, x);
    } else {
      OldRows(WorkflowTasks(tasks, wf), rows, p, x);
    }
  }

  lemma FreshCommits(tasks: map<TaskId, Task>, rows: Rows, wf: WorkflowId, p: Decomposition)
    requires FreshChildren(WorkflowTasks(tasks, wf), p) && NewChildren(tasks, wf, p.children)
    ensures Commits(tasks, rows, p)
  {
  }

  lemma StoredIsSplice(tasks: map<TaskId, Task>, rows: Rows, wf: WorkflowId, p: Decomposition)
    requires forall t :: t in tasks ==> tasks[t].id == t
    requires RowsStayInside(tasks, rows) && NewChildren(tasks, wf, p.children)
    requires FreshChildren(WorkflowTasks(tasks, wf), p)
    ensures GraphOf(WorkflowTasks(StoredTasks(tasks, p), wf), StoredRows(rows, p))
         == Spliced(GraphOf(WorkflowTasks(tasks, wf), rows), ChildGraph(p), p.parent, Elems(p.terminals), false)
  {
    StoredWorkflow(tasks, wf, p);
    var after := GraphOf(WorkflowTasks(StoredTasks(tasks, p), wf), StoredRows(rows, p));
    var goal := Spliced(GraphOf(WorkflowTasks(tasks, wf), rows), ChildGraph(p), p.parent, Elems(p.terminals), false);
    forall x | x in after ensures x in goal && after[x] == goal[x] {
      AgreementAt(tasks, rows, wf, p, x);
    }
  }

  /** The main agreement, for fresh children: the graph loaded after the transaction has the dependencies
      of the in-memory decomposition exactly when no older child of the parent is left to inherit. The
      transaction looks at the new children only, the decomposition in memory at every child. */
  lemma StoreAgreesWithGraph(tasks: map<TaskId, Task>, rows: Rows, wf: WorkflowId, p: Decomposition)
    requires forall t :: t in tasks ==> tasks[t].id == t
    requires RowsStayInside(tasks, rows) && NewChildren(tasks, wf, p.children)
    requires FreshChildren(WorkflowTasks(tasks, wf), p)
    requires Acyclic(GraphOf(WorkflowTasks(tasks, wf), rows))
    ensures var mine := WorkflowTasks(tasks, wf);
      var d := GraphOf(mine, rows);
      GraphOf(WorkflowTasks(StoredTasks(tasks, p), wf), StoredRows(rows, p)) == Decomposed(mine, d, p)
      <==> OldChildrenSettled(mine, d, p.parent)
  {
    var mine := WorkflowTasks(tasks, wf);
    var d := GraphOf(mine, rows);
    GraphClosed(tasks, rows, wf);
    StoredIsSplice(tasks, rows, wf, p);
    if OldChildrenSettled(mine, d, p.parent) {
      DecomposedIsSplice(mine, d, p);
    } else {
      var k :| k in Kids(mine, p.parent) && k in d && d[k] == {};
      OldChildDiffers(mine, d, p, k);
    }
  }

  /** Where the two part: an older child that waits for nothing inherits in memory only. */
  lemma OldChildDiffers(mine: map<TaskId, Task>, d: Deps, p: Decomposition, k: TaskId)
    requires FreshChildren(mine, p) && mine.Keys == d.Keys
    requires k in Kids(mine, p.parent) && d[k] == {}
    ensures Decomposed(mine, d, p)[k] == d[p.parent]
    ensures Spliced(d, ChildGraph(p), p.parent, Elems(p.terminals), false)[k] == {}
  {
    GrownByFresh(mine, d, p, k);
    assert k !in Ids(p.children);
  }

  lemma GraphClosed(tasks: map<TaskId, Task>, rows: Rows, wf: WorkflowId)
    requires RowsStayInside(tasks, rows)
    ensures Closed(GraphOf(WorkflowTasks(tasks, wf), rows))
  {
    var d := GraphOf(WorkflowTasks(tasks, wf), rows);
    forall a, b | Edge(d, a, b) ensures b in d {
      TargetsMeans(rows, a, b);
      assert (a, b) in rows;
    }
  }
}
