/** From an applied plan to finished work: the workflow that a plan leaves in the store can be scheduled
    to the end. */
module PlanProgress {
  import opened Results
  import opened Core
  import opened Digraph
  import opened Rewrites
  import opened TaskGraphs
  import opened TaskStores
  import opened StoreAgreement
  import opened Validator
  import opened Applier
  import opened Pipeline
  import opened Selector
  import opened Scheduler

  /** Every task but the one to be replaced is verified, waiting, or set aside with nothing waiting for it. */
  ghost predicate OthersWait(mine: map<TaskId, Task>, d: Deps, parent: TaskId) {
    forall t :: t in mine && t != parent ==>
      || mine[t].state == Verified
      || (mine[t].state.IsRunnableCandidate() && mine[t].assignedAgent == None)
      || (SetAside(mine[t].state) && forall x :: !Edge(d, x, t))
  }

  /** The tasks of the workflow after the plan has been stored. */
  function Planned(tasks: map<TaskId, Task>, ctx: PlanningContext, parent: TaskId, p: PlanProposal, ids: seq<TaskId>): map<TaskId, Task>
    requires |ids| == |p.tasks|
  {
    WorkflowTasks(StoredTasks(tasks, PlanFor(ctx, parent, p, ids)), ctx.workflow)
  }

  /** Task by task: the parent is discarded, the new tasks wait to be run, the others are as before. */
  ghost predicate PlanStored(mine: map<TaskId, Task>, after: map<TaskId, Task>, parent: TaskId, ids: seq<TaskId>) {
    && parent in mine && after.Keys == mine.Keys + Elems(ids)
    && after[parent].state == Discarded
    && (forall t :: t in mine && t != parent ==> after[t] == mine[t])
    && (forall c :: c in ids ==> c in after && after[c].state == Backlog && after[c].assignedAgent == None)
    && (forall t :: t in after ==> after[t].id == t)
  }

  lemma PlannedTasks(tasks: map<TaskId, Task>, rows: Rows, ctx: PlanningContext, parent: TaskId, p: PlanProposal, ids: seq<TaskId>)
    requires ReadyToApply(tasks, rows, ctx, parent, p, ids)
    ensures PlanStored(WorkflowTasks(tasks, ctx.workflow), Planned(tasks, ctx, parent, p, ids), parent, ids)
  {
    var plan := PlanFor(ctx, parent, p, ids);
    PlanFits(tasks, rows, ctx, parent, p, ids);
    StoredWorkflow(tasks, ctx.workflow, plan);
    ChildrenOfPlan(ctx, parent, p, ids);
    AdoptedAlready(plan);
    NewTasksWait(ctx, p, ids);
    ChildrenStored(tasks, ctx.workflow, plan, ids);
  }

  lemma NewTasksWait(ctx: PlanningContext, p: PlanProposal, ids: seq<TaskId>)
    requires |ids| == |p.tasks|
    ensures forall c :: c in NewTasks(ctx, p.tasks, ids) ==> c.state == Backlog && c.assignedAgent == None && c.workflow == ctx.workflow
  {
  }

  lemma ChildrenStored(tasks: map<TaskId, Task>, wf: WorkflowId, plan: Decomposition, ids: seq<TaskId>)
    requires forall t :: t in tasks ==> tasks[t].id == t
    requires AdoptAll(plan.children, plan.parent) == plan.children && Ids(plan.children) == Elems(ids)
    requires forall c :: c in plan.children ==> c.state == Backlog && c.assignedAgent == None && c.workflow == wf
    requires FreshIds(tasks, ids) && plan.parent in WorkflowTasks(tasks, wf)
    ensures PlanStored(WorkflowTasks(tasks, wf), WorkflowTasks(StoredTasks(tasks, plan), wf), plan.parent, ids)
  {
    TasksWithMeans(tasks, plan.children);
    var added := TasksWith(tasks, plan.children);
    forall c | c in ids ensures c in added && added[c] in plan.children && added[c].id == c && c != plan.parent {
      assert c in Elems(ids);
    }
  }

  /** Nothing waits for a task after the splice that nothing waited for, nor for the parent. */
  lemma NothingNewNeeded(d: Deps, cd: Deps, parent: TaskId, terminals: set<TaskId>, t: TaskId)
    requires Splice(d, cd, parent, terminals) && t in d
    requires t == parent || forall x :: !Edge(d, x, t)
    ensures forall x :: !Edge(Spliced(d, cd, parent, terminals, false), x, t)
  {
    forall x ensures !Edge(Spliced(d, cd, parent, terminals, false), x, t) {
      if t == parent {
        NothingNeedsParent(d, cd, parent, terminals, x);
      } else {
        assert !Edge(d, x, t) && !Edge(d, parent, t) && !Edge(cd, x, t);
      }
    }
  }

  lemma WaitingAfter(mine: map<TaskId, Task>, after: map<TaskId, Task>, d: Deps, cd: Deps, parent: TaskId, terminals: set<TaskId>, ids: seq<TaskId>)
    requires PlanStored(mine, after, parent, ids) && mine.Keys == d.Keys && Splice(d, cd, parent, terminals)
    requires OthersWait(mine, d, parent)
    ensures WaitingOrVerified(after, Spliced(d, cd, parent, terminals, false))
  {
    forall t | t in mine && (t == parent || forall x :: !Edge(d, x, t))
      ensures forall x :: !Edge(Spliced(d, cd, parent, terminals, false), x, t)
    {
      NothingNewNeeded(d, cd, parent, terminals, t);
    }
  }

  lemma SoundAfter(mine: map<TaskId, Task>, after: map<TaskId, Task>, d: Deps, cd: Deps, parent: TaskId, terminals: set<TaskId>, ids: seq<TaskId>)
    requires PlanStored(mine, after, parent, ids) && mine.Keys == d.Keys && cd.Keys == Elems(ids)
    requires Splice(d, cd, parent, terminals) && OthersWait(mine, d, parent)
    ensures var g := Spliced(d, cd, parent, terminals, false);
      after.Keys == g.Keys && Closed(g) && Acyclic(g) && WaitingOrVerified(after, g)
  {
    SplicedAcyclic(d, cd, parent, terminals, false);
    SplicedClosed(d, cd, parent, terminals);
    WaitingAfter(mine, after, d, cd, parent, terminals, ids);
  }

  /** An applied plan leaves a workflow in the shape the scheduler needs. */
  lemma PlannedCanBeScheduled(tasks: map<TaskId, Task>, rows: Rows, ctx: PlanningContext, parent: TaskId, p: PlanProposal, ids: seq<TaskId>)
    requires ReadyToApply(tasks, rows, ctx, parent, p, ids)
    requires OthersWait(WorkflowTasks(tasks, ctx.workflow), GraphOf(WorkflowTasks(tasks, ctx.workflow), rows), parent)
    ensures var after, g := Planned(tasks, ctx, parent, p, ids), Reloaded(tasks, rows, ctx.workflow, PlanFor(ctx, parent, p, ids));
      && after.Keys == g.Keys && Closed(g) && Acyclic(g) && WaitingOrVerified(after, g)
  {
    var mine := WorkflowTasks(tasks, ctx.workflow);
    var cd, terms := NewGraph(p, ids), Elems(PlanFor(ctx, parent, p, ids).terminals);
    PlannedTasks(tasks, rows, ctx, parent, p, ids);
    ReloadedIsSplice(tasks, rows, ctx, parent, p, ids);
    SoundAfter(mine, Planned(tasks, ctx, parent, p, ids), GraphOf(mine, rows), cd, parent, terms, ids);
  }

  lemma SplicedClosed(d: Deps, cd: Deps, parent: TaskId, terminals: set<TaskId>)
    requires Splice(d, cd, parent, terminals)
    ensures Closed(Spliced(d, cd, parent, terminals, false))
  {
    var g := Spliced(d, cd, parent, terminals, false);
    forall a, b | Edge(g, a, b) ensures b in g {
      assert Edge(d, a, b) || Edge(d, parent, b) || Edge(cd, a, b) || b in terminals;
    }
  }

  /** All is done: the parent stays discarded, the new tasks are verified, and so is every other task that
      had not been set aside before. */
  ghost predicate WorkedOff(mine: map<TaskId, Task>, last: map<TaskId, Task>, parent: TaskId, ids: seq<TaskId>) {
    && last.Keys == mine.Keys + Elems(ids)
    && (parent in last ==> last[parent].state == Discarded)
    && (forall c :: c in ids ==> c in last && last[c].state == Verified)
    && (forall t :: t in mine && t != parent && !SetAside(mine[t].state) ==> t in last && last[t].state == Verified)
  }

  lemma CompletedIsWorkedOff(mine: map<TaskId, Task>, after: map<TaskId, Task>, last: map<TaskId, Task>, parent: TaskId, ids: seq<TaskId>)
    requires PlanStored(mine, after, parent, ids) && Completed(after, last)
    ensures WorkedOff(mine, last, parent, ids)
  {
    forall t | t in mine && t != parent && !SetAside(mine[t].state) ensures t in last && last[t].state == Verified {
      assert t in after && after[t] == mine[t];
    }
  }

  /** From the proposal to the last task: after a validated plan has replaced `parent`, and with enough
      agents and leases granted, every run of the scheduler verifies all new tasks and all other tasks, in
      no more cycles than there are tasks to do; only what is set aside is left. */
  lemma PlannedWorkFinishes(tasks: map<TaskId, Task>, rows: Rows, ctx: PlanningContext, parent: TaskId, p: PlanProposal,
                            ids: seq<TaskId>, run: seq<map<TaskId, Task>>, agents: seq<Agent>, s: Setting)
    requires ReadyToApply(tasks, rows, ctx, parent, p, ids)
    requires OthersWait(WorkflowTasks(tasks, ctx.workflow), GraphOf(WorkflowTasks(tasks, ctx.workflow), rows), parent)
    requires Staffed(Planned(tasks, ctx, parent, p, ids), agents, s) && s.denied == {}
    requires run != [] && run[0] == Planned(tasks, ctx, parent, p, ids) && |run| > |Unverified(run[0])|
    requires Ticks(run, Reloaded(tasks, rows, ctx.workflow, PlanFor(ctx, parent, p, ids)), agents, s)
    ensures WorkedOff(WorkflowTasks(tasks, ctx.workflow), run[|Unverified(run[0])|], parent, ids)
  {
    PlannedTasks(tasks, rows, ctx, parent, p, ids);
    PlannedCanBeScheduled(tasks, rows, ctx, parent, p, ids);
    FinishesInTime(run, Reloaded(tasks, rows, ctx.workflow, PlanFor(ctx, parent, p, ids)), agents, s);
    CompletedIsWorkedOff(WorkflowTasks(tasks, ctx.workflow), run[0], run[|Unverified(run[0])|], parent, ids);
  }

  /** And there is such a run. */
  lemma PlannedWorkRuns(tasks: map<TaskId, Task>, rows: Rows, ctx: PlanningContext, parent: TaskId, p: PlanProposal,
                        ids: seq<TaskId>, agents: seq<Agent>, s: Setting, n: nat) returns (run: seq<map<TaskId, Task>>)
    requires ReadyToApply(tasks, rows, ctx, parent, p, ids)
    ensures |run| == n + 1 && run[0] == Planned(tasks, ctx, parent, p, ids)
    ensures Ticks(run, Reloaded(tasks, rows, ctx.workflow, PlanFor(ctx, parent, p, ids)), agents, s)
  {
    PlannedTasks(tasks, rows, ctx, parent, p, ids);
    run := RunOf(Planned(tasks, ctx, parent, p, ids), Reloaded(tasks, rows, ctx.workflow, PlanFor(ctx, parent, p, ids)), agents, s, n);
  }

  /** Whoever is handed a task of a plan was free and has every capability that the plan asked for it, letter by
      letter and whatever their case. */
  lemma PlannedAgentsQualify(tasks: map<TaskId, Task>, ctx: PlanningContext, pt: ProposedTask, todo: seq<TaskId>, agents: seq<Agent>,
                             s: Setting, job: Job) returns (a: Agent)
    requires job in Jobs(tasks, todo, IdleAgents(agents), s) && job.task in tasks && Carries(tasks[job.task], ctx, pt)
    ensures a in agents && a.id == job.agent && a.state == Idle && a.currentExecution == None
    ensures forall req :: req in pt.requiredCapabilities ==> exists c :: c in a.capabilities && SameName(c, req)
  {
    JobsAreGood(tasks, todo, IdleAgents(agents), s);
    assert GoodJob(tasks, todo, IdleAgents(agents), s, job);
    a :| a in IdleAgents(agents) && a.id == job.agent && Eligible(tasks[job.task].needs, s.matrix, a);
    IdleAgentsAreFree(agents);
    forall req | req in pt.requiredCapabilities ensures exists c :: c in a.capabilities && SameName(c, req) {
      var c :| c in a.capabilities && EqIgnoreCase(c, req);
      SameLetters(c, req);
      assert SameName(c, req);
    }
  }

  predicate SameName(a: string, b: string) {
    |a| == |b| && forall i :: 0 <= i < |a| ==> a[i] == b[i] || OtherCase(a[i], b[i]) || OtherCase(b[i], a[i])
  }
}
