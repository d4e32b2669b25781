/** One scheduling cycle over a workflow: runnable tasks, in priority order, are matched greedily to
    idle agents under a lease. What an execution does is reduced to its outcome. */
module Scheduler {
  import opened Results
  import opened Core
  import opened Digraph
  import opened Rewrites
  import opened TaskGraphs
  import opened Selector
  import opened Sorting

  datatype Job = Job(task: TaskId, agent: AgentId)

  /** What a pass depends on besides tasks and agents: the provider matrix, how agents score for what a
      task needs, and the tasks whose lease the lease store refuses. */
  datatype Setting = Setting(denied: set<TaskId>, matrix: seq<ProviderCapabilities>, score: Requirements -> Agent -> int)

  function IdleAgents(agents: seq<Agent>): seq<Agent> {
    Filter((a: Agent) => a.state == Idle && a.currentExecution == None, agents)
  }

  lemma IdleAgentsAreFree(agents: seq<Agent>)
    ensures forall a :: a in IdleAgents(agents) <==> a in agents && a.state == Idle && a.currentExecution == None
  {
    FilterMembers((a: Agent) => a.state == Idle && a.currentExecution == None, agents);
  }

  function Without(agents: seq<Agent>, id: AgentId): seq<Agent> {
    Filter((a: Agent) => a.id != id, agents)
  }

  /** The matching a pass produces for the tasks `todo`, considered in order. */
  function Jobs(tasks: map<TaskId, Task>, todo: seq<TaskId>, pool: seq<Agent>, s: Setting): seq<Job> {
    if todo == [] || pool == [] then []
    else if todo[0] !in tasks || !tasks[todo[0]].state.IsRunnableCandidate() then Jobs(tasks, todo[1..], pool, s)
    else
      match SelectBest(tasks[todo[0]].needs, pool, s.matrix, s.score(tasks[todo[0]].needs))
      case None => Jobs(tasks, todo[1..], pool, s)
      case Some(a) =>
        if todo[0] in s.denied then Jobs(tasks, todo[1..], pool, s)
        else [Job(todo[0], a.id)] + Jobs(tasks, todo[1..], Without(pool, a.id), s)
  }

  // ----- the matching -----

  ghost predicate Injective(jobs: seq<Job>) {
    forall i, j :: 0 <= i < j < |jobs| ==> jobs[i].task != jobs[j].task && jobs[i].agent != jobs[j].agent
  }

  /** The job pairs a task of `todo` with an agent of `pool` that is eligible for it. */
  ghost predicate GoodJob(tasks: map<TaskId, Task>, todo: seq<TaskId>, pool: seq<Agent>, s: Setting, job: Job) {
    && job.task in todo && job.task in tasks && job.task !in s.denied
    && exists a :: a in pool && a.id == job.agent && Eligible(tasks[job.task].needs, s.matrix, a)
  }

  lemma WithoutMembers(pool: seq<Agent>, id: AgentId)
    ensures forall a :: a in Without(pool, id) <==> a in pool && a.id != id
  {
    FilterMembers((a: Agent) => a.id != id, pool);
  }

  lemma {:induction false} JobsAreGood(tasks: map<TaskId, Task>, todo: seq<TaskId>, pool: seq<Agent>, s: Setting)
    ensures forall job :: job in Jobs(tasks, todo, pool, s) ==> GoodJob(tasks, todo, pool, s, job)
    decreases |todo|
  {
    if todo != [] && pool != [] {
      JobsAreGood(tasks, todo[1..], pool, s);
      forall job | GoodJob(tasks, todo[1..], pool, s, job) ensures GoodJob(tasks, todo, pool, s, job) {
      }
      if todo[0] in tasks {
        var needs := tasks[todo[0]].needs;
        SelectsBest(needs, pool, s.matrix, s.score(needs));
        var choice := SelectBest(needs, pool, s.matrix, s.score(needs));
        if choice.Some? {
          var rest := Without(pool, choice.value.id);
          WithoutMembers(pool, choice.value.id);
          JobsAreGood(tasks, todo[1..], rest, s);
          forall job | GoodJob(tasks, todo[1..], rest, s, job) ensures GoodJob(tasks, todo, pool, s, job) {
          }
        }
      }
    }
  }

  /** No task and no agent is used twice. */
  lemma {:induction false} JobsAreInjective(tasks: map<TaskId, Task>, todo: seq<TaskId>, pool: seq<Agent>, s: Setting)
    requires Distinct(todo)
    ensures Injective(Jobs(tasks, todo, pool, s))
    decreases |todo|
  {
    if todo != [] && pool != [] {
      assert Distinct(todo[1..]);
      JobsAreInjective(tasks, todo[1..], pool, s);
      if todo[0] in tasks {
        var choice := SelectBest(tasks[todo[0]].needs, pool, s.matrix, s.score(tasks[todo[0]].needs));
        if choice.Some? {
          var rest := Without(pool, choice.value.id);
          WithoutMembers(pool, choice.value.id);
          JobsAreInjective(tasks, todo[1..], rest, s);
          JobsAreGood(tasks, todo[1..], rest, s);
          var tail := Jobs(tasks, todo[1..], rest, s);
          forall j | 0 <= j < |tail| ensures tail[j].task != todo[0] && tail[j].agent != choice.value.id {
            assert tail[j] in tail;
            assert GoodJob(tasks, todo[1..], rest, s, tail[j]);
          }
        }
      }
    }
  }

  /** Jobs follow the order of `todo`. */
  ghost predicate InOrder(todo: seq<TaskId>, jobs: seq<Job>) {
    forall i, j :: 0 <= i < j < |jobs| ==> ComesBefore(todo, jobs[i].task, jobs[j].task)
  }

  lemma {:induction false} JobsKeepOrder(tasks: map<TaskId, Task>, todo: seq<TaskId>, pool: seq<Agent>, s: Setting)
    ensures InOrder(todo, Jobs(tasks, todo, pool, s))
    decreases |todo|
  {
    if todo != [] && pool != [] {
      JobsKeepOrder(tasks, todo[1..], pool, s);
      OrderShift(todo, Jobs(tasks, todo[1..], pool, s));
      if todo[0] in tasks {
        var choice := SelectBest(tasks[todo[0]].needs, pool, s.matrix, s.score(tasks[todo[0]].needs));
        if choice.Some? {
          var rest := Without(pool, choice.value.id);
          JobsKeepOrder(tasks, todo[1..], rest, s);
          JobsAreGood(tasks, todo[1..], rest, s);
          OrderCons(todo, Job(todo[0], choice.value.id), Jobs(tasks, todo[1..], rest, s));
        }
      }
    }
  }

  lemma OrderShift(todo: seq<TaskId>, jobs: seq<Job>)
    requires todo != [] && InOrder(todo[1..], jobs)
    ensures InOrder(todo, jobs)
  {
    forall i, j | 0 <= i < j < |jobs| ensures ComesBefore(todo, jobs[i].task, jobs[j].task) {
      assert ComesBefore(todo[1..], jobs[i].task, jobs[j].task);
      var x, y :| 0 <= x < y < |todo[1..]| && todo[1..][x] == jobs[i].task && todo[1..][y] == jobs[j].task;
      assert todo[x + 1] == jobs[i].task && todo[y + 1] == jobs[j].task;
    }
  }

  lemma OrderCons(todo: seq<TaskId>, first: Job, tail: seq<Job>)
    requires todo != [] && first.task == todo[0] && InOrder(todo[1..], tail)
    requires forall job :: job in tail ==> job.task in todo[1..]
    ensures InOrder(todo, [first] + tail)
  {
    OrderShift(todo, tail);
    var jobs := [first] + tail;
    forall i, j | 0 <= i < j < |jobs| ensures ComesBefore(todo, jobs[i].task, jobs[j].task) {
      assert jobs[j] == tail[j - 1] && tail[j - 1] in tail;
      if i == 0 {
        var y :| 0 <= y < |todo[1..]| && todo[1..][y] == tail[j - 1].task;
        assert todo[0] == first.task && todo[y + 1] == tail[j - 1].task;
      } else {
        assert ComesBefore(todo, tail[i - 1].task, tail[j - 1].task);
      }
    }
  }

  /** Jobs go out by priority, and by age within a priority. */
  ghost predicate UrgentFirst(tasks: map<TaskId, Task>, jobs: seq<Job>) {
    && (forall job :: job in jobs ==> job.task in tasks)
    && forall i, j :: 0 <= i < j < |jobs| ==>
         || tasks[jobs[i].task].priority > tasks[jobs[j].task].priority
         || (tasks[jobs[i].task].priority == tasks[jobs[j].task].priority
             && tasks[jobs[i].task].createdAt <= tasks[jobs[j].task].createdAt)
  }

  lemma JobsByPriority(tasks: map<TaskId, Task>, todo: seq<TaskId>, pool: seq<Agent>, s: Setting)
    requires forall t :: t in todo ==> t in tasks
    requires forall i, j :: 0 <= i < j < |todo| ==>
      || tasks[todo[i]].priority > tasks[todo[j]].priority
      || (tasks[todo[i]].priority == tasks[todo[j]].priority && tasks[todo[i]].createdAt <= tasks[todo[j]].createdAt)
    ensures UrgentFirst(tasks, Jobs(tasks, todo, pool, s))
  {
    var jobs := Jobs(tasks, todo, pool, s);
    JobsAreGood(tasks, todo, pool, s);
    JobsKeepOrder(tasks, todo, pool, s);
    forall job | job in jobs ensures job.task in tasks {
      assert GoodJob(tasks, todo, pool, s, job);
    }
    forall i, j | 0 <= i < j < |jobs|
      ensures jobs[i].task in tasks && jobs[j].task in tasks
      ensures tasks[jobs[i].task].priority > tasks[jobs[j].task].priority ||
        (tasks[jobs[i].task].priority == tasks[jobs[j].task].priority && tasks[jobs[i].task].createdAt <= tasks[jobs[j].task].createdAt)
    {
      assert jobs[i] in jobs && jobs[j] in jobs;
      assert ComesBefore(todo, jobs[i].task, jobs[j].task);
      var x, y :| 0 <= x < y < |todo| && todo[x] == jobs[i].task && todo[y] == jobs[j].task;
    }
  }

  ghost predicate ComesBefore(todo: seq<TaskId>, a: TaskId, b: TaskId) {
    exists x, y :: 0 <= x < y < |todo| && todo[x] == a && todo[y] == b
  }

  ghost predicate HasJob(jobs: seq<Job>, t: TaskId) {
    exists job :: job in jobs && job.task == t
  }

  /** One of the jobs gives the agent to one of the tasks. */
  ghost predicate GoneTo(jobs: seq<Job>, agent: AgentId, tasks: seq<TaskId>) {
    exists job :: job in jobs && job.agent == agent && job.task in tasks
  }

  lemma GoneToLater(jobs: seq<Job>, first: seq<Job>, agent: AgentId, todo: seq<TaskId>, i: nat)
    requires 0 < i <= |todo| && GoneTo(jobs, agent, todo[1..][..i - 1])
    ensures GoneTo(first + jobs, agent, todo[..i])
  {
    var job :| job in jobs && job.agent == agent && job.task in todo[1..][..i - 1];
    var k :| 0 <= k < i - 1 && todo[1..][..i - 1][k] == job.task;
    assert todo[..i][k + 1] == job.task && job in first + jobs;
  }

  /** The first of `todo`, if the pass takes it, with the agent it gets. */
  function Taken(tasks: map<TaskId, Task>, todo: seq<TaskId>, pool: seq<Agent>, s: Setting): Option<Agent> {
    if todo == [] || pool == [] || todo[0] !in tasks || !tasks[todo[0]].state.IsRunnableCandidate() || todo[0] in s.denied
    then None
    else SelectBest(tasks[todo[0]].needs, pool, s.matrix, s.score(tasks[todo[0]].needs))
  }

  lemma JobsOfTaken(tasks: map<TaskId, Task>, todo: seq<TaskId>, pool: seq<Agent>, s: Setting)
    requires todo != [] && pool != []
    ensures var choice := Taken(tasks, todo, pool, s);
      Jobs(tasks, todo, pool, s) ==
        if choice == None then Jobs(tasks, todo[1..], pool, s)
        else [Job(todo[0], choice.value.id)] + Jobs(tasks, todo[1..], Without(pool, choice.value.id), s)
  {
  }

  /** A task is passed over only if its lease was refused or every agent eligible for it had gone to
      a task considered earlier. */
  lemma {:induction false} NoneSkipped(tasks: map<TaskId, Task>, todo: seq<TaskId>, pool: seq<Agent>, s: Setting,
                                       i: nat, a: Agent)
    requires Distinct(todo) && i < |todo| && todo[i] in tasks && tasks[todo[i]].state.IsRunnableCandidate()
    requires todo[i] !in s.denied && !HasJob(Jobs(tasks, todo, pool, s), todo[i])
    requires a in pool && Eligible(tasks[todo[i]].needs, s.matrix, a)
    ensures GoneTo(Jobs(tasks, todo, pool, s), a.id, todo[..i])
    decreases |todo|
  {
    var choice := Taken(tasks, todo, pool, s);
    JobsOfTaken(tasks, todo, pool, s);
    if i == 0 {
      SelectsBest(tasks[todo[0]].needs, pool, s.matrix, s.score(tasks[todo[0]].needs));
      FirstHasJob(tasks, todo, pool, s);
      assert false;
    } else if choice.Some? && a.id == choice.value.id {
      assert todo[..i][0] == todo[0] && Jobs(tasks, todo, pool, s)[0] == Job(todo[0], a.id);
    } else {
      var rest := if choice.Some? then Without(pool, choice.value.id) else pool;
      var first := if choice.Some? then [Job(todo[0], choice.value.id)] else [];
      RestKeeps(pool, choice, a);
      assert Distinct(todo[1..]) && todo[1..][i - 1] == todo[i];
      var tail := Jobs(tasks, todo[1..], rest, s);
      assert Jobs(tasks, todo, pool, s) == first + tail;
      if HasJob(tail, todo[i]) {
        LaterHasJob(first, tail, todo[i]);
      }
      NoneSkipped(tasks, todo[1..], rest, s, i - 1, a);
      GoneToLater(tail, first, a.id, todo, i);
    }
  }

  lemma FirstHasJob(tasks: map<TaskId, Task>, todo: seq<TaskId>, pool: seq<Agent>, s: Setting)
    requires todo != [] && pool != [] && Taken(tasks, todo, pool, s).Some?
    ensures HasJob(Jobs(tasks, todo, pool, s), todo[0])
  {
    JobsOfTaken(tasks, todo, pool, s);
    assert Jobs(tasks, todo, pool, s)[0].task == todo[0];
  }

  lemma LaterHasJob(first: seq<Job>, tail: seq<Job>, t: TaskId)
    requires HasJob(tail, t)
    ensures HasJob(first + tail, t)
  {
    var job :| job in tail && job.task == t;
    assert job in first + tail;
  }

  lemma RestKeeps(pool: seq<Agent>, choice: Option<Agent>, a: Agent)
    requires a in pool && (choice.Some? ==> choice.value.id != a.id)
    ensures a in if choice.Some? then Without(pool, choice.value.id) else pool
  {
    if choice.Some? {
      WithoutMembers(pool, choice.value.id);
    }
  }

  // ----- the pass over the store -----

  /** `todo` lists the runnable tasks, once each, in priority order. */
  ghost predicate RunnableOrder(tasks: map<TaskId, Task>, d: Deps, todo: seq<TaskId>) {
    Distinct(todo) && (forall t :: t in todo <==> IsRunnable(tasks, d, t)) && ByPriority(tasks, todo)
  }

  /** The store after the jobs are handed out: each job's task is assigned to its agent. */
  function Dispatched(tasks: map<TaskId, Task>, jobs: seq<Job>): map<TaskId, Task> {
    if jobs == [] then tasks
    else
      var n := |jobs| - 1;
      var before := Dispatched(tasks, jobs[..n]);
      if jobs[n].task in before then
        before[jobs[n].task := before[jobs[n].task].(state := Assigned, assignedAgent := Some(jobs[n].agent))]
      else before
  }

  /** Every task with a job is assigned to its agent, which holds the lease; the others are as they were. */
  lemma {:induction false} HandedMeans(tasks: map<TaskId, Task>, leases: map<TaskId, AgentId>, jobs: seq<Job>)
    requires Injective(jobs) && forall job :: job in jobs ==> job.task in tasks
    ensures var after := Dispatched(tasks, jobs);
      && after.Keys == tasks.Keys
      && (forall t :: t in tasks && !HasJob(jobs, t) ==> after[t] == tasks[t])
      && (forall job :: job in jobs ==> after[job.task] == tasks[job.task].(state := Assigned, assignedAgent := Some(job.agent)))
    ensures forall job :: job in jobs ==> job.task in Leased(leases, jobs) && Leased(leases, jobs)[job.task] == job.agent
    ensures forall t :: !HasJob(jobs, t) ==> (t in Leased(leases, jobs) <==> t in leases)
  {
    if jobs != [] {
      var n := |jobs| - 1;
      var last := jobs[n];
      assert forall job :: job in jobs <==> job in jobs[..n] || job == last;
      HandedMeans(tasks, leases, jobs[..n]);
      assert !HasJob(jobs[..n], last.task);
      forall t ensures HasJob(jobs, t) <==> HasJob(jobs[..n], t) || t == last.task {
      }
    }
  }

  /** The leases after the jobs are handed out. */
  function Leased(leases: map<TaskId, AgentId>, jobs: seq<Job>): map<TaskId, AgentId> {
    if jobs == [] then leases
    else var n := |jobs| - 1; Leased(leases, jobs[..n])[jobs[n].task := jobs[n].agent]
  }

  /** How the matching unfolds at position `i`. */
  lemma JobsUnfold(tasks: map<TaskId, Task>, todo: seq<TaskId>, i: nat, pool: seq<Agent>, s: Setting)
    requires i < |todo| && todo[i] in tasks
    ensures var rest := Jobs(tasks, todo[i + 1..], pool, s);
      Jobs(tasks, todo[i..], pool, s) ==
        if pool == [] then []
        else if !tasks[todo[i]].state.IsRunnableCandidate() || todo[i] in s.denied then rest
        else
          match SelectBest(tasks[todo[i]].needs, pool, s.matrix, s.score(tasks[todo[i]].needs))
          case None => rest
          case Some(a) => [Job(todo[i], a.id)] + Jobs(tasks, todo[i + 1..], Without(pool, a.id), s)
  {
    assert todo[i..][1..] == todo[i + 1..];
  }

  /** `jobs` is the matching up to position `i`, with `pool` left over. */
  ghost predicate OnCourse(tasks: map<TaskId, Task>, todo: seq<TaskId>, agents: seq<Agent>, s: Setting,
                           i: nat, pool: seq<Agent>, jobs: seq<Job>) {
    i <= |todo| && jobs + Jobs(tasks, todo[i..], pool, s) == Jobs(tasks, todo, agents, s)
  }

  lemma CourseStep(tasks: map<TaskId, Task>, todo: seq<TaskId>, agents: seq<Agent>, s: Setting, i: nat, pool: seq<Agent>, jobs: seq<Job>)
    requires OnCourse(tasks, todo, agents, s, i, pool, jobs) && i < |todo| && todo[i] in tasks
    ensures pool == [] ==> jobs == Jobs(tasks, todo, agents, s)
    ensures !tasks[todo[i]].state.IsRunnableCandidate() || (pool != [] && Refused(tasks, todo[i], s, pool)) ==>
      OnCourse(tasks, todo, agents, s, i + 1, pool, jobs)
  {
    JobsUnfold(tasks, todo, i, pool, s);
    if pool == [] {
      assert jobs + [] == jobs;
      assert Jobs(tasks, todo[i + 1..], pool, s) == [];
    }
  }

  predicate Refused(tasks: map<TaskId, Task>, t: TaskId, s: Setting, pool: seq<Agent>)
    requires t in tasks
  {
    t in s.denied || SelectBest(tasks[t].needs, pool, s.matrix, s.score(tasks[t].needs)) == None
  }

  lemma CourseTakes(tasks: map<TaskId, Task>, todo: seq<TaskId>, agents: seq<Agent>, s: Setting, i: nat, pool: seq<Agent>, jobs: seq<Job>)
    requires OnCourse(tasks, todo, agents, s, i, pool, jobs) && i < |todo| && todo[i] in tasks && pool != []
    requires tasks[todo[i]].state.IsRunnableCandidate() && !Refused(tasks, todo[i], s, pool)
    ensures var a := SelectBest(tasks[todo[i]].needs, pool, s.matrix, s.score(tasks[todo[i]].needs)).value;
      OnCourse(tasks, todo, agents, s, i + 1, Without(pool, a.id), jobs + [Job(todo[i], a.id)])
  {
    JobsUnfold(tasks, todo, i, pool, s);
    var a := SelectBest(tasks[todo[i]].needs, pool, s.matrix, s.score(tasks[todo[i]].needs)).value;
    JobsRegroup(jobs, Job(todo[i], a.id), Jobs(tasks, todo[i + 1..], Without(pool, a.id), s));
  }

  lemma JobsRegroup(jobs: seq<Job>, job: Job, rest: seq<Job>)
    ensures jobs + ([job] + rest) == jobs + [job] + rest
  {
  }

  class WorkflowScheduler {
    var tasks: map<TaskId, Task>
    var agents: seq<Agent>
    var leases: map<TaskId, AgentId>
    var claimed: seq<Job>

    constructor (tasks: map<TaskId, Task>, agents: seq<Agent>)
      ensures this.tasks == tasks && this.agents == agents && leases == map[] && claimed == []
    {
      this.tasks, this.agents, leases, claimed := tasks, agents, map[], [];
    }

    /** Takes the lease, moves the task through `Ready` to `Assigned`, and enqueues the command. */
    method HandOut(job: Job)
      requires job.task in tasks && tasks[job.task].state.IsRunnableCandidate()
      modifies this`tasks, this`leases, this`claimed
      ensures tasks == old(tasks)[job.task := old(tasks)[job.task].(state := Assigned, assignedAgent := Some(job.agent))]
      ensures leases == old(leases)[job.task := job.agent]
      ensures claimed == old(claimed) + [job]
    {
      leases := leases[job.task := job.agent];
      var task := tasks[job.task];
      var ready := match task.TransitionTo(Ready) case Ok(t) => t case Err(_) => task;
      var handed := ready.TransitionTo(Assigned);
      tasks := tasks[job.task := handed.value.(assignedAgent := Some(job.agent))];
      claimed := claimed + [job];
    }

    /** One pass: leases, assigns and enqueues a job for every match. `graph` is the workflow's graph
        as loaded from the store. */
    method Pass(graph: TaskGraph, s: Setting) returns (jobs: seq<Job>, todo: seq<TaskId>)
      requires graph.Mirrored() && graph.tasks == tasks
      modifies this`tasks, this`leases, this`claimed
      ensures RunnableOrder(old(tasks), graph.dependencies, todo)
      ensures jobs == Jobs(old(tasks), todo, IdleAgents(agents), s)
      ensures UrgentFirst(old(tasks), jobs)
      ensures tasks.Keys == old(tasks).Keys && forall t :: t in tasks && !HasJob(jobs, t) ==> tasks[t] == old(tasks)[t]
      ensures forall job :: job in jobs ==> job.task in leases && leases[job.task] == job.agent
      ensures forall job :: job in jobs ==> job.task in old(tasks)
      ensures forall job :: job in jobs ==>
        tasks[job.task] == old(tasks)[job.task].(state := Assigned, assignedAgent := Some(job.agent))
      ensures Handed(old(tasks), old(leases), old(claimed), jobs)
    {
      todo := graph.FindRunnableTasks();
      JobsByPriority(tasks, todo, IdleAgents(agents), s);
      jobs := Match(todo, s);
      JobsAreInjective(old(tasks), todo, IdleAgents(agents), s);
      HandedMeans(old(tasks), old(leases), jobs);
    }

    /** What handing out `jobs` does to the stores. */
    ghost predicate Handed(wasTasks: map<TaskId, Task>, wasLeases: map<TaskId, AgentId>, wasClaimed: seq<Job>, jobs: seq<Job>)
      reads this
    {
      tasks == Dispatched(wasTasks, jobs) && leases == Leased(wasLeases, jobs) && claimed == wasClaimed + jobs
    }

    method HandOutNext(job: Job, ghost wasTasks: map<TaskId, Task>, ghost wasLeases: map<TaskId, AgentId>,
                       ghost wasClaimed: seq<Job>, ghost jobs: seq<Job>)
      requires job.task in tasks && tasks[job.task].state.IsRunnableCandidate() && Handed(wasTasks, wasLeases, wasClaimed, jobs)
      modifies this`tasks, this`leases, this`claimed
      ensures Handed(wasTasks, wasLeases, wasClaimed, jobs + [job])
      ensures forall t :: t in old(tasks) && t != job.task ==> t in tasks && tasks[t] == old(tasks)[t]
    {
      assert (jobs + [job])[..|jobs|] == jobs;
      HandOut(job);
    }

    method Match(runnable: seq<TaskId>, s: Setting) returns (jobs: seq<Job>)
      requires Distinct(runnable) && forall t :: t in runnable ==> t in tasks
      modifies this`tasks, this`leases, this`claimed
      ensures jobs == Jobs(old(tasks), runnable, IdleAgents(agents), s)
      ensures Handed(old(tasks), old(leases), old(claimed), jobs)
    {
      var available := IdleAgents(agents);
      jobs := [];
      for i := 0 to |runnable|
        invariant OnCourse(old(tasks), runnable, IdleAgents(agents), s, i, available, jobs)
        invariant Handed(old(tasks), old(leases), old(claimed), jobs)
        invariant forall k :: i <= k < |runnable| ==> runnable[k] in tasks && tasks[runnable[k]] == old(tasks)[runnable[k]]
      {
        var taskId := runnable[i];
        CourseStep(old(tasks), runnable, IdleAgents(agents), s, i, available, jobs);
        var task := tasks[taskId];
        if !task.state.IsRunnableCandidate() {
          continue;
        }
        if available == [] {
          return;
        }
        var selected := SelectBest(task.needs, available, s.matrix, s.score(task.needs));
        if selected.Some? && taskId !in s.denied {
          var job := Job(taskId, selected.value.id);
          CourseTakes(old(tasks), runnable, IdleAgents(agents), s, i, available, jobs);
          available := Without(available, selected.value.id);
          HandOutNext(job, old(tasks), old(leases), old(claimed), jobs);
          jobs := jobs + [job];
        }
      }
    }
  }

  // ----- progress -----

  /** Every dispatched job has ended with its task verified. */
  ghost function Finished(tasks: map<TaskId, Task>, jobs: seq<Job>): map<TaskId, Task> {
    map t | t in tasks :: if HasJob(jobs, t) then tasks[t].(state := Verified) else tasks[t]
  }

  /** One cycle in which every dispatched job ends verified and its agent idle again. */
  ghost predicate Tick(tasks: map<TaskId, Task>, after: map<TaskId, Task>, d: Deps, agents: seq<Agent>, s: Setting) {
    exists todo :: RunnableOrder(tasks, d, todo) && after == Finished(tasks, Jobs(tasks, todo, IdleAgents(agents), s))
  }

  /** A task that is out of the running for good. */
  predicate SetAside(state: TaskState) {
    state == Discarded || state == Cancelled
  }

  /** Every task is verified, or waits to be run, or is set aside and nothing waits for it. */
  ghost predicate WaitingOrVerified(tasks: map<TaskId, Task>, d: Deps) {
    forall t :: t in tasks ==>
      || tasks[t].state == Verified
      || (tasks[t].state.IsRunnableCandidate() && tasks[t].assignedAgent == None)
      || (SetAside(tasks[t].state) && forall x :: !Edge(d, x, t))
  }

  /** The tasks still to be done. */
  function Unverified(tasks: map<TaskId, Task>): set<TaskId> {
    set t | t in tasks && tasks[t].state != Verified && !SetAside(tasks[t].state)
  }

  /** Every task still to be done has some idle agent that can run it. */
  ghost predicate Staffed(tasks: map<TaskId, Task>, agents: seq<Agent>, s: Setting) {
    forall t :: t in Unverified(tasks) ==> exists a :: a in IdleAgents(agents) && Eligible(tasks[t].needs, s.matrix, a)
  }

  /** While something is still to be done, an acyclic graph has a runnable task. */
  lemma SomethingRunnable(tasks: map<TaskId, Task>, d: Deps) returns (t: TaskId)
    requires tasks.Keys == d.Keys && Closed(d) && Acyclic(d) && WaitingOrVerified(tasks, d) && Unverified(tasks) != {}
    ensures IsRunnable(tasks, d, t)
  {
    t := MinimalMember(d, Unverified(tasks));
    forall p | p in d[t] ensures p in tasks && tasks[p].state == Verified {
      assert Edge(d, t, p);
      EdgeWaits(d, t, p);
      assert p !in Unverified(tasks);
    }
  }

  /** The jobs are for waiting tasks. */
  ghost predicate ForWaiting(tasks: map<TaskId, Task>, jobs: seq<Job>) {
    forall job :: job in jobs ==> job.task in tasks && tasks[job.task].state.IsRunnableCandidate()
  }

  lemma JobsForWaiting(tasks: map<TaskId, Task>, d: Deps, todo: seq<TaskId>, agents: seq<Agent>, s: Setting)
    requires RunnableOrder(tasks, d, todo)
    ensures ForWaiting(tasks, Jobs(tasks, todo, IdleAgents(agents), s))
  {
    JobsAreGood(tasks, todo, IdleAgents(agents), s);
    forall job | job in Jobs(tasks, todo, IdleAgents(agents), s)
      ensures job.task in tasks && tasks[job.task].state.IsRunnableCandidate()
    {
      assert GoodJob(tasks, todo, IdleAgents(agents), s, job);
      assert IsRunnable(tasks, d, job.task);
    }
  }

  /** Whether each task is set aside never changes. */
  ghost predicate SameAside(tasks: map<TaskId, Task>, after: map<TaskId, Task>) {
    && after.Keys == tasks.Keys
    && forall t :: t in tasks ==> if SetAside(tasks[t].state) then after[t] == tasks[t] else !SetAside(after[t].state)
  }

  /** Finishing jobs for waiting tasks verifies exactly these. */
  lemma FinishedKeeps(tasks: map<TaskId, Task>, d: Deps, jobs: seq<Job>, agents: seq<Agent>, s: Setting)
    requires WaitingOrVerified(tasks, d) && Staffed(tasks, agents, s) && ForWaiting(tasks, jobs)
    ensures var after := Finished(tasks, jobs);
      && SameAside(tasks, after) && WaitingOrVerified(after, d) && Staffed(after, agents, s)
      && Unverified(after) == set t | t in Unverified(tasks) && !HasJob(jobs, t)
  {
    FinishedAside(tasks, jobs);
    FinishedWaits(tasks, d, jobs);
    FinishedStaffed(tasks, jobs, agents, s);
    FinishedLeft(tasks, jobs);
  }

  lemma FinishedAside(tasks: map<TaskId, Task>, jobs: seq<Job>)
    requires ForWaiting(tasks, jobs)
    ensures SameAside(tasks, Finished(tasks, jobs))
  {
    forall t | t in tasks && HasJob(jobs, t) ensures tasks[t].state.IsRunnableCandidate() {
    }
  }

  lemma FinishedLeft(tasks: map<TaskId, Task>, jobs: seq<Job>)
    ensures Unverified(Finished(tasks, jobs)) == set t | t in Unverified(tasks) && !HasJob(jobs, t)
  {
  }

  lemma FinishedWaits(tasks: map<TaskId, Task>, d: Deps, jobs: seq<Job>)
    requires WaitingOrVerified(tasks, d)
    ensures WaitingOrVerified(Finished(tasks, jobs), d)
  {
  }

  lemma FinishedStaffed(tasks: map<TaskId, Task>, jobs: seq<Job>, agents: seq<Agent>, s: Setting)
    requires Staffed(tasks, agents, s)
    ensures Staffed(Finished(tasks, jobs), agents, s)
  {
    var after := Finished(tasks, jobs);
    forall t | t in Unverified(after) ensures t in Unverified(tasks) && after[t].needs == tasks[t].needs {
    }
  }

  /** Every cycle verifies at least one more task. */
  lemma TickProgress(tasks: map<TaskId, Task>, after: map<TaskId, Task>, d: Deps, agents: seq<Agent>, s: Setting)
    requires tasks.Keys == d.Keys && Closed(d) && Acyclic(d) && WaitingOrVerified(tasks, d)
    requires Staffed(tasks, agents, s) && s.denied == {} && Tick(tasks, after, d, agents, s)
    ensures SameAside(tasks, after) && WaitingOrVerified(after, d) && Staffed(after, agents, s)
    ensures Unverified(after) <= Unverified(tasks)
    ensures Unverified(tasks) != {} ==> |Unverified(after)| < |Unverified(tasks)|
  {
    var todo :| RunnableOrder(tasks, d, todo) && after == Finished(tasks, Jobs(tasks, todo, IdleAgents(agents), s));
    JobsForWaiting(tasks, d, todo, agents, s);
    FinishedKeeps(tasks, d, Jobs(tasks, todo, IdleAgents(agents), s), agents, s);
    if Unverified(tasks) != {} {
      FewerUnverified(tasks, d, todo, agents, s);
    }
  }

  // ----- there is always a next cycle -----

  lemma {:induction false} InSomeOrder(tasks: set<Task>) returns (q: seq<Task>)
    ensures multiset(q) == multiset(tasks)
    decreases tasks
  {
    q := [];
    if tasks != {} {
      var t :| t in tasks;
      var rest := InSomeOrder(tasks - {t});
      q := [t] + rest;
      assert tasks == {t} + (tasks - {t});
    }
  }

  /** Whatever state the tasks are in, a cycle can be made. */
  lemma NextTick(tasks: map<TaskId, Task>, d: Deps, agents: seq<Agent>, s: Setting) returns (after: map<TaskId, Task>)
    requires forall t :: t in tasks ==> tasks[t].id == t
    ensures Tick(tasks, after, d, agents, s) && forall t :: t in after ==> after[t].id == t
  {
    var runnable := InSomeOrder(RunnableAmong(tasks, d, tasks.Keys));
    RunnableSorted(tasks, d, runnable);
    var todo := IdsOf(SortBy(Precedes, runnable));
    assert RunnableOrder(tasks, d, todo);
    after := Finished(tasks, Jobs(tasks, todo, IdleAgents(agents), s));
  }

  /** `run` goes on from one cycle to the next. */
  ghost predicate Ticks(run: seq<map<TaskId, Task>>, d: Deps, agents: seq<Agent>, s: Setting) {
    forall i :: 0 <= i < |run| - 1 ==> Tick(run[i], run[i + 1], d, agents, s)
  }

  lemma {:induction false} RunOf(tasks: map<TaskId, Task>, d: Deps, agents: seq<Agent>, s: Setting, n: nat)
    returns (run: seq<map<TaskId, Task>>)
    requires forall t :: t in tasks ==> tasks[t].id == t
    ensures |run| == n + 1 && run[0] == tasks && Ticks(run, d, agents, s)
  {
    run := [tasks];
    if n > 0 {
      var after := NextTick(tasks, d, agents, s);
      var rest := RunOf(after, d, agents, s, n - 1);
      run := [tasks] + rest;
      forall i | 0 <= i < |run| - 1 ensures Tick(run[i], run[i + 1], d, agents, s) {
        assert i > 0 ==> Tick(rest[i - 1], rest[i], d, agents, s);
      }
    }
  }

  lemma FewerUnverified(tasks: map<TaskId, Task>, d: Deps, todo: seq<TaskId>, agents: seq<Agent>, s: Setting)
    requires tasks.Keys == d.Keys && Closed(d) && Acyclic(d) && WaitingOrVerified(tasks, d) && Unverified(tasks) != {}
    requires Staffed(tasks, agents, s) && s.denied == {} && RunnableOrder(tasks, d, todo)
    ensures |Unverified(Finished(tasks, Jobs(tasks, todo, IdleAgents(agents), s)))| < |Unverified(tasks)|
  {
    var first := FirstGoes(tasks, d, todo, agents, s);
    OneFewer(tasks, Jobs(tasks, todo, IdleAgents(agents), s), first);
  }

  lemma OneFewer(tasks: map<TaskId, Task>, jobs: seq<Job>, first: TaskId)
    requires first in Unverified(tasks) && HasJob(jobs, first)
    ensures |Unverified(Finished(tasks, jobs))| < |Unverified(tasks)|
  {
    FewerMembers(Unverified(Finished(tasks, jobs)), Unverified(tasks) - {first});
  }

  /** The task with the highest priority always finds an agent. */
  lemma FirstGoes(tasks: map<TaskId, Task>, d: Deps, todo: seq<TaskId>, agents: seq<Agent>, s: Setting)
    returns (first: TaskId)
    requires tasks.Keys == d.Keys && Closed(d) && Acyclic(d) && WaitingOrVerified(tasks, d) && Unverified(tasks) != {}
    requires Staffed(tasks, agents, s) && s.denied == {} && RunnableOrder(tasks, d, todo)
    ensures first in Unverified(tasks)
    ensures HasJob(Jobs(tasks, todo, IdleAgents(agents), s), first)
  {
    var runnable := SomethingRunnable(tasks, d);
    assert runnable in todo;
    first := todo[0];
    assert first in todo;
    SelectsBest(tasks[first].needs, IdleAgents(agents), s.matrix, s.score(tasks[first].needs));
    var jobs := Jobs(tasks, todo, IdleAgents(agents), s);
    assert jobs[0] in jobs && jobs[0].task == first;
  }

  lemma FewerMembers(a: set<TaskId>, b: set<TaskId>)
    requires a <= b
    ensures |a| <= |b|
  {
    assert b == a + (b - a);
  }

  /** Everything but what had been set aside is verified. */
  ghost predicate Completed(tasks: map<TaskId, Task>, last: map<TaskId, Task>) {
    && last.Keys == tasks.Keys
    && forall t :: t in tasks ==> if SetAside(tasks[t].state) then last[t] == tasks[t] else last[t].state == Verified
  }

  /** With enough agents and leases granted, `n` tasks to do are done within `n` cycles. */
  lemma FinishesInTime(run: seq<map<TaskId, Task>>, d: Deps, agents: seq<Agent>, s: Setting)
    requires run != [] && run[0].Keys == d.Keys && Closed(d) && Acyclic(d)
    requires WaitingOrVerified(run[0], d) && Staffed(run[0], agents, s) && s.denied == {}
    requires Ticks(run, d, agents, s) && |run| > |Unverified(run[0])|
    ensures Completed(run[0], run[|Unverified(run[0])|])
  {
    var n := |Unverified(run[0])|;
    FinishesFrom(run, d, agents, s, n);
    forall t | t in run[n] && !SetAside(run[0][t].state) ensures run[n][t].state == Verified {
      assert t !in Unverified(run[n]);
    }
  }

  lemma {:induction false} FinishesFrom(run: seq<map<TaskId, Task>>, d: Deps, agents: seq<Agent>, s: Setting, n: nat)
    requires run != [] && run[0].Keys == d.Keys && Closed(d) && Acyclic(d)
    requires WaitingOrVerified(run[0], d) && Staffed(run[0], agents, s) && s.denied == {}
    requires Ticks(run, d, agents, s)
    requires |run| > n >= |Unverified(run[0])|
    ensures Unverified(run[n]) == {} && SameAside(run[0], run[n])
    decreases n
  {
    if n > 0 {
      assert Tick(run[0], run[1], d, agents, s);
      TickProgress(run[0], run[1], d, agents, s);
      if Unverified(run[0]) == {} {
        assert Unverified(run[1]) == {};
      }
      var rest := run[1..];
      forall i | 0 <= i < |rest| - 1 ensures Tick(rest[i], rest[i + 1], d, agents, s) {
        assert Tick(run[i + 1], run[i + 2], d, agents, s);
      }
      FinishesFrom(rest, d, agents, s, n - 1);
      assert rest[n - 1] == run[n];
      SameAsideAgain(run[0], run[1], run[n]);
    }
  }

  lemma SameAsideAgain(a: map<TaskId, Task>, b: map<TaskId, Task>, c: map<TaskId, Task>)
    requires SameAside(a, b) && SameAside(b, c)
    ensures SameAside(a, c)
  {
    forall t | t in a ensures if SetAside(a[t].state) then c[t] == a[t] else !SetAside(c[t].state) {
      assert t in b;
    }
  }
}
