/** Bringing durable state back in line after a restart: expired leases, orphaned tasks, executions and
    commands, and interrupted integrations. */
module Reconciliation {
  import opened Results
  import opened Core
  import opened Git
  import opened Missions

  datatype ExecutionId = ExecutionId(uuid: nat)
  datatype CommandId = CommandId(uuid: nat)

  datatype ExecutionState = Pending | InProgress | Done | Broken | TimedOut | Stopped
  {
    predicate CanTransitionTo(next: ExecutionState) {
      this == next ||
      match this
      case Pending => next in {InProgress, Stopped}
      case InProgress => next in {Done, Broken, TimedOut, Stopped}
      case _ => false
    }
  }

  /** An execution fails only while it is under way, and what has ended stays so. */
  lemma ExecutionsEnd(a: ExecutionState, b: ExecutionState)
    ensures a.CanTransitionTo(b) && a != b <==>
      if b == InProgress then a == Pending else if b == Stopped then a in {Pending, InProgress} else b != Pending && a == InProgress
  {
  }

  datatype Execution = Execution(task: TaskId, state: ExecutionState)
  {
    /** A refused transition leaves the execution alone. */
    function MarkFailed(): Execution {
      if state.CanTransitionTo(Broken) then this.(state := Broken) else this
    }
  }

  datatype CommandState = Queued | Dispatched | Delivered | Confirmed | Faulted | AwaitingRetry | DeadLettered

  datatype CommandTarget = ToAgent(agent: AgentId) | ToTask(task: TaskId) | ToWorkflow(workflow: WorkflowId) | ToSystem

  datatype Command = Command(
    target: CommandTarget, payloadTask: Option<TaskId>, state: CommandState, attempts: nat, maxAttempts: nat)
  {
    /** The task a command is about, by its target or else by its payload. */
    function About(): Option<TaskId> {
      if target.ToTask? then Some(target.task) else payloadTask
    }

    predicate InFlight() { state == Dispatched || state == Delivered }

    function MarkFailed(): Command {
      this.(state := if attempts >= maxAttempts then DeadLettered else AwaitingRetry)
    }
  }

  datatype WorkflowState = Draft | Active | OnHold | Finished | Abandoned

  /** The durable state; a lease is kept as the time it expires. */
  datatype Stores = Stores(
    tasks: map<TaskId, Task>,
    leases: map<TaskId, Timestamp>,
    executions: map<ExecutionId, Execution>,
    commands: map<CommandId, Command>,
    workflows: map<WorkflowId, WorkflowState>,
    missions: map<MissionId, Mission>)

  /** Someone is meant to be working on the task. */
  predicate Held(state: TaskState) {
    state == Assigned || state == TaskState.Running
  }

  function HeldAmong(tasks: map<TaskId, Task>, ids: set<TaskId>): set<TaskId> {
    set t | t in ids && t in tasks && Held(tasks[t].state)
  }

  function Freed(t: Task): Task {
    t.(state := Ready, assignedAgent := None)
  }

  /** The held tasks among `ids` are free again. */
  function Reset(tasks: map<TaskId, Task>, ids: set<TaskId>): map<TaskId, Task> {
    map t | t in tasks :: if t in ids && Held(tasks[t].state) then Freed(tasks[t]) else tasks[t]
  }

  /** The executions in progress for `ids` have failed. */
  function FailedFor(executions: map<ExecutionId, Execution>, ids: set<TaskId>): map<ExecutionId, Execution> {
    map e | e in executions ::
      if executions[e].state == InProgress && executions[e].task in ids then executions[e].MarkFailed() else executions[e]
  }

  // ----- what each pass makes of the stores -----

  function ExpiredLeases(s: Stores, now: Timestamp): set<TaskId> {
    set t | t in s.leases && s.leases[t] <= now
  }

  function Reclaimed(s: Stores, now: Timestamp): Stores {
    var gone := ExpiredLeases(s, now);
    s.(leases := s.leases - gone, tasks := Reset(s.tasks, gone), executions := FailedFor(s.executions, HeldAmong(s.tasks, gone)))
  }

  /** The task a command is about is not being worked on under a lease. */
  predicate Stray(s: Stores, t: TaskId) {
    t !in s.tasks || !Held(s.tasks[t].state) || t !in s.leases
  }

  predicate ToFail(s: Stores, c: Command) {
    c.InFlight() && c.About().Some? && Stray(s, c.About().value)
  }

  function CommandsSettled(s: Stores): Stores {
    s.(commands := map c | c in s.commands :: if ToFail(s, s.commands[c]) then s.commands[c].MarkFailed() else s.commands[c])
  }

  /** The commands once those in `done` have been looked at. */
  function SettledAmong(s: Stores, done: set<CommandId>): map<CommandId, Command> {
    map c | c in s.commands :: if c in done && ToFail(s, s.commands[c]) then s.commands[c].MarkFailed() else s.commands[c]
  }

  function FailedAmong(s: Stores, done: set<CommandId>): set<CommandId> {
    set c | c in done && c in s.commands && ToFail(s, s.commands[c])
  }

  lemma FailedOneMore(s: Stores, done: set<CommandId>, c: CommandId)
    requires c in s.commands
    ensures FailedAmong(s, done + {c}) == FailedAmong(s, done) + if ToFail(s, s.commands[c]) then {c} else {}
  {
  }

  lemma AllSettled(s: Stores, done: set<CommandId>)
    requires forall c :: c in s.commands && s.commands[c].InFlight() ==> c in done
    ensures s.(commands := SettledAmong(s, done)) == CommandsSettled(s)
    ensures FailedAmong(s, done) == set c | c in s.commands && ToFail(s, s.commands[c])
  {
  }

  predicate IsActive(s: Stores, wf: WorkflowId) {
    wf in s.workflows && s.workflows[wf] == Active
  }

  /** Held tasks of active workflows in `wfs` that no lease covers. */
  function Orphans(s: Stores, wfs: set<WorkflowId>): set<TaskId> {
    set t | t in s.tasks && Held(s.tasks[t].state) && t !in s.leases && s.tasks[t].workflow in wfs && IsActive(s, s.tasks[t].workflow)
  }

  function OrphansReset(s: Stores, wfs: set<WorkflowId>): Stores {
    s.(tasks := Reset(s.tasks, Orphans(s, wfs)), executions := FailedFor(s.executions, Orphans(s, wfs)))
  }

  ghost function MissionsSettled(s: Stores, repos: map<WorkspaceId, Repo>): Stores {
    s.(missions := map m | m in s.missions :: Reconciled(s.missions[m], repos))
  }

  ghost function StartedUp(s: Stores, now: Timestamp, repos: map<WorkspaceId, Repo>): Stores {
    MissionsSettled(OrphansReset(CommandsSettled(Reclaimed(s, now)), s.workflows.Keys), repos)
  }

  // ----- the passes -----

  /** What a reconciliation reports having found and done. */
  datatype Report = Report(
    expired: set<TaskId>, unassigned: set<TaskId>, executions: set<ExecutionId>, commands: set<CommandId>,
    resumable: set<WorkflowId>, settled: set<MissionId>, missing: set<TaskId>)

  class Reconciler {
    var tasks: map<TaskId, Task>
    var leases: map<TaskId, Timestamp>
    var executions: map<ExecutionId, Execution>
    var commands: map<CommandId, Command>
    var workflows: map<WorkflowId, WorkflowState>
    var missions: map<MissionId, Mission>
    const repos: map<WorkspaceId, Repo>

    ghost function State(): Stores
      reads this
    {
      Stores(tasks, leases, executions, commands, workflows, missions)
    }

    ghost predicate Valid()
      reads this
    {
      forall ws :: ws in repos ==> repos[ws].Valid()
    }

    /** Fails the executions in progress for a task. */
    method FailExecutions(t: TaskId) returns (failed: set<ExecutionId>)
      modifies `executions
      ensures executions == FailedFor(old(executions), {t})
      ensures failed == set e | e in old(executions) && old(executions)[e].task == t && old(executions)[e].state == InProgress
    {
      var listed := set e | e in executions && executions[e].task == t;
      failed := {};
      var pending := listed;
      while pending != {}
        invariant pending <= listed && executions.Keys == old(executions).Keys
        invariant failed == set e | e in listed - pending && old(executions)[e].state == InProgress
        invariant forall e :: e in executions ==>
          executions[e] == if e in failed then old(executions)[e].MarkFailed() else old(executions)[e]
      {
        var e :| e in pending;
        pending := pending - {e};
        if executions[e].state == InProgress {
          executions, failed := executions[e := executions[e].MarkFailed()], failed + {e};
        }
      }
    }

    /** Frees a held task and fails its executions. */
    method FreeTask(t: TaskId) returns (failed: set<ExecutionId>)
      requires t in tasks && Held(tasks[t].state)
      modifies `tasks, `executions
      ensures tasks == Reset(old(tasks), {t}) && executions == FailedFor(old(executions), {t})
      ensures failed == Changed(old(executions), executions)
    {
      var freed := tasks[t].Unassign();
      tasks := tasks[t := freed.value];
      failed := FailExecutions(t);
      FailedChanges(old(executions), {t});
    }

    /** The lease store drops what has expired and tells whose leases those were. */
    method ReclaimExpiredLeases(now: Timestamp) returns (gone: set<TaskId>)
      modifies `leases
      ensures gone == ExpiredLeases(old(State()), now) && leases == old(leases) - gone
    {
      gone := set t | t in leases && leases[t] <= now;
      leases := leases - gone;
    }

    /** Frees the task of an expired lease, if it is there and held. */
    method ReclaimTask(t: TaskId, report: Report) returns (report': Report)
      modifies `tasks, `executions
      ensures tasks == Reset(old(tasks), {t}) && executions == FailedFor(old(executions), HeldAmong(old(tasks), {t}))
      ensures report'.unassigned == report.unassigned + HeldAmong(old(tasks), {t})
      ensures report'.missing == report.missing + ({t} - tasks.Keys)
      ensures report'.executions == report.executions + Changed(old(executions), executions)
      ensures report' == report.(unassigned := report'.unassigned, missing := report'.missing, executions := report'.executions)
    {
      report' := report;
      if t !in tasks {
        report' := report.(missing := report.missing + {t});
      } else if Held(tasks[t].state) {
        assert HeldAmong(tasks, {t}) == {t};
        var failed := FreeTask(t);
        report' := report.(unassigned := report.unassigned + {t}, executions := report.executions + failed);
      }
    }

    method ReclaimTasks(now: Timestamp) returns (report: Report)
      modifies `tasks, `leases, `executions
      ensures State() == Reclaimed(old(State()), now)
      ensures report.expired == ExpiredLeases(old(State()), now) && report.unassigned == HeldAmong(old(tasks), report.expired)
      ensures report.missing == report.expired - tasks.Keys && report.commands == {} && report.resumable == {} && report.settled == {}
      ensures report.executions == Changed(old(executions), executions)
    {
      var gone := ReclaimExpiredLeases(now);
      report := Report(gone, {}, {}, {}, {}, {}, {});
      var pending := gone;
      ghost var done: set<TaskId> := {};
      while pending != {}
        invariant gone == done + pending && done !! pending && leases == old(leases) - gone
        invariant tasks == Reset(old(tasks), done) && executions == FailedFor(old(executions), HeldAmong(old(tasks), done))
        invariant report.expired == gone && report.commands == {} && report.resumable == {} && report.settled == {}
        invariant report.executions == Changed(old(executions), executions)
        invariant report.unassigned == HeldAmong(old(tasks), done) && report.missing == done - old(tasks).Keys
      {
        var t :| t in pending;
        ghost var mid := executions;
        report := ReclaimTask(t, report);
        ChangedInTurn(old(executions), HeldAmong(old(tasks), done), mid, HeldAmong(Reset(old(tasks), done), {t}), executions);
        ResetOneMore(old(tasks), old(executions), done, t);
        pending, done := pending - {t}, done + {t};
      }
    }

    /** Fails one in-flight command if its task is not being worked on under a lease. */
    method ReconcileCommand(c: CommandId, report: Report, ghost was: Stores, ghost done: set<CommandId>) returns (report': Report)
      requires c in was.commands && c !in done && was.commands[c].InFlight()
      requires State() == was.(commands := SettledAmong(was, done))
      modifies `commands
      ensures State() == was.(commands := SettledAmong(was, done + {c}))
      ensures report' == report.(commands := report.commands + if ToFail(was, was.commands[c]) then {c} else {})
    {
      report' := report;
      var about := commands[c].About();
      if about.Some? {
        var t := about.value;
        var shouldCancel := t !in tasks || (tasks[t].state != TaskState.Running && tasks[t].state != Assigned) || t !in leases;
        if shouldCancel {
          commands := commands[c := commands[c].MarkFailed()];
          report' := report.(commands := report.commands + {c});
        }
      }
    }

    /** Fails in-flight commands whose task is not being worked on under a lease. */
    method ReconcileCommands(report: Report) returns (report': Report)
      modifies `commands
      ensures State() == CommandsSettled(old(State()))
      ensures report' == report.(commands := report'.commands)
      ensures report'.commands == report.commands + set c | c in old(commands) && ToFail(old(State()), old(commands)[c])
    {
      var inFlight := set c | c in commands && commands[c].InFlight();
      var pending := inFlight;
      ghost var was, done := State(), {};
      report' := report;
      assert commands == SettledAmong(was, done);
      while pending != {}
        invariant pending <= inFlight && done == inFlight - pending
        invariant State() == was.(commands := SettledAmong(was, done))
        invariant report' == report.(commands := report.commands + FailedAmong(was, done))
      {
        var c :| c in pending;
        report' := ReconcileCommand(c, report', was, done);
        FailedOneMore(was, done, c);
        pending, done := pending - {c}, done + {c};
      }
      AllSettled(was, done);
    }

    method Reconcile(now: Timestamp) returns (report: Report)
      modifies `tasks, `leases, `executions, `commands
      ensures State() == CommandsSettled(Reclaimed(old(State()), now))
      ensures report.unassigned == HeldAmong(old(tasks), ExpiredLeases(old(State()), now))
      ensures report.expired == ExpiredLeases(old(State()), now) && report.missing == report.expired - tasks.Keys
      ensures report.executions == Changed(old(executions), executions) && report.resumable == {} && report.settled == {}
      ensures report.commands == set c | c in old(commands) && ToFail(Reclaimed(old(State()), now), old(commands)[c])
    {
      report := ReclaimTasks(now);
      report := ReconcileCommands(report);
    }

    /** Frees a task of an active workflow if it is an orphan. */
    method RecoverTask(t: TaskId, report: Report) returns (report': Report)
      requires t in tasks
      modifies `tasks, `executions
      ensures tasks == Reset(old(tasks), OrphanOf(old(State()), t)) && executions == FailedFor(old(executions), OrphanOf(old(State()), t))
      ensures report'.unassigned == report.unassigned + OrphanOf(old(State()), t) && report'.resumable == report.resumable
      ensures report'.executions == report.executions + Changed(old(executions), executions) && SameOtherwise(report, report')
    {
      report' := report;
      FreeNone(tasks, executions);
      if Held(tasks[t].state) && t !in leases {
        var failed := FreeTask(t);
        report' := report.(unassigned := report.unassigned + {t}, executions := report.executions + failed);
      }
    }

    /** One more task of a workflow, after those in `done`. */
    method RecoverNext(t: TaskId, wf: WorkflowId, report: Report, ghost was: Stores, ghost done: set<TaskId>,
                       ghost freed: set<TaskId>, ghost before: set<TaskId>)
      returns (report': Report, runnable: bool, ghost freed': set<TaskId>)
      requires Recovering(was, State(), done, freed, wf) && IsActive(was, wf) && t !in done && t in was.tasks && was.tasks[t].workflow == wf
      requires report.unassigned == before + freed
      modifies `tasks, `executions
      ensures Recovering(was, State(), done + {t}, freed', wf)
      ensures report'.unassigned == before + freed' && report'.resumable == report.resumable
      ensures report'.executions == report.executions + Changed(old(executions), executions) && SameOtherwise(report, report')
      ensures SomeRunnable(tasks, done + {t}) <==> SomeRunnable(old(tasks), done) || runnable
    {
      OneOrphanMore(was, State(), done, freed, wf, t);
      freed' := freed + OrphanOf(State(), t);
      report' := RecoverTask(t, report);
      runnable := tasks[t].state.IsRunnableCandidate();
    }

    /** Frees the orphans of one active workflow and tells whether it has something to run. */
    method RecoverWorkflow(wf: WorkflowId, report: Report) returns (report': Report)
      requires IsActive(State(), wf)
      modifies `tasks, `executions
      ensures State() == OrphansReset(old(State()), {wf})
      ensures report'.unassigned == report.unassigned + Orphans(old(State()), {wf})
      ensures report'.resumable == report.resumable + if Resumable(tasks, wf) then {wf} else {}
      ensures report'.executions == report.executions + Changed(old(executions), executions) && SameOtherwise(report, report')
    {
      var listed := set t | t in tasks && tasks[t].workflow == wf;
      var pending, hasRunnable := listed, false;
      ghost var done, freed, was := {}, {}, State();
      report' := report;
      FreeNone(tasks, executions);
      while pending != {}
        invariant listed == done + pending && done !! pending
        invariant Recovering(was, State(), done, freed, wf)
        invariant report'.unassigned == report.unassigned + freed && report'.resumable == report.resumable
        invariant hasRunnable <==> SomeRunnable(tasks, done)
        invariant report'.executions == report.executions + Changed(old(executions), executions) && SameOtherwise(report, report')
      {
        var t :| t in pending;
        var runnable;
        ghost var mid, already := executions, freed;
        report', runnable, freed := RecoverNext(t, wf, report', was, done, freed, report.unassigned);
        ChangedAlong(was.executions, already, mid, freed, executions);
        hasRunnable := hasRunnable || runnable;
        pending, done := pending - {t}, done + {t};
      }
      AllRecovered(was, State(), listed, freed, wf);
      if hasRunnable {
        report' := report'.(resumable := report'.resumable + {wf});
      }
    }

    /** One more active workflow, after those in `done`. */
    method RecoverAnother(wf: WorkflowId, report: Report, ghost was: Stores, ghost done: set<WorkflowId>, ghost start: Report)
      returns (report': Report)
      requires RecoveredSoFar(was, State(), done, start, report) && wf !in done && IsActive(was, wf)
      modifies `tasks, `executions
      ensures RecoveredSoFar(was, State(), done + {wf}, start, report')
    {
      OneWorkflowMore(was, done, wf);
      ghost var mid := State();
      report' := RecoverWorkflow(wf, report);
      ResumableApart(mid, done, wf);
      ChangedInTurn(was.executions, Orphans(was, done), mid.executions, Orphans(mid, {wf}), executions);
    }

    method RecoverWorkflows(report: Report) returns (report': Report)
      modifies `tasks, `executions
      ensures RecoveredSoFar(old(State()), State(), workflows.Keys, report, report')
    {
      var active := set wf | wf in workflows && workflows[wf] == Active;
      var pending := active;
      ghost var was, done: set<WorkflowId> := State(), {};
      report' := report;
      OrphansOfNone(State());
      while pending != {}
        invariant active == done + pending && done !! pending && workflows == was.workflows
        invariant RecoveredSoFar(was, State(), done, report, report')
      {
        var wf :| wf in pending;
        report' := RecoverAnother(wf, report', was, done, report);
        pending, done := pending - {wf}, done + {wf};
      }
      AllWorkflows(was, State(), done, report, report');
    }

    /** Settles an interrupted integration by what the repository contains. */
    method SettleMission(m: Mission) returns (settled: Mission)
      requires Valid()
      ensures settled == Reconciled(m, repos)
    {
      if m.state != MissionState.Integrating {
        return m;
      }
      var candidate, target := Candidate(m), RecordedTarget(m);
      var landed := false;
      if candidate.Some? && m.workspace.Some? && m.workspace.value in repos {
        var repo := repos[m.workspace.value];
        if target in repo.heads {
          landed := IsAncestor(repo.history, candidate.value, repo.heads[target]);
        }
      }
      settled := if landed then m.(state := Integrated, target := Some(target)) else m.(state := Accepted);
    }

    method SettleMissions(report: Report) returns (report': Report)
      requires Valid()
      modifies `missions
      ensures State() == MissionsSettled(old(State()), repos)
      ensures report' == report.(settled := report'.settled)
      ensures report'.settled == report.settled + set m | m in old(missions) && old(missions)[m].state == MissionState.Integrating
    {
      var pending := missions.Keys;
      report' := report;
      while pending != {}
        invariant pending <= missions.Keys == old(missions).Keys
        invariant forall m :: m in missions ==>
          missions[m] == if m in pending then old(missions)[m] else Reconciled(old(missions)[m], repos)
        invariant report' == report.(settled := report'.settled)
        invariant report'.settled == report.settled + set m | m in old(missions).Keys - pending && old(missions)[m].state == MissionState.Integrating
      {
        var m :| m in pending;
        pending := pending - {m};
        if missions[m].state == MissionState.Integrating {
          var settled := SettleMission(missions[m]);
          missions, report' := missions[m := settled], report'.(settled := report'.settled + {m});
        }
      }
    }

    /** The whole of what a restarted server does before it takes requests. */
    method ReconcileStartup(now: Timestamp) returns (report: Report)
      requires Valid()
      modifies this
      ensures State() == StartedUp(old(State()), now, repos)
      ensures report.unassigned == set t | t in old(tasks) && tasks[t] != old(tasks)[t]
      ensures report.expired == old(leases).Keys - leases.Keys && report.missing == report.expired - tasks.Keys
      ensures report.executions == set e | e in old(executions) && executions[e] != old(executions)[e]
      ensures report.commands == set c | c in old(commands) && ToFail(Reclaimed(old(State()), now), old(commands)[c])
      ensures report.resumable == set wf | wf in workflows && workflows[wf] == Active && Resumable(tasks, wf)
      ensures report.settled == set m | m in old(missions) && old(missions)[m].state == MissionState.Integrating
    {
      report := Reconcile(now);
      ghost var mid := State();
      report := RecoverWorkflows(report);
      ChangedInTurn(old(executions), HeldAmong(old(tasks), ExpiredLeases(old(State()), now)), mid.executions,
                    Orphans(mid, workflows.Keys), executions);
      report := SettleMissions(report);
      FreedChanges(old(State()), now);
    }
  }

  /** The orphans of the active workflows in `done` are free, and the report says so. */
  ghost predicate RecoveredSoFar(was: Stores, now: Stores, done: set<WorkflowId>, start: Report, report: Report) {
    && now == OrphansReset(was, done)
    && report.unassigned == start.unassigned + Orphans(was, done)
    && report.executions == start.executions + Changed(was.executions, now.executions) && SameOtherwise(start, report)
    && report.resumable == start.resumable + ResumableAmong(now, done)
  }

  lemma AllWorkflows(was: Stores, now: Stores, done: set<WorkflowId>, start: Report, report: Report)
    requires RecoveredSoFar(was, now, done, start, report) && done == set wf | wf in was.workflows && was.workflows[wf] == Active
    ensures RecoveredSoFar(was, now, was.workflows.Keys, start, report)
  {
    assert Orphans(was, done) == Orphans(was, was.workflows.Keys);
    assert ResumableAmong(now, done) == ResumableAmong(now, was.workflows.Keys);
  }

  /** The executions that are not as they were. */
  function Changed(was: map<ExecutionId, Execution>, now: map<ExecutionId, Execution>): set<ExecutionId> {
    set e | e in was && e in now && now[e] != was[e]
  }

  /** The reports agree on leases, commands, missions and missing tasks. */
  predicate SameOtherwise(report: Report, report': Report) {
    && report'.expired == report.expired && report'.commands == report.commands
    && report'.settled == report.settled && report'.missing == report.missing
  }

  lemma FailedChanges(executions: map<ExecutionId, Execution>, ids: set<TaskId>)
    ensures Changed(executions, FailedFor(executions, ids))
         == set e | e in executions && executions[e].state == InProgress && executions[e].task in ids
  {
  }

  lemma ChangedInTurn(a: map<ExecutionId, Execution>, some: set<TaskId>, b: map<ExecutionId, Execution>, more: set<TaskId>,
                      c: map<ExecutionId, Execution>)
    requires b == FailedFor(a, some) && c == FailedFor(b, more)
    ensures Changed(a, c) == Changed(a, b) + Changed(b, c)
  {
  }

  lemma ChangedAlong(a: map<ExecutionId, Execution>, some: set<TaskId>, b: map<ExecutionId, Execution>, more: set<TaskId>,
                     c: map<ExecutionId, Execution>)
    requires b == FailedFor(a, some) && c == FailedFor(a, more) && some <= more
    ensures Changed(a, c) == Changed(a, b) + Changed(b, c)
  {
  }

  /** An active workflow is worth resuming when one of its tasks could be started. */
  ghost predicate Resumable(tasks: map<TaskId, Task>, wf: WorkflowId) {
    exists t :: t in tasks && tasks[t].workflow == wf && tasks[t].state.IsRunnableCandidate()
  }

  ghost function ResumableAmong(s: Stores, wfs: set<WorkflowId>): set<WorkflowId> {
    set wf | wf in wfs && IsActive(s, wf) && Resumable(s.tasks, wf)
  }

  /** Freeing the orphans of one workflow does not concern the others. */
  lemma ResumableApart(s: Stores, wfs: set<WorkflowId>, wf: WorkflowId)
    requires wf !in wfs && IsActive(s, wf)
    ensures var now := OrphansReset(s, {wf});
      ResumableAmong(now, wfs + {wf}) == ResumableAmong(s, wfs) + if Resumable(now.tasks, wf) then {wf} else {}
  {
    var now := OrphansReset(s, {wf});
    forall w | w in wfs ensures Resumable(now.tasks, w) <==> Resumable(s.tasks, w) {
      OthersResumable(s, wf, w);
    }
  }

  lemma OthersResumable(s: Stores, wf: WorkflowId, w: WorkflowId)
    requires w != wf
    ensures Resumable(OrphansReset(s, {wf}).tasks, w) <==> Resumable(s.tasks, w)
  {
    var now := OrphansReset(s, {wf}).tasks;
    forall t | t in s.tasks && s.tasks[t].workflow == w ensures t in now && now[t] == s.tasks[t] {
    }
    forall t | t in now && now[t].workflow == w ensures s.tasks[t] == now[t] {
    }
  }

  function OrphanOf(s: Stores, t: TaskId): set<TaskId>
    requires t in s.tasks
  {
    if Held(s.tasks[t].state) && t !in s.leases then {t} else {}
  }

  ghost predicate SomeRunnable(tasks: map<TaskId, Task>, ids: set<TaskId>) {
    exists t :: t in ids && t in tasks && tasks[t].state.IsRunnableCandidate()
  }

  /** Of one workflow's orphans those in `done` have been freed, and nothing else was changed. */
  ghost predicate Recovering(was: Stores, now: Stores, done: set<TaskId>, freed: set<TaskId>, wf: WorkflowId) {
    && freed == done * Orphans(was, {wf})
    && now == was.(tasks := Reset(was.tasks, freed), executions := FailedFor(was.executions, freed))
  }

  lemma OneOrphanMore(was: Stores, mid: Stores, done: set<TaskId>, freed: set<TaskId>, wf: WorkflowId, t: TaskId)
    requires Recovering(was, mid, done, freed, wf) && IsActive(was, wf)
    requires t !in done && t in was.tasks && was.tasks[t].workflow == wf
    ensures t in mid.tasks
    ensures var more := OrphanOf(mid, t);
      var now := mid.(tasks := Reset(mid.tasks, more), executions := FailedFor(mid.executions, more));
      && Recovering(was, now, done + {t}, freed + more, wf)
      && (SomeRunnable(now.tasks, done + {t}) <==> SomeRunnable(mid.tasks, done) || now.tasks[t].state.IsRunnableCandidate())
  {
    var more := OrphanOf(mid, t);
    assert (done + {t}) * Orphans(was, {wf}) == freed + more;
    FreeBoth(was.tasks, was.executions, freed, more);
    forall u | u in done && u in mid.tasks ensures Reset(mid.tasks, more)[u] == mid.tasks[u] {
    }
  }

  lemma AllRecovered(was: Stores, now: Stores, listed: set<TaskId>, freed: set<TaskId>, wf: WorkflowId)
    requires Recovering(was, now, listed, freed, wf)
    requires listed == set t | t in was.tasks && was.tasks[t].workflow == wf
    ensures freed == Orphans(was, {wf}) && (SomeRunnable(now.tasks, listed) <==> Resumable(now.tasks, wf))
  {
    assert listed * Orphans(was, {wf}) == Orphans(was, {wf});
  }

  /** Freeing twice is freeing once what both free. */
  lemma FreeBoth(tasks: map<TaskId, Task>, executions: map<ExecutionId, Execution>, some: set<TaskId>, more: set<TaskId>)
    ensures Reset(Reset(tasks, some), more) == Reset(tasks, some + more)
    ensures FailedFor(FailedFor(executions, some), more) == FailedFor(executions, some + more)
  {
  }

  lemma FreeNone(tasks: map<TaskId, Task>, executions: map<ExecutionId, Execution>)
    ensures Reset(tasks, {}) == tasks && FailedFor(executions, {}) == executions
  {
  }

  lemma OrphansOfNone(s: Stores)
    ensures OrphansReset(s, {}) == s && Orphans(s, {}) == {}
  {
    FreeNone(s.tasks, s.executions);
  }

  lemma OneWorkflowMore(s: Stores, wfs: set<WorkflowId>, wf: WorkflowId)
    requires wf !in wfs
    ensures OrphansReset(OrphansReset(s, wfs), {wf}) == OrphansReset(s, wfs + {wf})
    ensures Orphans(s, wfs + {wf}) == Orphans(s, wfs) + Orphans(OrphansReset(s, wfs), {wf})
  {
    OrphansApart(s, wfs, wf);
    FreeBoth(s.tasks, s.executions, Orphans(s, wfs), Orphans(s, {wf}));
  }

  lemma OrphansApart(s: Stores, wfs: set<WorkflowId>, wf: WorkflowId)
    requires wf !in wfs
    ensures Orphans(OrphansReset(s, wfs), {wf}) == Orphans(s, {wf})
    ensures Orphans(s, wfs + {wf}) == Orphans(s, wfs) + Orphans(s, {wf})
  {
  }

  /** The tasks the passes report are exactly those they change. */
  lemma FreedChanges(s: Stores, now: Timestamp)
    ensures var mid := CommandsSettled(Reclaimed(s, now));
      var end := OrphansReset(mid, mid.workflows.Keys);
      HeldAmong(s.tasks, ExpiredLeases(s, now)) + Orphans(mid, mid.workflows.Keys) == set t | t in s.tasks && end.tasks[t] != s.tasks[t]
  {
    var mid := CommandsSettled(Reclaimed(s, now));
    FreeBoth(s.tasks, s.executions, ExpiredLeases(s, now), Orphans(mid, mid.workflows.Keys));
    ResetChanges(s.tasks, ExpiredLeases(s, now) + Orphans(mid, mid.workflows.Keys));
  }

  lemma ResetChanges(tasks: map<TaskId, Task>, ids: set<TaskId>)
    ensures (set t | t in tasks && Reset(tasks, ids)[t] != tasks[t]) == HeldAmong(tasks, ids)
  {
  }

  lemma ResetOneMore(tasks: map<TaskId, Task>, executions: map<ExecutionId, Execution>, ids: set<TaskId>, t: TaskId)
    requires t !in ids
    ensures Reset(Reset(tasks, ids), {t}) == Reset(tasks, ids + {t})
    ensures HeldAmong(tasks, ids + {t}) == HeldAmong(tasks, ids) + HeldAmong(Reset(tasks, ids), {t})
    ensures FailedFor(FailedFor(executions, HeldAmong(tasks, ids)), HeldAmong(Reset(tasks, ids), {t}))
         == FailedFor(executions, HeldAmong(tasks, ids + {t}))
  {
  }
}
