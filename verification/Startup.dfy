/** What startup reconciliation guarantees about the stores it leaves. */
module Startup {
  import opened Results
  import opened Core
  import opened Git
  import opened Missions
  import opened Reconciliation
  import opened Integration
  import opened Rewrites
  import opened TaskGraphs

  /** Why startup frees a task: its lease ran out, or it never had one and its workflow is active. */
  predicate Abandoned(s: Stores, now: Timestamp, t: TaskId) {
    && t in s.tasks && (s.tasks[t].state == Assigned || s.tasks[t].state == TaskState.Running)
    && (t in s.leases ==> s.leases[t] <= now)
    && (t !in s.leases ==> s.tasks[t].workflow in s.workflows && s.workflows[s.tasks[t].workflow] == Active)
  }

  /** Exactly the abandoned tasks are ready again and have no agent; every other task, in whatever state,
      is as it was. */
  lemma FreesTheAbandoned(s: Stores, now: Timestamp, repos: map<WorkspaceId, Repo>, t: TaskId)
    requires t in s.tasks
    ensures var end := StartedUp(s, now, repos);
      && end.tasks.Keys == s.tasks.Keys
      && end.tasks[t] == if Abandoned(s, now, t) then s.tasks[t].(state := Ready, assignedAgent := None) else s.tasks[t]
  {
  }

  /** A task that was abandoned runs again as soon as everything it waits for is verified. */
  lemma AbandonedRunsAgain(s: Stores, now: Timestamp, repos: map<WorkspaceId, Repo>, d: Deps, t: TaskId)
    requires Abandoned(s, now, t)
    ensures var end := StartedUp(s, now, repos);
      IsRunnable(end.tasks, d, t) <==> (t in d ==> forall p :: p in d[t] ==> p in end.tasks && end.tasks[p].state == Verified)
  {
    FreesTheAbandoned(s, now, repos, t);
  }

  /** A task still being worked on holds a lease that has not run out, unless it sits in a workflow
      that is not active and never had a lease. */
  lemma HeldIsLeased(s: Stores, now: Timestamp, repos: map<WorkspaceId, Repo>, t: TaskId)
    requires t in s.tasks && Held(StartedUp(s, now, repos).tasks[t].state)
    ensures var end := StartedUp(s, now, repos);
      (t in end.leases && end.leases[t] > now) <==> (IsActive(end, end.tasks[t].workflow) || t in s.leases)
  {
    FreesTheAbandoned(s, now, repos, t);
  }

  /** The command is addressed to the task, or carries it as its payload and is addressed to no task. */
  predicate Concerns(c: Command, t: TaskId) {
    c.target == ToTask(t) || (!c.target.ToTask? && c.payloadTask == Some(t))
  }

  /** Someone works on the task, under a lease that has not run out. */
  predicate WorkedOn(s: Stores, now: Timestamp, t: TaskId) {
    && t in s.tasks && (s.tasks[t].state == Assigned || s.tasks[t].state == TaskState.Running)
    && t in s.leases && now < s.leases[t]
  }

  /** Every command still in flight about a task has that task worked on under a lease: the later pass
      over orphans takes away nothing the pass over commands relied on. */
  lemma InFlightIsBacked(s: Stores, now: Timestamp, repos: map<WorkspaceId, Repo>, c: CommandId, t: TaskId)
    requires c in s.commands && StartedUp(s, now, repos).commands[c].state in {Dispatched, Delivered}
    requires Concerns(StartedUp(s, now, repos).commands[c], t)
    ensures var end := StartedUp(s, now, repos);
      end.commands[c] == s.commands[c] && WorkedOn(end, now, t)
  {
    var mid := Reclaimed(s, now);
    assert CommandsSettled(mid).commands[c] == s.commands[c] && !Stray(mid, t);
    FreesTheAbandoned(s, now, repos, t);
  }

  /** A command is failed exactly when it was in flight about a task nobody works on any more: it is to be
      tried again while attempts are left. */
  lemma FailsTheStray(s: Stores, now: Timestamp, repos: map<WorkspaceId, Repo>, c: CommandId)
    requires c in s.commands
    ensures var end, was := StartedUp(s, now, repos), s.commands[c];
      && end.commands.Keys == s.commands.Keys
      && (end.commands[c] != was <==>
            was.state in {Dispatched, Delivered} && exists t :: Concerns(was, t) && !WorkedOn(end, now, t))
      && (end.commands[c] != was ==>
            end.commands[c] == was.(state := if was.attempts < was.maxAttempts then AwaitingRetry else DeadLettered))
  {
    var mid, was := Reclaimed(s, now), s.commands[c];
    assert StartedUp(s, now, repos).commands == CommandsSettled(mid).commands;
    forall t ensures Concerns(was, t) <==> was.About() == Some(t) {
    }
    if was.About().Some? {
      StrayThroughout(s, now, repos, was.About().value);
      LeasesLast(s, now, repos, was.About().value);
    }
  }

  lemma LeasesLast(s: Stores, now: Timestamp, repos: map<WorkspaceId, Repo>, t: TaskId)
    ensures Stray(StartedUp(s, now, repos), t) <==> !WorkedOn(StartedUp(s, now, repos), now, t)
  {
  }

  /** A task that nobody works on after the lease pass is in the same position at the end, and the
      other way round. */
  lemma StrayThroughout(s: Stores, now: Timestamp, repos: map<WorkspaceId, Repo>, t: TaskId)
    ensures Stray(Reclaimed(s, now), t) <==> Stray(StartedUp(s, now, repos), t)
  {
    if t in s.tasks {
      FreesTheAbandoned(s, now, repos, t);
    }
  }

  /** Exactly the executions in progress of freed tasks have failed. */
  lemma FailsTheirExecutions(s: Stores, now: Timestamp, repos: map<WorkspaceId, Repo>, e: ExecutionId)
    requires e in s.executions
    ensures var end := StartedUp(s, now, repos);
      && end.executions.Keys == s.executions.Keys
      && end.executions[e] ==
           if s.executions[e].state == InProgress && Abandoned(s, now, s.executions[e].task)
           then s.executions[e].(state := Broken) else s.executions[e]
  {
    FreedEither(s, now, s.executions[e].task);
    FreeBoth(s.tasks, s.executions, HeldAmong(s.tasks, ExpiredLeases(s, now)), Orphans(CommandsSettled(Reclaimed(s, now)), s.workflows.Keys));
  }

  lemma FreedEither(s: Stores, now: Timestamp, t: TaskId)
    ensures t in HeldAmong(s.tasks, ExpiredLeases(s, now)) + Orphans(CommandsSettled(Reclaimed(s, now)), s.workflows.Keys)
       <==> Abandoned(s, now, t)
  {
  }

  /** A mission interrupted while integrating is integrated exactly when its workspace can be read and the branch
      it was meant for contains its commit; otherwise it is accepted again. All others are untouched. The commit
      and the branch are those of the mission, failing that of its intent, and of its intent, failing that the
      ones of the mission, failing that the main branch. */
  lemma SettlesTheInterrupted(s: Stores, now: Timestamp, repos: map<WorkspaceId, Repo>, m: MissionId)
    requires m in s.missions
    ensures var end, was := StartedUp(s, now, repos).missions, s.missions[m];
      && end.Keys == s.missions.Keys
      && (was.state != MissionState.Integrating ==> end[m] == was)
      && (was.state == MissionState.Integrating && ReadyToLand(was, repos) ==> end[m].state == Integrated && end[m] == was.(state := Integrated, target := end[m].target))
      && (was.state == MissionState.Integrating && ReadyToLand(was, repos) ==> end[m].target == Some(MeantFor(was)))
      && (was.state == MissionState.Integrating && !ReadyToLand(was, repos) ==> end[m] == was.(state := Accepted))
  {
  }

  function MeantFor(m: Mission): Branch {
    match (m.intent, m.target)
    case (Some(intent), _) => intent.target
    case (None, Some(target)) => target
    case (None, None) => Branch(0)
  }

  ghost predicate ReadyToLand(m: Mission, repos: map<WorkspaceId, Repo>) {
    && m.workspace.Some? && m.workspace.value in repos
    && match (m.commit, m.intent)
       case (Some(c), _) => repos[m.workspace.value].Contains(MeantFor(m), c)
       case (None, Some(intent)) => repos[m.workspace.value].Contains(MeantFor(m), intent.candidate)
       case (None, None) => false
  }

  /** Startup does to missions what a restart does in the protocol. */
  lemma StartupIsRestart(s: Stores, now: Timestamp, p: State)
    requires p.missions == s.missions
    ensures StartedUp(s, now, p.repos).missions == Restarted(p).missions
  {
  }

  /** Running startup again changes nothing, unless a lease ran out in between. */
  lemma SecondRunIsIdle(s: Stores, now: Timestamp, later: Timestamp, repos: map<WorkspaceId, Repo>)
    ensures var end := StartedUp(s, now, repos);
      StartedUp(end, later, repos) == end <==> forall t :: t in end.leases ==> end.leases[t] > later
  {
    var end := StartedUp(s, now, repos);
    if forall t :: t in end.leases ==> end.leases[t] > later {
      Settled(s, now, repos);
      IdleWhenSettled(end, later, repos);
    } else {
      var t :| t in end.leases && end.leases[t] <= later;
      assert t !in Reclaimed(end, later).leases;
    }
  }

  /** Nothing is left for the passes over commands, orphans and missions. */
  ghost predicate Quiet(s: Stores) {
    && Orphans(s, s.workflows.Keys) == {}
    && (forall c :: c in s.commands ==> !ToFail(s, s.commands[c]))
    && (forall m :: m in s.missions ==> s.missions[m].state != MissionState.Integrating)
  }

  lemma Settled(s: Stores, now: Timestamp, repos: map<WorkspaceId, Repo>)
    ensures Quiet(StartedUp(s, now, repos))
  {
    var end := StartedUp(s, now, repos);
    forall c | c in end.commands ensures !ToFail(end, end.commands[c]) {
      if end.commands[c].InFlight() && end.commands[c].About().Some? {
        InFlightIsBacked(s, now, repos, c, end.commands[c].About().value);
      }
    }
    NoOrphansLeft(s, now, repos);
  }

  lemma NoOrphansLeft(s: Stores, now: Timestamp, repos: map<WorkspaceId, Repo>)
    ensures var end := StartedUp(s, now, repos);
      Orphans(end, end.workflows.Keys) == {}
  {
    var end := StartedUp(s, now, repos);
    forall t | t in end.tasks ensures t !in Orphans(end, end.workflows.Keys) {
      if Held(end.tasks[t].state) {
        HeldIsLeased(s, now, repos, t);
      }
    }
  }

  lemma IdleWhenSettled(s: Stores, now: Timestamp, repos: map<WorkspaceId, Repo>)
    requires Quiet(s) && forall t :: t in s.leases ==> s.leases[t] > now
    ensures StartedUp(s, now, repos) == s
  {
    FreeNone(s.tasks, s.executions);
    assert ExpiredLeases(s, now) == {} && HeldAmong(s.tasks, {}) == {};
    assert s.leases - {} == s.leases;
    assert Reclaimed(s, now) == s;
    assert CommandsSettled(s).commands == s.commands;
    assert MissionsSettled(s, repos).missions == s.missions;
  }
}
