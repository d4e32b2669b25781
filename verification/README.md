# A verified model of Sentinel's control plane

Sentinel supervises coding agents. A planner proposes tasks, a task graph says which task waits for
which, a scheduler hands runnable tasks to agents under leases, failures are answered by recovery and
by switching model providers, finished missions are merged into a repository once a person has
accepted them, and a restarted server repairs whatever a crash left behind.

This project models the parts of Sentinel where those promises are kept and proves them in Dafny. Code
that updates state step by step is a class or a method with loops; what it computes is tied to a
function or predicate, and the promises are lemmas about that. `dafny verify dfyconfig.toml` checks
everything.

## The pieces

- **Task graph** (`Digraph`, `Kahn`, `Core`, `TaskGraph`, `Rewrites`, `Rounds`). Tasks with two mirrored
  adjacency maps. `Waits(d, a, b)` is the ghost relation "a must wait for b, directly or through
  others"; everything is stated in terms of it: cycle checks, topological order, and what decomposing,
  replacing and inserting tasks does to every pair of tasks.
- **Planning** (`Chains`, `DepthPass`, `Validator`, `Applier`, `TaskStore`, `StoreAgreement`, `Pipeline`).
  Validation against a declarative specification, the longest chain as depth, the mapping of a
  proposal to stored tasks, the transactional decomposition in the store, and the theorem about the
  whole way from a proposal to the reloaded graph.
- **Scheduling** (`Sorting`, `Selector`, `Scheduler`, `PlanProgress`). The choice of an agent, the matching
  one pass makes, and progress over whole runs, also from a plan just applied.
- **Integration** (`Git`, `Missions`, `MissionHandlers`, `Integration`, `IntegrationRuns`,
  `IntegrationProgress`, `IntegrationLimits`). A repository is
  a commit graph with branch heads. `Integration` is the protocol: any number of integration calls,
  operators, the mission engine, other git users, crashes and restarts take steps in any order; one
  invariant holds after each, `IntegrationRuns` draws the promises about whole runs from it,
  `IntegrationProgress` shows that no call gets stuck, and `IntegrationLimits` where the promises end.
- **Restart** (`Reconciliation`, `Startup`). The passes over leases, commands, orphans and missions, and
  what they guarantee together.
- **Event feed** (`EventStream`). Replay and live broadcast merged into one feed.
- **Recovery and failover** (`Recovery`, `Reliability`, `Health`, `Failover`). Decisions driven by a task's
  history; retries, the circuit breaker, and the route of one request through the providers.

## Where code and comments differ

The model follows the code. Where the code does less than its comments or documentation say, the
project shows an input for it and proves exactly when the promise holds.

- Validation trims the ids of a proposal, the applier does not. A validated proposal can lose
  dependencies (`Pipeline.UntrimmedDependencyIsLost`); none is lost exactly when dependencies write ids
  as tasks write them (`Pipeline.NoneDroppedIffVerbatim`), and the meaning is kept exactly when the lost
  ones follow from the others (`Pipeline.MeaningKeptIffImplied`).
- The applier validates as if the workflow were empty, so the limit on its size does not bind
  (`Pipeline.LimitIsExceeded`); it is kept exactly when the plan also passes with the true number of
  tasks (`Pipeline.LimitKeptIffChecked`).
- `validate_acyclic` is commented as finding a task involved in a cycle. It may name any task behind one
  (`Kahn.Finish`, `TaskGraphs.WaiterMayBeNamed`); all of these lie on a cycle exactly when nothing off the
  cycles waits directly for something on one (`Digraph.BehindIsOnCycle`).
- `topological_sort` reports the last task it could list as involved in a cycle, or a new identifier when
  it could list none. The task named is never behind a cycle (`TaskGraphs.TaskGraph.TopologicalSort`,
  `TaskGraphs.SortNamesTheFree`). Graphs built through the public operations have no cycle, so that only a
  refused edge is ever reported.
- `Verified` is documented as a terminal state. The lifecycle table lets a verified task be retried or
  discarded; exactly cancelled and discarded tasks have no way out (`Core.OnlyDroppedTasksAreLost`).
- Integration is commented as strictly requiring human acceptance. `Completed` missions are integrated
  without it (`IntegrationRuns.LoneCallIntegrates`), and only they
  (`IntegrationRuns.IntegrationNeedsAcceptance`); if their merge fails they are left `Accepted`
  (`MissionHandlers.WaysOut`).
- The decomposition in memory lets every child of the parent without prerequisites inherit, the stored one
  only the new children. For a parent that has children already the two can differ
  (`StoreAgreement.OldChildDiffers`); they agree exactly when no older child is left to inherit
  (`StoreAgreement.StoreAgreesWithGraph`).
- The workspace lock is to keep one integration at a time. A mission without a workspace has no lock, and
  two calls can both report a fresh integration (`IntegrationLimits.TwoFreshReplies`), exactly then
  (`IntegrationLimits.TwoFreshIffUnbound`).
- A rejection does not stop a call that was admitted before: it writes its older record back and can
  integrate the rejected mission (`IntegrationLimits.RejectedIsIntegrated`). A rejection holds exactly
  when no call has a copy of the mission (`IntegrationLimits.RejectionHoldsIffNoCopy`).
- Rejecting an accepted mission for replanning reports `Replanning`, but the lifecycle table has no such
  step and the mission stays `Accepted` (`Missions.RejectReportsTruthfully`).
- A HEAD that is unborn on another branch is not switched: integration then reports success without
  touching the target (`Git.MergesElsewhere`). `Git.Repository.IntegrateGitCommit` states exactly when the
  target has the commit after a success.
- The event feed loses events (`EventStream.MissedWithoutCursor`, `EventStream.MissedTooMany`). It is
  complete exactly when the events missed before the subscription fit one replay; events that arrive
  later do not count (`EventStream.CompleteIffFewMissed`).
- Backoff grows from one attempt to the next exactly from a multiplier of 1.2 on
  (`Reliability.GrowthNeeded`), because the jitter starts over every third attempt.
- Recovery records are listed by attempt number. When attempts are recorded out of order a repeating
  failure can go unnoticed (`Recovery.OutOfOrderHidesALoop`); it is noticed exactly when the two latest
  failures before it, by attempt and then by time, share its reason (`Recovery.ReplansIffLatestShare`).

## Assumptions

- Identifiers are distinct values with a total order; new identifiers are fresh. Times and durations
  are integers, and the clock of provider checks never goes back.
- Storage calls succeed unless a parameter of the modelled operation says otherwise; the store keeps
  one lease per task.
- In the protocol, accept and reject are single steps, a restart's reconciliation runs while no
  integration call is live, branches only grow, HEAD is not unborn on another branch than the target,
  and the engine leaves accepted, integrating and integrated missions alone. A mission without a
  readable workspace skips git, as in the code; the promises about branches speak of readable ones.
- `git merge --abort` restores the repository.

## Model

| member | source | states |
|---|---|---|
| Core.VerifiedWasChecked | crates/plexis-core/src/state.rs:78-190 | no task gets verified without having waited for its verification just before |
| Core.OnlyDroppedTasksAreLost | crates/plexis-core/src/state.rs:78-190 | exactly cancelled and discarded tasks stay as they are; every other task can still be verified |
| Core.WaysAgree | crates/plexis-core/src/state.rs:78-190 | which states lead into each state: the table read from the other side |
| TaskGraphs.TaskGraph.constructor | crates/plexis-core/src/graph.rs:38-40 | a new graph is empty and valid |
| TaskGraphs.TaskGraph.AddTask | crates/plexis-core/src/graph.rs:43-48 | stores the task, keeps any edges its id already has, adds no edge, keeps the maps mirrored and the graph acyclic |
| TaskGraphs.TaskGraph.AddDependency | crates/plexis-core/src/graph.rs:53-92 | for existing tasks the edge is refused exactly when the prerequisite is the task or already waits for it; a refused edge leaves both maps as they were; the task named is on or behind a cycle of the refused graph |
| TaskGraphs.TaskGraph.RemoveDependency | crates/plexis-core/src/graph.rs:95-115 | removes exactly that edge from both maps; fails only on a missing task |
| TaskGraphs.TaskGraph.RemoveTask | crates/plexis-core/src/graph.rs:123-142 | succeeds exactly when nothing waits for the task, and then removes it from both maps; a refusal changes nothing |
| TaskGraphs.TaskGraph.ForgetDependent | crates/plexis-core/src/graph.rs:128-134 | the removed task disappears from the dependents of its prerequisites only |
| TaskGraphs.TaskGraph.InitialDegrees | crates/plexis-core/src/graph.rs:171-184 | counters equal the number of prerequisites and the queue holds exactly the tasks without any |
| TaskGraphs.TaskGraph.ReleaseDependents | crates/plexis-core/src/graph.rs:187-199 | lowering the counters of a listed task's dependents keeps the counting invariant; no counter goes below zero |
| TaskGraphs.TaskGraph.ValidateAcyclic | crates/plexis-core/src/graph.rs:170-211 | Ok exactly when there is no cycle; the task a failure names lies on a cycle or waits for one, and the fall-through after a count mismatch is not reachable |
| TaskGraphs.WaiterMayBeNamed | crates/plexis-core/src/graph.rs:201-207 | a graph in which a task that nothing waits for is behind a cycle without lying on one, and so among those the check may name |
| TaskGraphs.SortNamesTheFree | crates/plexis-core/src/graph.rs:244-248 | on that graph the listing fails and names the one task that waits for nothing |
| Digraph.BehindIsOnCycle | crates/plexis-core/src/graph.rs:201-207 | every task the check may name lies on a cycle exactly when nothing off a cycle waits directly for something on one |
| TaskGraphs.TaskGraph.DrainQueue | crates/plexis-core/src/graph.rs:214-243 | the loop ends with a listing in which prerequisites come first and every unlisted task has an unlisted prerequisite |
| TaskGraphs.TaskGraph.TopologicalSort | crates/plexis-core/src/graph.rs:214-251 | Ok exactly when acyclic, with all tasks once and prerequisites first; the task a failure names is never stuck behind a cycle, and is a new identifier exactly when all tasks are |
| TaskGraphs.TaskGraph.FindRunnableTasks | crates/plexis-core/src/graph.rs:261-293 | exactly the ready or waiting tasks without an agent whose prerequisites are all verified, once each; higher priority first, and the older first within a priority |
| TaskGraphs.TaskGraph.AddDependencies | crates/plexis-core/src/graph.rs:337-351 | adding several prerequisites succeeds exactly when all of them exist and the result is acyclic |
| TaskGraphs.TaskGraph.AddChildren | crates/plexis-core/src/graph.rs:313-322 | children are added exactly when each names the parent |
| TaskGraphs.TaskGraph.LinkChildren | crates/plexis-core/src/graph.rs:324-327 | the links are added exactly when their ends exist and the result is acyclic |
| TaskGraphs.TaskGraph.InheritUpstream | crates/plexis-core/src/graph.rs:329-343 | every child without prerequisites takes over the parent's, or the call fails exactly when that closes a cycle |
| TaskGraphs.TaskGraph.RewireDownstream | crates/plexis-core/src/graph.rs:345-351 | everything that waited for the parent waits for all terminals instead, or the call fails exactly when a terminal is missing or a cycle closes |
| TaskGraphs.TaskGraph.GrowChildren | crates/plexis-core/src/graph.rs:313-343 | children, links and inheritance together: exact success condition and exact resulting graph |
| TaskGraphs.TaskGraph.DecomposeTask | crates/plexis-core/src/graph.rs:299-357 | Ok exactly on admissible arguments, with the exact resulting tasks and graph; also on an error the graph stays mirrored and acyclic |
| TaskGraphs.TaskGraph.ReplaceTaskWithChildren | crates/plexis-core/src/graph.rs:393-403 | Ok exactly when the decomposition is admissible and leaves nothing waiting for the parent, which is then gone |
| TaskGraphs.TaskGraph.InsertTaskBetween | crates/plexis-core/src/graph.rs:363-390 | Ok exactly when both ends exist and the new path closes no cycle, with the exact resulting graph |
| TaskGraphs.TaskGraph.ReassignOwnership | crates/plexis-core/src/graph.rs:406-417 | changes the assigned agent of one existing task and nothing else |
| TaskGraphs.TaskGraph.Run | crates/plexis-core/src/graph.rs:43-417 | any sequence of operations, failed ones included, keeps the maps mirrored, endpoints present and the graph acyclic |
| Digraph.WithEdgeAcyclic | crates/plexis-core/src/graph.rs:72-91 | adding an edge keeps an acyclic graph acyclic exactly when the prerequisite does not already reach back |
| Digraph.WithEdgeWaits | crates/plexis-core/src/graph.rs:72-91 | who waits for whom after one edge is added |
| Digraph.MirrorWithoutNode | crates/plexis-core/src/graph.rs:127-141 | removing a task nobody waits for from one map and its mentions from the other keeps the mirror |
| Kahn.Pop | crates/plexis-core/src/graph.rs:187-191 | taking a task off the queue extends the listing and its order |
| Kahn.Release | crates/plexis-core/src/graph.rs:191-198 | lowering one dependent's counter keeps the counting invariant and queues it exactly at zero; the counter was positive |
| Kahn.Finish | crates/plexis-core/src/graph.rs:201-210 | with an empty queue, all tasks are listed exactly when the graph is acyclic, and the positive counters are exactly the tasks behind a cycle |
| Kahn.Sorted | crates/plexis-core/src/graph.rs:244-250 | the full listing is a topological order; the last task listed is not behind a cycle, and none is listed exactly when all are |
| Rewrites.FreshIsAdmissible | crates/plexis-core/src/graph.rs:299-357 | with fresh children, acyclic links among them, nonempty terminals among them and no older child left to inherit, decomposition never fails |
| Rewrites.DecomposedWaits | crates/plexis-core/src/graph.rs:329-351 | who waits for whom after a decomposition, both directions, for every pair |
| Rewrites.NothingWaitsForReplaced | crates/plexis-core/src/graph.rs:345-351 | after such a decomposition nothing waits for the parent, so its removal succeeds, whatever else the graph holds |
| Rewrites.ReplacedWaits | crates/plexis-core/src/graph.rs:393-403 | replacing a task keeps every wait between survivors and adds none |
| Rewrites.BetweenWaits | crates/plexis-core/src/graph.rs:363-390 | inserting a fresh task keeps every wait; the only new ones go through the new path |
| Rewrites.BetweenAcyclic | crates/plexis-core/src/graph.rs:363-390 | inserting a fresh task closes a cycle exactly when the upper task already waits for the lower one |
| Rewrites.OverlaidAcyclic | crates/plexis-core/src/graph.rs:345-351 | the edges to the terminals close a cycle exactly when they do so with the edges to the parent still in place |
| Rounds.VerifiedByDepth | crates/plexis-core/src/graph.rs:261-293 | after k rounds of running everything runnable, the verified tasks are exactly those of depth at most k |
| Rounds.RoundsNeeded | crates/plexis-core/src/graph.rs:261-293 | all tasks are verified exactly from round number longest-chain on |
| DepthPass.MeasureDepth | crates/plexis-planner/src/validator.rs:183-217 | visits all tasks exactly on acyclic graphs; the depth it returns is then the length of the longest chain; the counters left positive are exactly the tasks behind a cycle |
| DepthPass.ReleaseDeeper | crates/plexis-planner/src/validator.rs:204-216 | a task's depth becomes one more than its deepest prerequisite |
| Chains.LongestChainUnique | crates/plexis-planner/src/validator.rs:197-202 | there is only one longest chain length to compare with the budget |
| Chains.DepthMap | crates/plexis-planner/src/validator.rs:197-202 | a map that keeps edges cannot shorten depth |
| Validator.CheckTasks | crates/plexis-planner/src/validator.rs:100-133 | reports exactly the faults of the tasks, none exactly when all are well formed with distinct trimmed ids |
| Validator.CheckTask | crates/plexis-planner/src/validator.rs:102-132 | reports exactly the faults of one task, an empty id hiding the others; none exactly when it is well formed and its id new |
| Validator.CheckCriteria | crates/plexis-planner/src/validator.rs:117-131 | reports blank criteria exactly when there are some |
| Validator.CheckDependencies | crates/plexis-planner/src/validator.rs:135-179 | reports exactly the faults of the dependencies; counters and mirrored edges describe the graph of the good ones, duplicates counted once |
| Validator.CheckDependency | crates/plexis-planner/src/validator.rs:144-171 | reports exactly the faults of one dependency; none exactly when both ends exist and differ |
| Validator.CheckGraph | crates/plexis-planner/src/validator.rs:181-235 | reports a cycle or an excessive depth exactly when there is one, naming exactly the stuck tasks or the true longest chain |
| Validator.ValidateWithBudget | crates/plexis-planner/src/validator.rs:68-242 | valid exactly when the declarative specification holds; the errors reported are exactly the faults of the proposal, the graph being judged only when nothing else is wrong |
| Validator.WellFormedIsUsable | crates/plexis-planner/src/validator.rs:68-242 | a valid proposal has tasks, not too many, each with an id, an objective and criteria that have text |
| Validator.TrimCuts | crates/plexis-planner/src/validator.rs:103-103 | trimming cuts white space off both ends and nothing else |
| Applier.MapTasks | crates/plexis-planner/src/applier.rs:88-112 | the id map holds the last task of each temporary id, and the new tasks carry the proposal's content |
| Applier.MapLinks | crates/plexis-planner/src/applier.rs:114-123 | exactly the dependencies whose two ends are in the id map, in order |
| Applier.IdMapMeans | crates/plexis-planner/src/applier.rs:88-95 | each temporary id maps to a task that carries it, and to the right one when no two share it |
| Applier.MappedExactly | crates/plexis-planner/src/applier.rs:114-123 | the stored pairs are exactly the dependencies whose ends are known |
| Applier.Apply | crates/plexis-planner/src/applier.rs:38-162 | a rejected proposal changes nothing; an accepted one is stored as a decomposition of the parent or as root tasks, exactly; each stored task carries its objective, criteria, priority, required capabilities, workflow, parent and time |
| Applier.StoreRoot | crates/plexis-planner/src/applier.rs:142-162 | root tasks are created, those without prerequisites Ready, and all pairs stored |
| TaskStores.TaskStore.CreateTask | crates/plexis-storage/src/sqlite/store.rs:327-355 | stores a new task; a taken id is refused and changes nothing |
| TaskStores.TaskStore.AddDependency | crates/plexis-storage/src/sqlite/store.rs:508-519 | stores a pair once; both ends must exist |
| TaskStores.TaskStore.DecomposeTaskTransactional | crates/plexis-storage/src/sqlite/store.rs:633-749 | commits exactly when the rows after it are acceptable, with the exact new rows; otherwise nothing changes |
| TaskStores.StoredTasksMean | crates/plexis-storage/src/sqlite/store.rs:633-749 | every child is stored below the parent, the parent is discarded, all other tasks are untouched |
| TaskStores.TaskStore.LoadTaskGraph | crates/plexis-storage/src/sqlite/store.rs:572-604 | loads exactly when the workflow's stored pairs stay inside it and are acyclic; the graph is then exactly the stored one |
| StoreAgreement.StoreAgreesWithGraph | crates/plexis-storage/src/sqlite/store.rs:633-749 | decomposing in the store and loading gives the graph the in-memory decomposition gives exactly when no older child of the parent is left to inherit |
| StoreAgreement.OldChildDiffers | crates/plexis-core/src/graph.rs:329-343 | an older child without prerequisites takes over the parent's in memory and keeps none in the store |
| StoreAgreement.FreshCommits | crates/plexis-storage/src/sqlite/store.rs:633-749 | with fresh children the transaction always commits |
| Pipeline.NewGraphAcyclic | crates/plexis-planner/src/applier.rs:114-140 | a validated proposal maps to an acyclic graph over the new tasks |
| Pipeline.LinkIsDependency | crates/plexis-planner/src/applier.rs:114-123 | every stored pair comes from a dependency of the proposal |
| Pipeline.TerminalsCover | crates/plexis-planner/src/applier.rs:127-134 | every new task is a terminal or is waited for by one, so the terminals are not empty |
| Pipeline.PlanIsFresh | crates/plexis-planner/src/applier.rs:125-140 | a validated plan meets every condition of decomposition that concerns the new children |
| Pipeline.PlanCommits | crates/plexis-planner/src/applier.rs:125-140 | applying a validated plan never fails and the stored graph loads, also below a parent that has children already |
| Pipeline.ReloadedWaits | crates/plexis-planner/src/applier.rs:125-140 | who waits for whom in the reloaded graph, for every pair |
| Pipeline.PlanTakesParentsPlace | crates/plexis-planner/src/applier.rs:114-140 | former dependents of the parent wait for every new task and for all the parent waited for; new tasks wait for all the parent waited for; other waits are unchanged |
| Pipeline.NoneDroppedIffVerbatim | crates/plexis-planner/src/applier.rs:114-123 | no dependency is lost exactly when each writes its ends as the tasks write their ids: validation trims, the mapping does not |
| Pipeline.MappingKeepsWaits | crates/plexis-planner/src/applier.rs:88-123 | for every accepted proposal, new tasks wait for each other exactly as the dependencies that are not dropped say |
| Pipeline.MeaningKeptIffImplied | crates/plexis-planner/src/applier.rs:88-123 | new tasks wait for each other as proposed exactly when every dropped dependency follows from the kept ones |
| Pipeline.LimitKeptIffChecked | crates/plexis-planner/src/applier.rs:52-54 | a plan is applied after a validation against an empty workflow; the workflow limit holds afterwards exactly when the plan also passes with the true task count |
| Pipeline.LimitIsExceeded | crates/plexis-planner/src/validator.rs:90-98 | a plan of two tasks passes and takes any workflow of 199 tasks to 201, past the limit of 200 |
| Pipeline.UntrimmedDependencyIsLost | crates/plexis-planner/src/applier.rs:116-119 | a validated proposal that loses its only dependency |
| Pipeline.RootReadyIsRunnable | crates/plexis-planner/src/applier.rs:142-153 | of a root plan exactly the runnable tasks start as Ready |
| Pipeline.NewChainsWithinBudget | crates/plexis-planner/src/applier.rs:88-123 | no chain of new tasks is longer than the depth budget |
| Pipeline.PlanFinishesWithinBudget | crates/plexis-planner/src/applier.rs:142-162 | a validated root plan is done within as many rounds as the depth budget |
| Selector.SelectsBest | crates/plexis-runtime/src/selector.rs:25-130 | the choice is an eligible agent of the highest score, and of the smallest id among those; none exactly when nobody is eligible |
| Selector.EligibleMeans | crates/plexis-runtime/src/selector.rs:66-112 | who qualifies, requirement by requirement, by the first matrix entry for the agent's provider and model or else for its provider |
| Selector.UnknownProviderQualifies | crates/plexis-runtime/src/selector.rs:80-112 | an agent whose provider the matrix does not know is judged by its capabilities only |
| Selector.SameLetters | crates/plexis-runtime/src/selector.rs:66-72 | names agree exactly when they have the same letters in either case |
| Selector.SelectionIgnoresOrder | crates/plexis-runtime/src/selector.rs:25-130 | candidates in any order give the same choice |
| Scheduler.JobsAreGood | crates/plexis-runtime/src/scheduler.rs:113-149 | every job pairs a runnable task with an eligible idle agent whose lease was granted |
| Scheduler.JobsAreInjective | crates/plexis-runtime/src/scheduler.rs:132-142 | no task and no agent is used twice |
| Scheduler.JobsKeepOrder | crates/plexis-runtime/src/scheduler.rs:111-149 | jobs follow the priority order of the runnable list |
| Scheduler.NoneSkipped | crates/plexis-runtime/src/scheduler.rs:124-149 | a task is passed over only if its lease was refused or every eligible agent had gone to an earlier task |
| Scheduler.WorkflowScheduler.HandOut | crates/plexis-runtime/src/scheduler.rs:133-187 | lease, assignment and claimed command of one job |
| Scheduler.WorkflowScheduler.Match | crates/plexis-runtime/src/scheduler.rs:109-190 | the loop computes the matching, and tasks, leases and claims are exactly those of its jobs |
| Scheduler.WorkflowScheduler.Pass | crates/plexis-runtime/src/scheduler.rs:87-190 | one workflow's pass: jobs for runnable tasks by priority and then age; each task with a job is assigned to its agent under its lease, all others are untouched |
| Scheduler.JobsByPriority | crates/plexis-runtime/src/scheduler.rs:93-149 | the jobs of a listing by priority and age keep that order |
| Scheduler.HandedMeans | crates/plexis-runtime/src/scheduler.rs:133-187 | what handing out jobs does to each task and each lease |
| Scheduler.SomethingRunnable | crates/plexis-runtime/src/scheduler.rs:93-97 | an acyclic graph with tasks still to do has a runnable one, if nothing waits for tasks that are set aside |
| Scheduler.TickProgress | crates/plexis-runtime/src/scheduler.rs:74-218 | every cycle leaves fewer tasks to do, and sets none aside |
| Scheduler.FinishesInTime | crates/plexis-runtime/src/scheduler.rs:74-218 | n tasks to do are verified within n cycles; only cancelled and discarded ones are left |
| Scheduler.NextTick | crates/plexis-runtime/src/scheduler.rs:74-218 | a cycle can be made from any state |
| Scheduler.RunOf | crates/plexis-runtime/src/scheduler.rs:74-218 | there are runs of any length |
| PlanProgress.PlannedCanBeScheduled | crates/plexis-runtime/src/scheduler.rs:93-97 | an applied plan leaves the workflow in the shape the scheduler needs: nothing waits for the discarded parent |
| PlanProgress.PlannedWorkFinishes | crates/plexis-runtime/src/scheduler.rs:74-218 | after a plan has been applied below a parent, every run verifies all new tasks and all others that were not set aside, in no more cycles than there are tasks to do |
| PlanProgress.PlannedWorkRuns | crates/plexis-runtime/src/scheduler.rs:74-218 | there are such runs |
| PlanProgress.PlannedAgentsQualify | crates/plexis-planner/src/applier.rs:108-110 | whoever is handed a planned task is free and has each capability that the plan requires for it |
| Git.IsAncestor | crates/plexis-server/src/git.rs:612-619 | true exactly when the commit is reachable |
| Git.Repository.SwitchTo | crates/plexis-server/src/git.rs:496-542 | ends on the target, created at HEAD if it was missing; an unborn HEAD stays where it is; other heads are kept |
| Git.Repository.FastForward | crates/plexis-server/src/git.rs:544-569 | succeeds exactly when it works and there is no tip yet or one commit lies behind the other; moves HEAD only forward, to something that contains the commit |
| Git.Repository.Merge | crates/plexis-server/src/git.rs:571-595 | moves HEAD only forward; a conflict leaves everything as it was |
| Git.Repository.Precheck | crates/plexis-server/src/git.rs:430-494 | the refusals and the early success, in the order of the checks |
| Git.Repository.SwitchAndMerge | crates/plexis-server/src/git.rs:496-608 | each refusal exactly when its step fails; on success only the checked-out branch moved: to the commit or nowhere while the two are in line, and else to a new commit with exactly the two as parents; on failure at most an empty new branch is left |
| Git.Repository.IntegrateGitCommit | crates/plexis-server/src/git.rs:418-609 | errors keep every existing head; each of the five refusals exactly when its cause is there, success otherwise; success puts the commit and the old history on the target, by fast-forward where possible and else by one merge commit, unless HEAD was unborn on another branch; a head moved under an expectation was the expected one |
| Git.MergesElsewhere | crates/plexis-server/src/git.rs:496-542 | a repository with HEAD unborn on another branch: success is reported and the target lacks the commit |
| Git.GrowsContains | crates/plexis-server/src/git.rs:612-619 | while branches only grow, what is reachable stays reachable |
| MissionHandlers.MissionDesk.ExecuteCanonicalIntegration | crates/plexis-server/src/routes.rs:4391-4683 | the reply and the stored record in every case: a fresh success exactly when the mission is accepted or completed, has a verified commit and has not failed, git does not refuse and both writes succeed |
| MissionHandlers.MissionDesk.IntegrateAdmitted | crates/plexis-server/src/routes.rs:4538-4683 | intent, merge and outcome of an admitted mission: the reply and the record for every way they go |
| Missions.Admit | crates/plexis-server/src/routes.rs:4488-4530 | a mission passes exactly when accepted or completed, with a verified commit and not failed |
| Missions.Accepting | crates/plexis-server/src/routes.rs:4143-4205 | a mission awaiting acceptance is accepted exactly with a verified commit and no failed outcome; what is accepted or integrated stays so |
| Missions.WaysAgree | crates/plexis-core/src/state.rs:732-837 | which states lead into each mission state: the table read from the other side |
| MissionHandlers.MissionDesk.RecordAcceptance | crates/plexis-server/src/routes.rs:4126-4216 | the part of an accept request before integration: each answer exactly in its case, and the only write |
| MissionHandlers.MissionDesk.AcceptMission | crates/plexis-server/src/routes.rs:4126-4281 | succeeds exactly when there is nothing to write, or the mission may be accepted, the write succeeds and a requested integration does; the stored record also when that integration fails |
| MissionHandlers.MissionDesk.RejectMission | crates/plexis-server/src/routes.rs:4283-4389 | succeeds exactly when a reason is given, the mission awaits acceptance or is accepted, and the write succeeds; the stored record in each case; an error changes nothing |
| MissionHandlers.WorkspaceLockManager.GetLock | crates/plexis-server/src/workspace_lock.rs:21-35 | the lock a workspace has, or a new one no other workspace has; no lock is ever replaced |
| Integration.StepKeeps | crates/plexis-server/src/routes.rs:4391-4683 | every step of any call, operator, engine, git user, crash or restart keeps the protocol invariant |
| Integration.OperatorsMayAct | crates/plexis-server/src/routes.rs:4126-4389 | operators can accept, reject and cancel whatever the lifecycle allows, at any time |
| Integration.EngineMayAct | crates/plexis-core/src/state.rs:732-837 | the engine moves exactly the missions it drives, as the lifecycle allows, and otherwise only records commits |
| Integration.OthersMayAct | crates/plexis-runtime/src/reconciler.rs:361-463 | branches may grow and the server may crash at any time; a crash keeps what is stored and replied and loses locks and calls |
| Integration.OnlyOneInside | crates/plexis-server/src/workspace_lock.rs:21-35 | two calls past the lock on one workspace are one call |
| Integration.BeginKeeps | crates/plexis-server/src/routes.rs:4550-4563 | storing the intent keeps the invariant: on a bound mission no other call holds a record it could overwrite |
| Integration.MergeKeeps | crates/plexis-server/src/routes.rs:4588-4628 | a merge, successful or not, keeps the invariant, by which a merged call's candidate is on its target |
| Integration.FinishKeeps | crates/plexis-server/src/routes.rs:4629-4646 | storing the result keeps the invariant; no fresh success was reported before |
| Integration.RollBackKeeps | crates/plexis-server/src/routes.rs:4597-4625 | storing the rolled-back record, or failing to, keeps the invariant |
| Integration.CrashKeeps | crates/plexis-runtime/src/reconciler.rs:361-463 | losing all calls and locks keeps the invariant |
| Integration.ReconcileKeeps | crates/plexis-runtime/src/reconciler.rs:361-463 | a restart keeps the invariant |
| IntegrationRuns.IntegratedIsOnItsBranch | crates/plexis-server/src/routes.rs:4629-4646 | in every run a mission stored as integrated has its commit on the branch it names |
| IntegrationRuns.FailedStaysOut | crates/plexis-server/src/routes.rs:4516-4530 | in no run is a mission that failed its verification ever being integrated or stored as integrated |
| IntegrationRuns.MergeMovesWhatItExpects | crates/plexis-server/src/git.rs:472-494 | a merge moves at most its target, forward, and from the expected head only when one is expected |
| IntegrationRuns.OneLockPerWorkspace | crates/plexis-server/src/workspace_lock.rs:21-35 | calls that asked for the same workspace hold or await the same lock, and only those |
| IntegrationRuns.OneCallPerWorkspace | crates/plexis-server/src/routes.rs:4463-4470 | at most one call at a time is past the lock of a workspace |
| IntegrationProgress.StepAdvances | crates/plexis-server/src/routes.rs:4391-4683 | every step of a call brings it closer to its reply, and a reply frees its lock |
| IntegrationProgress.NeverStuck | crates/plexis-server/src/workspace_lock.rs:21-35 | in every reachable state a call can take its next step, or the call can that holds the lock it waits for |
| IntegrationRuns.OneFreshReply | crates/plexis-server/src/routes.rs:4673-4682 | over all calls for a mission at most one reports a fresh integration |
| IntegrationLimits.TwoFreshIffUnbound | crates/plexis-server/src/routes.rs:4460-4465 | two calls can both report a fresh integration of a mission that passes the checks exactly when it has no workspace |
| IntegrationLimits.TwoFreshReplies | crates/plexis-server/src/routes.rs:4460-4465 | a run in which two calls for a mission without a workspace both do |
| IntegrationRuns.RestartSettles | crates/plexis-runtime/src/reconciler.rs:361-463 | after a restart nothing is Integrating; an interrupted mission is integrated exactly when its candidate is on its target; others are untouched |
| IntegrationRuns.MergedSurvivesCrash | crates/plexis-runtime/src/reconciler.rs:365-435 | a crash after the merge loses nothing: the restart records what the call was about to |
| IntegrationRuns.IntegrationNeedsAcceptance | crates/plexis-server/src/routes.rs:4430-4457 | a mission gets integrated only after it was accepted or was completed |
| IntegrationRuns.AwaitingNeverIntegrates | crates/plexis-server/src/routes.rs:4430-4439 | a mission awaiting acceptance is never integrated while nobody accepts it or sends it back |
| IntegrationLimits.RejectedIsIntegrated | crates/plexis-server/src/routes.rs:4467-4562 | a run in which a mission is rejected after a call was admitted and is then stored as integrated |
| IntegrationLimits.RejectionHoldsIffNoCopy | crates/plexis-server/src/routes.rs:4472-4640 | a mission at the gate can get past it with nobody letting it in exactly when a call holds a copy of it |
| IntegrationRuns.LoneCallIntegrates | crates/plexis-server/src/routes.rs:4391-4683 | one call alone integrates a mission that passes the checks, without acceptance if it is Completed |
| Reconciliation.Reconciler.FailExecutions | crates/plexis-runtime/src/reconciler.rs:129-151 | exactly the task's executions in progress are failed |
| Reconciliation.Reconciler.ReclaimTasks | crates/plexis-runtime/src/reconciler.rs:100-185 | expired leases are gone, their held tasks free, their executions failed, missing tasks reported |
| Reconciliation.Reconciler.ReconcileCommands | crates/plexis-runtime/src/reconciler.rs:188-262 | exactly the in-flight commands about a task nobody works on under a lease are failed, and reported |
| Reconciliation.Reconciler.Reconcile | crates/plexis-runtime/src/reconciler.rs:100-186 | the lease pass followed by the command pass |
| Reconciliation.Reconciler.RecoverWorkflow | crates/plexis-runtime/src/reconciler.rs:284-357 | frees exactly the orphans of a workflow and reports it resumable exactly when a task can be started |
| Reconciliation.Reconciler.SettleMission | crates/plexis-runtime/src/reconciler.rs:365-441 | an interrupted integration is settled by what the repository contains |
| Reconciliation.Reconciler.ReconcileStartup | crates/plexis-runtime/src/reconciler.rs:268-500 | the passes in sequence, and a report that names exactly the tasks, executions, leases and commands changed, the missions settled, the tasks missing and the workflows worth resuming |
| Startup.FreesTheAbandoned | crates/plexis-runtime/src/reconciler.rs:100-357 | exactly the held tasks with an expired lease, or without one in an active workflow, are ready again and have no agent; all others are untouched |
| Startup.AbandonedRunsAgain | crates/plexis-runtime/src/reconciler.rs:100-357 | an abandoned task is runnable as soon as its prerequisites are verified |
| Startup.SettlesTheInterrupted | crates/plexis-runtime/src/reconciler.rs:365-441 | an interrupted integration is settled by whether the branch it was meant for contains its commit; other missions are untouched |
| Startup.StartupIsRestart | crates/plexis-runtime/src/reconciler.rs:361-463 | startup does to missions what a restart does in the protocol |
| Startup.HeldIsLeased | crates/plexis-runtime/src/reconciler.rs:296-304 | a task still held has an unexpired lease, unless its workflow is not active and it never had one |
| Startup.InFlightIsBacked | crates/plexis-runtime/src/reconciler.rs:188-357 | a command left in flight has its task held under an unexpired lease, also after the later orphan pass |
| Startup.FailsTheStray | crates/plexis-runtime/src/reconciler.rs:210-262 | a command is failed exactly when in flight about a task nobody works on under a live lease; it is to be retried while attempts are left, and else dead-lettered |
| Startup.FailsTheirExecutions | crates/plexis-runtime/src/reconciler.rs:129-151 | exactly the executions in progress of freed tasks are failed |
| Startup.SecondRunIsIdle | crates/plexis-runtime/src/reconciler.rs:268-500 | a second run changes nothing exactly when no lease ran out in between |
| EventStream.Replay | crates/plexis-server/src/routes.rs:1588-1604 | replays the missed events up to the limit and remembers the last |
| EventStream.Live | crates/plexis-server/src/routes.rs:1606-1618 | passes on exactly the live events past the last one seen |
| EventStream.StreamEvents | crates/plexis-server/src/routes.rs:1570-1622 | overlapping replay and live feed deliver one cut of the log, at least up to the last live event received |
| EventStream.MergeIsOneCut | crates/plexis-server/src/routes.rs:1584-1619 | the merge equals what was missed before subscribing, up to the limit, followed by everything since |
| EventStream.CompleteIffFewMissed | crates/plexis-server/src/routes.rs:1588-1604 | complete exactly when the events missed before subscribing fit the replay: 1000 with a cursor, none without |
| EventStream.MissedWithoutCursor | crates/plexis-server/src/routes.rs:1588-1604 | a client without a cursor does not get the one event logged before it subscribed |
| EventStream.MissedTooMany | crates/plexis-server/src/routes.rs:1588-1604 | of more than a thousand missed events only the first thousand are delivered |
| EventStream.NothingTwice | crates/plexis-server/src/routes.rs:1609-1610 | nothing is delivered twice, out of order or from before the cursor |
| EventStream.ResumedSessions | crates/plexis-server/src/routes.rs:1575-1582 | a session resumed from the last event, by header or by parameter, continues the feed without gap or repetition; the parameter wins over the header |
| Recovery.RecoveryController.DiagnoseAndRecover | crates/plexis-runtime/src/recovery.rs:50-248 | saves one record of the decision: fatal from the limit on, replanning on a repeated reason, else by the diagnosis, with the action that goes with each |
| Recovery.FatalFromTheLimit | crates/plexis-runtime/src/recovery.rs:66-92 | from the attempt limit on, and only then, a failure exhausts the task, whatever came before |
| Recovery.TasksApart | crates/plexis-runtime/src/recovery.rs:59-63 | the records of a task are its own history, whatever other tasks do |
| Recovery.VersionsCountUp | crates/plexis-runtime/src/recovery.rs:154-220 | the k-th record of each refined strategy has version k, in any order of attempts |
| Recovery.LatestVersionOfListed | crates/plexis-runtime/src/recovery.rs:154-160 | the listing order does not influence versions |
| Recovery.ReplansOnThird | crates/plexis-runtime/src/recovery.rs:94-135 | below the limit, replanning exactly when the two latest listed records have the same reason |
| Recovery.NoThreeWithoutReplanning | crates/plexis-runtime/src/recovery.rs:94-135 | with attempts in order the third failure in a row for one reason replans, and only then |
| Recovery.ReplansIffLatestShare | crates/plexis-runtime/src/recovery.rs:94-135 | for attempts in any order, a failure below the limit replans exactly when the two latest before it, by attempt and then by time, share its reason |
| Recovery.MarkingChangesNothing | crates/plexis-runtime/src/recovery.rs:251-267 | marking a record as recovered changes no later decision |
| Recovery.OutOfOrderHidesALoop | crates/plexis-storage/src/sqlite/store.rs:3277-3300 | attempts out of order can hide a repeated reason |
| Reliability.BackoffGrows | crates/plexis-providers/src/reliability.rs:59-66 | from multiplier 1.2 on, later attempts never wait less |
| Reliability.GrowthNeeded | crates/plexis-providers/src/reliability.rs:59-66 | and only from 1.2 on: below it some policy waits less later |
| Health.ProviderHealthTracker.RecordSuccess | crates/plexis-providers/src/health.rs:60-66 | a success resets the provider |
| Health.ProviderHealthTracker.RecordFailure | crates/plexis-providers/src/health.rs:69-113 | a failure is appended to the history the entry is determined by |
| Health.ProviderHealthTracker.IsAvailable | crates/plexis-providers/src/health.rs:116-135 | refuses exactly while down; once the cooldown is over a probe is let through and the provider counts as degraded; nothing else changes |
| Health.ConsecutiveIsTrailing | crates/plexis-providers/src/health.rs:60-73 | consecutive failures are the failures since the last success; healthy exactly when there are none |
| Health.EntryCountsCalls | crates/plexis-providers/src/health.rs:60-110 | an entry counts the calls that worked and the calls that failed |
| Health.RefusedExactlyWhileDown | crates/plexis-providers/src/health.rs:81-135 | refused exactly while the latest failure keeps the provider down, by Retry-After or by reaching the threshold; checks in between change nothing |
| Failover.FailoverRouter.SelectCandidates | crates/plexis-providers/src/failover.rs:155-166 | the satisfying providers that are available at the moment their turn comes, in list order, one check each |
| Failover.CandidatesMean | crates/plexis-providers/src/failover.rs:155-166 | who is a candidate under a clock that never goes back, and that list order is kept |
| Failover.TriedMaySee | crates/plexis-providers/src/failover.rs:22-60 | every provider called may see the request under its privacy policy and can serve it, whatever fails |
| Failover.EveryCallIsHeard | crates/plexis-providers/src/failover.rs:212-224 | the health tracker hears of every call how it went, in order |
| Failover.FailingTripsTheBreaker | crates/plexis-providers/src/health.rs:66-135 | a provider that failed as often in a row as the threshold says is refused exactly until the cooldown after its last failure is over |
| Failover.FailoverRouter.TryProvider | crates/plexis-providers/src/failover.rs:203-235 | calls one provider until it answers or is exhausted, with the waits the policy asks for, and tells the tracker each outcome |
| Failover.FailoverRouter.Dispatch | crates/plexis-providers/src/failover.rs:182-239 | follows the route through the candidates and records its failovers |
| Failover.FailoverRouter.ExecuteWithFailover | crates/plexis-providers/src/failover.rs:169-244 | result, decisions, tracker history and the exact waits of a whole request, provider by provider |
| Failover.RetryingCapped | crates/plexis-providers/src/failover.rs:224-228 | every wait between calls is within the cap |
| Failover.WaitsGrow | crates/plexis-providers/src/failover.rs:219-229 | with a multiplier of at least 1.2 the waits for one provider never shrink while no failure carries a Retry-After |
| Failover.WaitsMean | crates/plexis-providers/src/reliability.rs:38-67 | waits follow passing errors only, while retries are left, start at the initial backoff, and honour a Retry-After within the bounds |
| Failover.RunIsBounded | crates/plexis-providers/src/failover.rs:203-235 | one provider gets at most one call and its retries, each but the last failing in a way that is retried |
| Failover.RouteMeans | crates/plexis-providers/src/failover.rs:182-239 | candidates are tried in order, the next only after the one before failed for good or used up its retries, all of them unless one answers |
| Failover.CallsAreBounded | crates/plexis-providers/src/failover.rs:182-239 | no more calls than candidates times one more than the retries |
| Failover.LinksMean | crates/plexis-providers/src/failover.rs:183-197 | exactly one decision from each exhausted provider to the next one tried, with its last error |
| Failover.ChecksChangeNothing | crates/plexis-providers/src/health.rs:116-135 | earlier checks of a selection do not change the outcome of a later one |

## Left out

- Scheduler.WorkflowScheduler.Pass: one workflow's pass; the outer loop of `tick` over workflows, the dispatcher and the agent runner are reduced to "every dispatched job ends verified and its agent idle" for the progress theorems.
- Scheduler.JobsAreGood: leases are granted or denied by a parameter; lease generations and the lease manager's own checks are not modelled.
- Selector.SelectsBest: `score_agent` is an arbitrary integer function of a task's needs and an agent; its weights are not modelled.
- TaskGraphs.TaskGraph.FindRunnableTasks: hash-map iteration is any order, so tasks equal in priority and age come in any order.
- Validator.ValidateWithBudget: error texts are reduced to their kind and subject; `existing_workflow_tasks` and the budgets are unbounded naturals.
- Applier.Apply: planning records, events and the applied-mutations report are not modelled; identifiers for new tasks are passed in; descriptions and workspaces of tasks are not modelled.
- Git.Repository.IntegrateGitCommit: commit contents, the index and hooks are not modelled; whether a checkout or merge works and the new commit's identity are parameters, a failing `git` process counts as that step not working, and target names are branch names only.
- MissionHandlers.MissionDesk.ExecuteCanonicalIntegration: events and summaries are not modelled; the repository of the workspace is passed in.
- Integration.StepKeeps: handlers that read a mission, are overtaken, and write the stale record back are modelled for integration calls only.
- Reconciliation.Reconciler.ReconcileStartup: report lists are sets, events are not modelled, and a failing store is not modelled.
- EventStream.StreamEvents: serialisation and keep-alive are not modelled; a lagging or closed channel is the point up to which live events are received.
- Recovery.RecoveryController.DiagnoseAndRecover: classifying the failure text is a function given from outside; diagnosis texts are not modelled.
- Reliability.GrowthNeeded: exact arithmetic in milliseconds; floating-point rounding and the saturation of 64-bit conversion are not modelled.
- Failover.FailoverRouter.ExecuteWithFailover: requests and responses are opaque; outcomes of calls and their times are given from outside.
- Health.ProviderHealthTracker.RecordFailure: last-error texts and 32-bit counter overflow are not modelled.
- MissionHandlers.MissionDesk.RejectMission: the rest of a rejection record (reason, timestamps, iteration count) is not modelled.
- HTTP routing, the command-line interface, the dashboard, terminal streaming and the GitHub client.
- Worktrees, sandboxing, redaction, the fake agent and provider adapters: processes and network calls.
- The mission engine's planning cycle, beyond which states it may leave and enter.
- Embeddings, similarity search and cost telemetry.
