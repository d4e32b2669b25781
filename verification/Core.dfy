/** Identifiers, task lifecycle states and tasks shared by every component. Identifiers stand for
    128-bit UUIDs and keep only their total order. */
module Core {
  import opened Results

  datatype TaskId = TaskId(uuid: nat)
  datatype AgentId = AgentId(uuid: nat)
  datatype WorkflowId = WorkflowId(uuid: nat)

  datatype TaskState =
    | Backlog
    | Ready
    | Assigned
    | Running
    | AwaitingVerification
    | Verified
    | Blocked
    | NeedsHuman
    | Paused
    | Failed
    | Retrying
    | Quarantined
    | Cancelled
    | Discarded
  {
    /** The lifecycle table; staying in the same state is always allowed. */
    predicate CanTransitionTo(next: TaskState) {
      this == next ||
      match this
      case Backlog => next in {Ready, Blocked, Paused, Cancelled, Discarded}
      case Ready => next in {Assigned, Blocked, Paused, NeedsHuman, Cancelled, Discarded}
      case Assigned => next in {Running, Ready, NeedsHuman, Failed, Paused, Cancelled}
      case Running =>
        next in {Ready, AwaitingVerification, Paused, NeedsHuman, Failed, Retrying, Blocked, Cancelled}
      case AwaitingVerification => next in {Verified, Failed, Retrying, NeedsHuman, Running, Cancelled}
      case Verified => next in {Retrying, Discarded}
      case Blocked => next in {Ready, Backlog, Cancelled, Discarded}
      case NeedsHuman =>
        next in {Ready, Running, AwaitingVerification, Failed, Quarantined, Cancelled, Discarded}
      case Paused => next in {Backlog, Ready, Running, Cancelled, Discarded}
      case Failed => next in {Retrying, Ready, NeedsHuman, Quarantined, Cancelled, Discarded}
      case Retrying => next in {Ready, Running, Failed, Quarantined, Cancelled}
      case Quarantined => next in {Backlog, Ready, NeedsHuman, Cancelled, Discarded}
      case Cancelled => false
      case Discarded => false
    }

    predicate IsRunnableCandidate() {
      this == Ready || this == Backlog
    }
  }

  datatype ReasoningTier = NoReasoning | LowReasoning | MediumReasoning | HighReasoning
  {
    function Rank(): nat {
      match this
      case NoReasoning => 0
      case LowReasoning => 1
      case MediumReasoning => 2
      case HighReasoning => 3
    }
  }

  lemma TiersAreOrdered()
    ensures NoReasoning.Rank() < LowReasoning.Rank() < MediumReasoning.Rank() < HighReasoning.Rank()
  {
  }

  /** What a task's metadata asks of the agent that runs it. */
  datatype Requirements = Requirements(
    capabilities: seq<string>,
    suggestedRole: Option<string>,
    minReasoning: ReasoningTier,
    requiresTools: bool,
    requiresVision: bool,
    contextTokens: nat)

  datatype Task = Task(
    id: TaskId,
    workflow: WorkflowId,
    parent: Option<TaskId>,
    objective: string,
    criteria: seq<string>,
    state: TaskState,
    priority: int,
    createdAt: Timestamp,
    assignedAgent: Option<AgentId>,
    needs: Requirements)
  {
    /** Moves the task to `next`, or reports the refused transition. */
    function TransitionTo(next: TaskState): Result<Task, (TaskState, TaskState)> {
      if state.CanTransitionTo(next) then Ok(this.(state := next)) else Err((state, next))
    }

    /** Returns the task to `Ready` and drops its agent. */
    function Unassign(): Result<Task, (TaskState, TaskState)> {
      match TransitionTo(Ready)
      case Ok(t) => Ok(t.(assignedAgent := None))
      case Err(e) => Err(e)
    }
  }

  // ----- the task lifecycle, from the other side -----

  /** The states from which a task gets into a state. */
  function WaysInto(state: TaskState): set<TaskState> {
    match state
    case Backlog => {Blocked, Paused, Quarantined}
    case Ready => {Backlog, Assigned, Running, Blocked, NeedsHuman, Paused, Failed, Retrying, Quarantined}
    case Assigned => {Ready}
    case Running => {Assigned, AwaitingVerification, NeedsHuman, Paused, Retrying}
    case AwaitingVerification => {Running, NeedsHuman}
    case Verified => {AwaitingVerification}
    case Blocked => {Backlog, Ready, Running}
    case NeedsHuman => {Ready, Assigned, Running, AwaitingVerification, Failed, Quarantined}
    case Paused => {Backlog, Ready, Assigned, Running}
    case Failed => {Assigned, Running, AwaitingVerification, NeedsHuman, Retrying}
    case Retrying => {Running, AwaitingVerification, Verified, Failed}
    case Quarantined => {NeedsHuman, Failed, Retrying}
    case Cancelled => {Backlog, Ready, Assigned, Running, AwaitingVerification, Blocked, NeedsHuman, Paused, Failed, Retrying, Quarantined}
    case Discarded => {Backlog, Ready, Verified, Blocked, NeedsHuman, Paused, Failed, Quarantined}
  }

  lemma WaysAgree(a: TaskState, b: TaskState)
    ensures a.CanTransitionTo(b) <==> a == b || a in WaysInto(b)
  {
  }

  ghost predicate Lives(states: seq<TaskState>) {
    forall i :: 0 <= i < |states| - 1 ==> states[i].CanTransitionTo(states[i + 1])
  }

  /** No task is verified that did not wait for its verification just before. */
  lemma {:induction false} VerifiedWasChecked(states: seq<TaskState>) returns (i: nat)
    requires Lives(states) && |states| >= 2 && states[0] != Verified && states[|states| - 1] == Verified
    ensures i + 1 < |states| && states[i] == AwaitingVerification && states[i + 1] == Verified
  {
    i := |states| - 2;
    while states[i] == Verified
      invariant i + 1 < |states| && states[i + 1] == Verified
      decreases i
    {
      i := i - 1;
    }
    assert states[i].CanTransitionTo(states[i + 1]);
  }

  /** Cancelled and discarded tasks stay so; every other task can still be verified. */
  lemma OnlyDroppedTasksAreLost(state: TaskState) returns (life: seq<TaskState>)
    ensures (forall next :: state.CanTransitionTo(next) ==> next == state) <==> state in {Cancelled, Discarded}
    ensures state !in {Cancelled, Discarded} ==>
      life != [] && life[0] == state && life[|life| - 1] == Verified && Lives(life)
  {
    var run := [Ready, Assigned, Running, AwaitingVerification, Verified];
    life := match state
      case Assigned => run[1..]
      case Running => run[2..]
      case AwaitingVerification => run[3..]
      case Verified => run[4..]
      case Ready => run
      case _ => [state] + run;
    assert state == Backlog ==> state.CanTransitionTo(Ready);
    if state in {Cancelled, Discarded} {
    } else {
      assert state.CanTransitionTo(if state == Ready then Assigned else if state == Verified then Retrying
                                   else if state == AwaitingVerification then Verified else Ready);
    }
  }
}
