/** Missions and the decisions of the handlers that accept, reject and integrate them. */
module Missions {
  import opened Results
  import opened Git

  datatype MissionId = MissionId(uuid: nat)
  datatype WorkspaceId = WorkspaceId(uuid: nat)

  datatype MissionState =
    | Created
    | Planning
    | Running
    | Waiting
    | Replanning
    | NeedsHuman
    | Verifying
    | AwaitingAcceptance
    | Accepted
    | Integrating
    | Integrated
    | Rejected
    | Completed
    | Failed
    | Cancelled
    | BudgetExhausted
  {
    /** The lifecycle table; staying in the same state is always allowed. */
    predicate CanTransitionTo(next: MissionState) {
      this == next ||
      match this
      case Created => next in {Planning, Cancelled}
      case Planning =>
        next in {Running, Waiting, NeedsHuman, Verifying, AwaitingAcceptance, Completed, Failed, Cancelled, BudgetExhausted}
      case Running =>
        next in {Waiting, Replanning, NeedsHuman, Verifying, AwaitingAcceptance, Completed, Failed, Cancelled, BudgetExhausted}
      case Waiting => next in {Running, Planning, Replanning, NeedsHuman, Cancelled, BudgetExhausted}
      case Replanning => next in {Running, Planning, Waiting, NeedsHuman, Failed, Cancelled, BudgetExhausted}
      case NeedsHuman => next in {Planning, Running, Replanning, Waiting, Cancelled, Failed}
      case Verifying =>
        next in {AwaitingAcceptance, Completed, Replanning, NeedsHuman, Running, Failed, Cancelled, BudgetExhausted}
      case AwaitingAcceptance => next in {Accepted, Integrated, Rejected, Replanning, Cancelled}
      case Accepted => next in {Integrating, Integrated, Rejected, Cancelled}
      case Integrating => next in {Integrated, Accepted, Cancelled}
      case Rejected => next in {Replanning, Cancelled}
      case Completed => next in {AwaitingAcceptance, Accepted, Integrating, Integrated}
      case Integrated => false
      case Failed => false
      case Cancelled => false
      case BudgetExhausted => false
    }

    /** The states in which the mission engine, not an operator, decides what comes next. */
    predicate EngineOwned() {
      this in {Created, Planning, Running, Waiting, Replanning, NeedsHuman, Verifying}
    }
  }

  /** The states from which a mission gets into a state. */
  function WaysInto(state: MissionState): set<MissionState> {
    match state
    case Created => {}
    case Planning => {Created, Waiting, Replanning, NeedsHuman}
    case Running => {Planning, Waiting, Replanning, NeedsHuman, Verifying}
    case Waiting => {Planning, Running, Replanning, NeedsHuman}
    case Replanning => {Running, Waiting, NeedsHuman, Verifying, AwaitingAcceptance, Rejected}
    case NeedsHuman => {Planning, Running, Waiting, Replanning, Verifying}
    case Verifying => {Planning, Running}
    case AwaitingAcceptance => {Planning, Running, Verifying, Completed}
    case Accepted => {AwaitingAcceptance, Integrating, Completed}
    case Integrating => {Accepted, Completed}
    case Rejected => {AwaitingAcceptance, Accepted}
    case Completed => {Planning, Running, Verifying}
    case Integrated => {AwaitingAcceptance, Accepted, Integrating, Completed}
    case Failed => {Planning, Running, Replanning, NeedsHuman, Verifying}
    case Cancelled => {Created, Planning, Running, Waiting, Replanning, NeedsHuman, Verifying, AwaitingAcceptance, Accepted, Integrating, Rejected}
    case BudgetExhausted => {Planning, Running, Waiting, Replanning, Verifying}
  }

  lemma WaysAgree(a: MissionState, b: MissionState)
    ensures a.CanTransitionTo(b) <==> a == b || a in WaysInto(b)
  {
  }

  /** What is written down before the repository is touched. */
  datatype Intent = Intent(target: Branch, candidate: Commit, expected: Option<Commit>)

  datatype Mission = Mission(
    state: MissionState,
    workspace: Option<WorkspaceId>,
    commit: Option<Commit>,
    outcome: Option<bool>,
    verifiedHead: Option<Commit>,
    intent: Option<Intent>,
    target: Option<Branch>)
  {
    /** A refused transition is dropped without a trace. */
    function Try(next: MissionState): Mission {
      if state.CanTransitionTo(next) then this.(state := next) else this
    }
  }

  const MAIN := Branch(0)

  datatype Status = BadRequest | NotFound | Conflict | Internal

  datatype Reply = Fresh | Already | Refused(why: Status)

  // ----- integration -----

  /** The answer a mission's state alone forces, if any. */
  function Gate(state: MissionState): Option<Reply> {
    match state
    case Integrated => Some(Already)
    case Accepted => None
    case Completed => None
    case _ => Some(Refused(Conflict))
  }

  /** The answer the re-fetched mission forces, if any. */
  function Admit(m: Mission): (r: Option<Reply>)
    ensures r == None <==> m.state in {Accepted, Completed} && m.commit.Some? && m.outcome != Some(false)
    ensures r == Some(Already) <==> m.state == Integrated
    ensures r.Some? ==> r.value in {Already, Refused(Conflict)}
  {
    if Gate(m.state).Some? then Gate(m.state)
    else if m.commit == None || m.outcome == Some(false) then Some(Refused(Conflict))
    else None
  }

  function ExpectedHead(m: Mission, given: Option<Commit>, force: bool): Option<Commit> {
    if force then None else if given.Some? then given else m.verifiedHead
  }

  /** The mission with its intent recorded. */
  function WithIntent(m: Mission, target: Branch, given: Option<Commit>, force: bool): Mission
    requires m.commit.Some?
  {
    m.Try(Integrating).(intent := Some(Intent(target, m.commit.value, ExpectedHead(m, given, force))))
  }

  function Finished(m: Mission, target: Branch): Mission {
    m.Try(Integrated).(target := Some(target))
  }

  function RolledBack(m: Mission): Mission {
    m.Try(Accepted)
  }

  /** How a refusal by git is reported. */
  function StatusOf(e: GitError): Status {
    match e
    case DirtyTree => Conflict
    case MergeConflict => Conflict
    case TargetMoved => Conflict
    case CommitNotFound => BadRequest
    case CheckoutFailed => BadRequest
  }

  // ----- acceptance and rejection -----

  /** The mission after an accept request; an error leaves the store alone. */
  function Accepting(m: Mission, integrate: bool): (r: Result<Mission, Status>)
    ensures m.state !in {AwaitingAcceptance, Accepted, Integrated} ==> r == Err(Conflict)
    ensures m.state == AwaitingAcceptance || (m.state == Accepted && integrate) ==>
      r == if m.commit.Some? && m.outcome != Some(false) then Ok(m.(state := Accepted)) else Err(Conflict)
    ensures m.state == Integrated || (m.state == Accepted && !integrate) ==> r == Ok(m)
  {
    if m.state == Integrated || (m.state == Accepted && !integrate) then Ok(m)
    else if m.state != AwaitingAcceptance && m.state != Accepted then Err(Conflict)
    else if m.commit == None || m.outcome == Some(false) then Err(Conflict)
    else Ok(m.Try(Accepted))
  }

  function Rejecting(m: Mission, replan: bool): (r: Result<Mission, Status>)
    ensures r.Ok? <==> m.state in {AwaitingAcceptance, Accepted}
    ensures r.Err? ==> r.error == Conflict
  {
    if m.state != AwaitingAcceptance && m.state != Accepted then Err(Conflict)
    else Ok(m.Try(if replan then Replanning else Rejected))
  }

  /** The reply to a reject request names the state that was asked for, and that is the state stored
      exactly when it is not a replan of an accepted mission: the lifecycle table has no such step. */
  lemma RejectReportsTruthfully(m: Mission, replan: bool)
    requires Rejecting(m, replan).Ok?
    ensures Rejecting(m, replan).value.state == (if replan then Replanning else Rejected)
       <==> !(replan && m.state == Accepted)
    ensures replan && m.state == Accepted ==> Rejecting(m, replan).value == m
  {
  }

  // ----- restart -----

  /** The commit and the branch a restart looks at. */
  function Candidate(m: Mission): Option<Commit> {
    if m.commit.Some? then m.commit else if m.intent.Some? then Some(m.intent.value.candidate) else None
  }

  function RecordedTarget(m: Mission): Branch {
    if m.intent.Some? then m.intent.value.target else if m.target.Some? then m.target.value else MAIN
  }

  ghost predicate Landed(m: Mission, repos: map<WorkspaceId, Repo>) {
    && m.workspace.Some? && m.workspace.value in repos && Candidate(m).Some?
    && repos[m.workspace.value].Contains(RecordedTarget(m), Candidate(m).value)
  }

  /** What a restart makes of a mission: an interrupted integration is settled by the repository. */
  ghost function Reconciled(m: Mission, repos: map<WorkspaceId, Repo>): Mission {
    if m.state != Integrating then m
    else if Landed(m, repos) then m.(state := Integrated, target := Some(RecordedTarget(m)))
    else m.(state := Accepted)
  }
}
