/** Mission integration as a protocol: any number of concurrent integration calls, operators, the
    mission engine, other git users, crashes and restarts, interleaved step by step. */
module Integration {
  import opened Results
  import opened Git
  import opened Missions

  datatype CallId = CallId(n: nat)
  datatype LockId = LockId(n: nat)

  /** How far an integration call has come. From `Entered` to `Refuted` it is past the lock; a copy is
      the mission record it will write back whole. */
  datatype Phase =
    | Fetching
    | Seeking(ws: WorkspaceId)
    | Missed(ws: WorkspaceId)
    | Queued(ws: WorkspaceId, lock: LockId)
    | Entered
    | Admitted(copy: Mission)
    | Begun(copy: Mission)
    | Merged(copy: Mission)
    | Refuted(copy: Mission, why: GitError)
    | Replied(reply: Reply)
  {
    predicate HasCopy() { Admitted? || Begun? || Merged? || Refuted? }

    predicate Inside() { Entered? || HasCopy() }
  }

  datatype Guard = Guard(ws: WorkspaceId, lock: LockId)

  datatype Call = Call(
    mission: MissionId, target: Branch, given: Option<Commit>, force: bool, guard: Option<Guard>, phase: Phase)

  datatype State = State(
    missions: map<MissionId, Mission>,
    repos: map<WorkspaceId, Repo>,
    locks: map<WorkspaceId, LockId>,
    held: map<LockId, CallId>,
    calls: map<CallId, Call>,
    nextLock: nat)

  datatype Step =
    | Open(id: CallId, mission: MissionId, target: Branch, given: Option<Commit>, force: bool)
    | Fetch(id: CallId)
    | LookUp(id: CallId)
    | Insert(id: CallId)
    | Acquire(id: CallId)
    | Recheck(id: CallId)
    | Begin(id: CallId)
    | Merge(id: CallId, repo: Repo, err: Option<GitError>)
    | Finish(id: CallId)
    | RollBack(id: CallId, stored: bool)
    | Drop(id: CallId)
    | Accept(mission: MissionId, integrate: bool)
    | Reject(mission: MissionId, replan: bool)
    | Cancel(mission: MissionId)
    | Engine(mission: MissionId, record: Mission)
    | GitWork(ws: WorkspaceId, repo: Repo)
    | Crash
    | Reconcile

  ghost predicate NoLiveCall(s: State) {
    forall id :: id in s.calls ==> s.calls[id].phase.Replied?
  }

  /** `step` may take `s` to `s'`. */
  ghost predicate Next(s: State, step: Step, s': State) {
    match step
    case Open(id, m, target, given, force) =>
      id !in s.calls && s' == WithCall(s, id, Call(m, target, given, force, None, Fetching))
    case Fetch(id) => id in s.calls && s.calls[id].phase.Fetching? && s' == AfterFetch(s, id)
    case LookUp(id) => id in s.calls && s.calls[id].phase.Seeking? && s' == AfterLookUp(s, id)
    case Insert(id) => id in s.calls && s.calls[id].phase.Missed? && s' == AfterInsert(s, id)
    case Acquire(id) =>
      id in s.calls && s.calls[id].phase.Queued? && s.calls[id].phase.lock !in s.held && s' == AfterAcquire(s, id)
    case Recheck(id) => id in s.calls && s.calls[id].phase.Entered? && s' == AfterRecheck(s, id)
    case Begin(id) => id in s.calls && s.calls[id].phase.Admitted? && s' == AfterBegin(s, id)
    case Merge(id, repo, err) =>
      id in s.calls && s.calls[id].phase.Begun? && MergeAllowed(s, s.calls[id], repo, err) && s' == AfterMerge(s, id, repo, err)
    case Finish(id) => id in s.calls && s.calls[id].phase.Merged? && s' == AfterFinish(s, id)
    case RollBack(id, stored) => id in s.calls && s.calls[id].phase.Refuted? && s' == AfterRollBack(s, id, stored)
    case Drop(id) => id in s.calls && !s.calls[id].phase.Replied? && s' == Answer(s, id, Refused(Internal))
    case Accept(m, integrate) =>
      m in s.missions && Accepting(s.missions[m], integrate).Ok? && s' == WithMission(s, m, Accepting(s.missions[m], integrate).value)
    case Reject(m, replan) =>
      m in s.missions && Rejecting(s.missions[m], replan).Ok? && s' == WithMission(s, m, Rejecting(s.missions[m], replan).value)
    case Cancel(m) =>
      m in s.missions && s.missions[m].state.CanTransitionTo(Cancelled) && s' == WithMission(s, m, s.missions[m].(state := Cancelled))
    case Engine(m, record) => m in s.missions && EngineMay(s.missions[m], record) && s' == WithMission(s, m, record)
    case GitWork(ws, repo) => ws in s.repos && Grows(s.repos[ws], repo) && s' == s.(repos := s.repos[ws := repo])
    case Crash => s' == Crashed(s)
    case Reconcile => NoLiveCall(s) && s' == Restarted(s)
  }

  /** With the workspace at hand git decides; without it the merge is skipped. */
  ghost predicate MergeAllowed(s: State, c: Call, repo: Repo, err: Option<GitError>) {
    && c.phase.Begun?
    && match Workspace(s, c.phase.copy)
       case None => err == None
       case Some(ws) =>
         && c.phase.copy.intent.Some?
         && Integrates(s.repos[ws], repo, c.target, c.phase.copy.intent.value.candidate, c.phase.copy.intent.value.expected, err)
  }

  /** The workspace of a mission, when it is bound and can be read. */
  function Workspace(s: State, m: Mission): (ws: Option<WorkspaceId>)
    ensures ws.Some? ==> ws.value in s.repos
  {
    if m.workspace.Some? && m.workspace.value in s.repos then m.workspace else None
  }

  /** The engine drives the missions it owns, and may record a newer commit on one that awaits
      acceptance; it neither accepts nor integrates. */
  predicate EngineMay(m: Mission, record: Mission) {
    && record.workspace == m.workspace
    && m.state.CanTransitionTo(record.state)
    && (m.state.EngineOwned() || m.state == AwaitingAcceptance == record.state)
  }

  /** What operators can do at any time: move missions as the lifecycle allows. */
  lemma OperatorsMayAct(s: State, m: MissionId)
    requires m in s.missions
    ensures s.missions[m].state == AwaitingAcceptance && s.missions[m].commit.Some? && s.missions[m].outcome != Some(false) ==>
      Next(s, Accept(m, false), WithMission(s, m, s.missions[m].(state := Accepted)))
    ensures s.missions[m].state in {AwaitingAcceptance, Accepted} ==>
      Next(s, Reject(m, false), WithMission(s, m, s.missions[m].(state := Rejected)))
    ensures s.missions[m].state in {AwaitingAcceptance, Accepted, MissionState.Integrating, Rejected} ==>
      Next(s, Cancel(m), WithMission(s, m, s.missions[m].(state := Cancelled)))
  {
  }

  /** The engine moves the missions it drives as the lifecycle allows, and may record another commit; on a mission that
      awaits acceptance it may do only the latter. */
  lemma EngineMayAct(m: Mission, next: MissionState, commit: Option<Commit>)
    ensures EngineMay(m, m.(state := next, commit := commit)) <==>
      || (m.state in {Created, Planning, MissionState.Running, Waiting, MissionState.Replanning, NeedsHuman, Verifying} && m.state.CanTransitionTo(next))
      || (m.state == AwaitingAcceptance && next == AwaitingAcceptance)
  {
  }

  /** Other users of git let branches grow, and the server may crash, at any time. */
  lemma OthersMayAct(s: State, ws: WorkspaceId, repo: Repo)
    requires ws in s.repos && Grows(s.repos[ws], repo)
    ensures Next(s, GitWork(ws, repo), State(s.missions, s.repos[ws := repo], s.locks, s.held, s.calls, s.nextLock))
    ensures Next(s, Crash, Crashed(s)) && Crashed(s).missions == s.missions && Crashed(s).repos == s.repos
    ensures Crashed(s).held == map[] && Crashed(s).locks == map[]
    ensures forall id :: id in Crashed(s).calls ==> s.calls[id].phase.Replied?
  {
  }

  // ----- the effect of each step -----

  function WithCall(s: State, id: CallId, c: Call): State {
    s.(calls := s.calls[id := c])
  }

  function WithMission(s: State, m: MissionId, record: Mission): State {
    s.(missions := s.missions[m := record])
  }

  function Answer(s: State, id: CallId, reply: Reply): State
    requires id in s.calls
  {
    Released(s, id).(calls := s.calls[id := s.calls[id].(guard := None, phase := Replied(reply))])
  }

  function Released(s: State, id: CallId): State
    requires id in s.calls
  {
    if s.calls[id].guard.Some? then s.(held := s.held - {s.calls[id].guard.value.lock}) else s
  }

  function AfterFetch(s: State, id: CallId): State
    requires id in s.calls
  {
    var c := s.calls[id];
    if c.mission !in s.missions then Answer(s, id, Refused(NotFound))
    else
      var m := s.missions[c.mission];
      if Gate(m.state).Some? then Answer(s, id, Gate(m.state).value)
      else WithCall(s, id, c.(phase := if m.workspace.Some? then Seeking(m.workspace.value) else Entered))
  }

  /** The fast path, under the read lock. */
  function AfterLookUp(s: State, id: CallId): State
    requires id in s.calls && s.calls[id].phase.Seeking?
  {
    var c := s.calls[id];
    var ws := c.phase.ws;
    WithCall(s, id, c.(phase := if ws in s.locks then Queued(ws, s.locks[ws]) else Missed(ws)))
  }

  /** Under the write lock the entry is looked up again before one is made. */
  function AfterInsert(s: State, id: CallId): State
    requires id in s.calls && s.calls[id].phase.Missed?
  {
    var c := s.calls[id];
    var ws := c.phase.ws;
    if ws in s.locks then WithCall(s, id, c.(phase := Queued(ws, s.locks[ws])))
    else
      var lock := LockId(s.nextLock);
      WithCall(s, id, c.(phase := Queued(ws, lock))).(locks := s.locks[ws := lock], nextLock := s.nextLock + 1)
  }

  function AfterAcquire(s: State, id: CallId): State
    requires id in s.calls && s.calls[id].phase.Queued?
  {
    var c := s.calls[id];
    WithCall(s, id, c.(guard := Some(Guard(c.phase.ws, c.phase.lock)), phase := Entered)).(held := s.held[c.phase.lock := id])
  }

  function AfterRecheck(s: State, id: CallId): State
    requires id in s.calls
  {
    var c := s.calls[id];
    if c.mission !in s.missions then Answer(s, id, Refused(NotFound))
    else
      var m := s.missions[c.mission];
      if Admit(m).Some? then Answer(s, id, Admit(m).value)
      else WithCall(s, id, c.(phase := Admitted(WithIntent(m, c.target, c.given, c.force))))
  }

  /** The intent is stored. */
  function AfterBegin(s: State, id: CallId): State
    requires id in s.calls && s.calls[id].phase.Admitted?
  {
    var c := s.calls[id];
    WithCall(WithMission(s, c.mission, c.phase.copy), id, c.(phase := Begun(c.phase.copy)))
  }

  function AfterMerge(s: State, id: CallId, repo: Repo, err: Option<GitError>): State
    requires id in s.calls && s.calls[id].phase.Begun?
  {
    var c := s.calls[id];
    var ws := Workspace(s, c.phase.copy);
    WithCall(if ws.Some? then s.(repos := s.repos[ws.value := repo]) else s, id,
             c.(phase := if err == None then Merged(c.phase.copy) else Refuted(c.phase.copy, err.value)))
  }

  function AfterFinish(s: State, id: CallId): State
    requires id in s.calls && s.calls[id].phase.Merged?
  {
    var c := s.calls[id];
    Answer(WithMission(s, c.mission, Finished(c.phase.copy, c.target)), id, Fresh)
  }

  function AfterRollBack(s: State, id: CallId, stored: bool): State
    requires id in s.calls && s.calls[id].phase.Refuted?
  {
    var c := s.calls[id];
    Answer(if stored then WithMission(s, c.mission, RolledBack(c.phase.copy)) else s, id, Refused(StatusOf(c.phase.why)))
  }

  /** Calls in flight and their locks are gone; what was stored stays. */
  function Crashed(s: State): State {
    s.(locks := map[], held := map[], calls := map id | id in s.calls && s.calls[id].phase.Replied? :: s.calls[id])
  }

  ghost function Restarted(s: State): State {
    s.(missions := map m | m in s.missions :: Reconciled(s.missions[m], s.repos))
  }

  // ----- the invariant -----

  /** One lock per workspace, and no lock shared by two. */
  ghost predicate LocksOk(s: State) {
    && (forall ws :: ws in s.locks ==> s.locks[ws].n < s.nextLock)
    && (forall v, w :: v in s.locks && w in s.locks && s.locks[v] == s.locks[w] ==> v == w)
  }

  ghost predicate Bound(s: State, m: MissionId, ws: WorkspaceId) {
    m in s.missions && s.missions[m].workspace == Some(ws)
  }

  ghost predicate IsLockOf(s: State, ws: WorkspaceId, lock: LockId) {
    ws in s.locks && s.locks[ws] == lock
  }

  /** The call holds the lock of its mission's workspace exactly while it is past the lock. */
  ghost predicate GuardOk(s: State, id: CallId, c: Call) {
    && (c.guard.Some? ==> c.phase.Inside() && Bound(s, c.mission, c.guard.value.ws))
    && (c.guard.Some? ==> IsLockOf(s, c.guard.value.ws, c.guard.value.lock))
    && (c.guard.Some? ==> c.guard.value.lock in s.held && s.held[c.guard.value.lock] == id)
    && (c.phase.Inside() ==> c.mission in s.missions && (c.guard == None ==> s.missions[c.mission].workspace == None))
    && (c.phase.Seeking? || c.phase.Missed? || c.phase.Queued? ==> Bound(s, c.mission, c.phase.ws))
    && (c.phase.Queued? ==> IsLockOf(s, c.phase.ws, c.phase.lock))
  }

  /** `m`'s commit is on the branch it names, if its workspace can be read. */
  ghost predicate OnBranchOf(s: State, m: Mission, target: Branch) {
    && m.commit.Some?
    && (Workspace(s, m).Some? ==> s.repos[Workspace(s, m).value].Contains(target, m.commit.value))
  }

  ghost predicate CopyOk(s: State, c: Call, copy: Mission) {
    && c.mission in s.missions && copy.workspace == s.missions[c.mission].workspace
    && copy.state == MissionState.Integrating && copy.commit.Some? && copy.outcome != Some(false)
    && copy.intent.Some? && copy.intent.value.target == c.target && copy.intent.value.candidate == copy.commit.value
    && (copy.workspace.Some? ==> s.missions[c.mission].state != Integrated)
    && (copy.workspace.Some? && !c.phase.Admitted? && s.missions[c.mission].state == MissionState.Integrating ==>
          s.missions[c.mission] == copy)
    && (c.phase.Merged? ==> OnBranchOf(s, copy, c.target))
  }

  ghost predicate CallOk(s: State, id: CallId, c: Call) {
    && GuardOk(s, id, c)
    && (c.phase.HasCopy() ==> CopyOk(s, c, c.phase.copy))
    && (c.phase == Replied(Fresh) ==>
          c.mission in s.missions && (s.missions[c.mission].workspace.Some? ==> s.missions[c.mission].state == Integrated))
  }

  ghost predicate MissionOk(s: State, m: Mission) {
    && (m.state in {MissionState.Integrating, Integrated} ==> m.outcome != Some(false))
    && (m.state == Integrated ==> m.target.Some? && OnBranchOf(s, m, m.target.value))
    && (m.state == MissionState.Integrating ==> m.commit.Some? && m.intent.Some? && m.intent.value.candidate == m.commit.value)
  }

  ghost predicate FreshFor(s: State, id: CallId, m: MissionId) {
    id in s.calls && s.calls[id].mission == m && s.calls[id].phase == Replied(Fresh)
  }

  ghost predicate OneFresh(s: State) {
    forall m, i, j :: m in s.missions && s.missions[m].workspace.Some? && FreshFor(s, i, m) && FreshFor(s, j, m) ==> i == j
  }

  ghost predicate Inv(s: State) {
    && LocksOk(s)
    && (forall id :: id in s.calls ==> CallOk(s, id, s.calls[id]))
    && (forall m :: m in s.missions ==> MissionOk(s, s.missions[m]))
    && OneFresh(s)
  }

  // ----- one step keeps the invariant -----

  /** Past the lock there is one call per workspace. */
  lemma OnlyOneInside(s: State, i: CallId, j: CallId)
    requires Inv(s) && i in s.calls && j in s.calls && s.calls[i].phase.Inside() && s.calls[j].phase.Inside()
    requires s.calls[i].mission in s.missions && s.missions[s.calls[i].mission].workspace.Some?
    requires s.calls[j].mission in s.missions
    requires s.missions[s.calls[i].mission].workspace == s.missions[s.calls[j].mission].workspace
    ensures i == j
  {
    assert GuardOk(s, i, s.calls[i]) && GuardOk(s, j, s.calls[j]) by {
      assert CallOk(s, i, s.calls[i]) && CallOk(s, j, s.calls[j]);
    }
  }

  /** Everything one call can do to the state besides missions and repositories. */
  ghost predicate CallMoves(s: State, s': State, id: CallId) {
    && s'.missions == s.missions && s'.repos == s.repos
    && id in s'.calls && s'.calls == s.calls[id := s'.calls[id]]
    && (forall ws :: ws in s.locks ==> ws in s'.locks && s'.locks[ws] == s.locks[ws])
    && (forall l :: l in s.held && s.held[l] != id ==> l in s'.held && s'.held[l] == s.held[l])
  }

  lemma CallMoveKeeps(s: State, s': State, id: CallId)
    requires Inv(s) && CallMoves(s, s', id) && LocksOk(s') && CallOk(s', id, s'.calls[id])
    requires s'.calls[id].phase == Replied(Fresh) ==>
      forall i :: i != id && FreshFor(s, i, s'.calls[id].mission) ==> s.missions[s'.calls[id].mission].workspace == None
    ensures Inv(s')
  {
    forall i | i in s'.calls ensures CallOk(s', i, s'.calls[i]) {
      if i != id {
        assert CallOk(s, i, s.calls[i]);
      }
    }
    forall m | m in s'.missions ensures MissionOk(s', s'.missions[m]) {
      assert MissionOk(s, s.missions[m]);
    }
    forall m, i, j | m in s'.missions && s'.missions[m].workspace.Some? && FreshFor(s', i, m) && FreshFor(s', j, m)
      ensures i == j
    {
      assert i != id ==> FreshFor(s, i, m);
      assert j != id ==> FreshFor(s, j, m);
    }
  }

  /** A call that leaves the lock gives it back. */
  lemma AnswerKeeps(s: State, id: CallId, reply: Reply)
    requires Inv(s) && id in s.calls && reply != Fresh
    ensures Inv(Answer(s, id, reply)) && CallMoves(s, Answer(s, id, reply), id)
  {
    var s' := Answer(s, id, reply);
    assert CallOk(s, id, s.calls[id]);
    assert CallMoves(s, s', id);
    CallMoveKeeps(s, s', id);
  }

  /** What may be written over a mission without upsetting any call. */
  ghost predicate Writable(s: State, m: MissionId, record: Mission) {
    && m in s.missions && record.workspace == s.missions[m].workspace && MissionOk(s, record)
    && (record.workspace.Some? ==>
      && (s.missions[m].state == Integrated ==> record.state == Integrated)
      && forall id :: id in s.calls && s.calls[id].mission == m && s.calls[id].phase.HasCopy() ==>
           && record.state != Integrated
           && (record.state == MissionState.Integrating && !s.calls[id].phase.Admitted? ==> record == s.calls[id].phase.copy))
  }

  lemma WriteKeeps(s: State, m: MissionId, record: Mission)
    requires Inv(s) && Writable(s, m, record)
    ensures Inv(WithMission(s, m, record))
  {
    var s' := WithMission(s, m, record);
    forall id | id in s'.calls ensures CallOk(s', id, s'.calls[id]) {
      assert CallOk(s, id, s.calls[id]);
    }
    forall n | n in s'.missions ensures MissionOk(s', s'.missions[n]) {
      if n != m {
        assert MissionOk(s, s.missions[n]);
      }
    }
    forall n, i, j | n in s'.missions && s'.missions[n].workspace.Some? && FreshFor(s', i, n) && FreshFor(s', j, n)
      ensures i == j
    {
      assert FreshFor(s, i, n) && FreshFor(s, j, n);
    }
  }

  lemma RepoKeeps(s: State, ws: WorkspaceId, repo: Repo)
    requires Inv(s) && ws in s.repos && Grows(s.repos[ws], repo)
    ensures Inv(s.(repos := s.repos[ws := repo]))
  {
    var s' := s.(repos := s.repos[ws := repo]);
    forall id | id in s'.calls ensures CallOk(s', id, s'.calls[id]) {
      var c := s.calls[id];
      assert CallOk(s, id, c);
      if c.phase.Merged? {
        OnBranchGrows(s, ws, repo, c.phase.copy, c.target);
      }
    }
    forall m | m in s'.missions ensures MissionOk(s', s'.missions[m]) {
      assert MissionOk(s, s.missions[m]);
      if s.missions[m].state == Integrated {
        OnBranchGrows(s, ws, repo, s.missions[m], s.missions[m].target.value);
      }
    }
    forall m, i, j | m in s'.missions && s'.missions[m].workspace.Some? && FreshFor(s', i, m) && FreshFor(s', j, m)
      ensures i == j
    {
      assert FreshFor(s, i, m) && FreshFor(s, j, m);
    }
  }

  lemma OnBranchGrows(s: State, ws: WorkspaceId, repo: Repo, m: Mission, target: Branch)
    requires ws in s.repos && Grows(s.repos[ws], repo) && OnBranchOf(s, m, target)
    ensures OnBranchOf(s.(repos := s.repos[ws := repo]), m, target)
  {
    if Workspace(s, m) == Some(ws) {
      GrowsContains(s.repos[ws], repo, target, m.commit.value);
    }
  }

  // ----- step by step -----

  lemma OpenKeeps(s: State, id: CallId, c: Call)
    requires Inv(s) && id !in s.calls && c.phase.Fetching? && c.guard == None
    ensures Inv(WithCall(s, id, c))
  {
    assert CallMoves(s, WithCall(s, id, c), id);
    CallMoveKeeps(s, WithCall(s, id, c), id);
  }

  lemma FetchKeeps(s: State, id: CallId)
    requires Inv(s) && id in s.calls && s.calls[id].phase.Fetching?
    ensures Inv(AfterFetch(s, id))
  {
    var c := s.calls[id];
    assert CallOk(s, id, c);
    if c.mission !in s.missions {
      AnswerKeeps(s, id, Refused(NotFound));
    } else if Gate(s.missions[c.mission].state).Some? {
      AnswerKeeps(s, id, Gate(s.missions[c.mission].state).value);
    } else {
      CallMoveKeeps(s, AfterFetch(s, id), id);
    }
  }

  lemma LookUpKeeps(s: State, id: CallId)
    requires Inv(s) && id in s.calls && s.calls[id].phase.Seeking?
    ensures Inv(AfterLookUp(s, id))
  {
    assert CallOk(s, id, s.calls[id]);
    CallMoveKeeps(s, AfterLookUp(s, id), id);
  }

  lemma InsertKeeps(s: State, id: CallId)
    requires Inv(s) && id in s.calls && s.calls[id].phase.Missed?
    ensures Inv(AfterInsert(s, id))
  {
    InsertLocks(s, id);
    assert CallOk(s, id, s.calls[id]);
    InsertedCallOk(s, id);
    CallMoveKeeps(s, AfterInsert(s, id), id);
  }

  lemma InsertedCallOk(s: State, id: CallId)
    requires id in s.calls && s.calls[id].phase.Missed? && CallOk(s, id, s.calls[id])
    ensures CallOk(AfterInsert(s, id), id, AfterInsert(s, id).calls[id])
  {
  }

  /** A new lock is one that nobody has. */
  lemma InsertLocks(s: State, id: CallId)
    requires LocksOk(s) && id in s.calls && s.calls[id].phase.Missed?
    ensures LocksOk(AfterInsert(s, id)) && CallMoves(s, AfterInsert(s, id), id)
  {
    var ws := s.calls[id].phase.ws;
    if ws !in s.locks {
      NewLockOk(s.locks, s.nextLock, ws);
    }
  }

  lemma NewLockOk(locks: map<WorkspaceId, LockId>, next: nat, ws: WorkspaceId)
    requires ws !in locks && forall v :: v in locks ==> locks[v].n < next
    requires forall v, w :: v in locks && w in locks && locks[v] == locks[w] ==> v == w
    ensures var locks' := locks[ws := LockId(next)];
      && (forall v :: v in locks' ==> locks'[v].n < next + 1)
      && (forall v, w :: v in locks' && w in locks' && locks'[v] == locks'[w] ==> v == w)
  {
  }

  lemma AcquireKeeps(s: State, id: CallId)
    requires Inv(s) && id in s.calls && s.calls[id].phase.Queued? && s.calls[id].phase.lock !in s.held
    ensures Inv(AfterAcquire(s, id))
  {
    assert CallOk(s, id, s.calls[id]);
    CallMoveKeeps(s, AfterAcquire(s, id), id);
  }

  lemma RecheckKeeps(s: State, id: CallId)
    requires Inv(s) && id in s.calls && s.calls[id].phase.Entered?
    ensures Inv(AfterRecheck(s, id))
  {
    var c := s.calls[id];
    assert CallOk(s, id, c);
    var m := s.missions[c.mission];
    if Admit(m).Some? {
      AnswerKeeps(s, id, Admit(m).value);
    } else {
      CallMoveKeeps(s, AfterRecheck(s, id), id);
    }
  }

  lemma BeginKeeps(s: State, id: CallId)
    requires Inv(s) && id in s.calls && s.calls[id].phase.Admitted?
    ensures Inv(AfterBegin(s, id))
  {
    var c := s.calls[id];
    var copy := c.phase.copy;
    assert CallOk(s, id, c) && CopyOk(s, c, copy);
    OnlyCopy(s, id);
    WriteKeeps(s, c.mission, copy);
    var s1 := WithMission(s, c.mission, copy);
    assert CallOk(s1, id, s1.calls[id]);
    CallMoveKeeps(s1, AfterBegin(s, id), id);
  }

  /** The holder of a copy of a bound mission is the only one. */
  lemma OnlyCopy(s: State, id: CallId)
    requires Inv(s) && id in s.calls && s.calls[id].phase.HasCopy()
    requires s.calls[id].mission in s.missions
    ensures s.missions[s.calls[id].mission].workspace.Some? ==>
      forall j :: j in s.calls && s.calls[j].mission == s.calls[id].mission && s.calls[j].phase.HasCopy() ==> j == id
  {
    if s.missions[s.calls[id].mission].workspace.Some? {
      forall j | j in s.calls && s.calls[j].mission == s.calls[id].mission && s.calls[j].phase.HasCopy() ensures j == id {
        OnlyOneInside(s, id, j);
      }
    }
  }

  lemma MergeKeeps(s: State, id: CallId, repo: Repo, err: Option<GitError>)
    requires Inv(s) && id in s.calls && s.calls[id].phase.Begun? && MergeAllowed(s, s.calls[id], repo, err)
    ensures Inv(AfterMerge(s, id, repo, err))
  {
    var ws := Workspace(s, s.calls[id].phase.copy);
    var s1 := if ws.Some? then s.(repos := s.repos[ws.value := repo]) else s;
    if ws.Some? {
      RepoKeeps(s, ws.value, repo);
    }
    MergedCallOk(s, s1, id, repo, err);
    CallMoveKeeps(s1, AfterMerge(s, id, repo, err), id);
  }

  lemma MergedCallOk(s: State, s1: State, id: CallId, repo: Repo, err: Option<GitError>)
    requires Inv(s1) && id in s.calls && s.calls[id].phase.Begun? && MergeAllowed(s, s.calls[id], repo, err)
    requires var ws := Workspace(s, s.calls[id].phase.copy);
      s1 == if ws.Some? then s.(repos := s.repos[ws.value := repo]) else s
    ensures var s' := AfterMerge(s, id, repo, err);
      CallMoves(s1, s', id) && CallOk(s', id, s'.calls[id])
  {
    assert CallOk(s1, id, s1.calls[id]);
  }

  lemma FinishKeeps(s: State, id: CallId)
    requires Inv(s) && id in s.calls && s.calls[id].phase.Merged?
    ensures Inv(AfterFinish(s, id))
  {
    var s2 := WrittenBack(s, id);
    WrittenBackKeeps(s, id);
    MarkFresh(s2, id);
    FinishedState(s, id);
  }

  lemma FinishedState(s: State, id: CallId)
    requires id in s.calls && s.calls[id].phase.Merged?
    ensures var s2 := WrittenBack(s, id);
      id in s2.calls && AfterFinish(s, id) == WithCall(s2, id, s2.calls[id].(phase := Replied(Fresh)))
  {
    var s2 := WrittenBack(s, id);
    assert s2.calls[id := s2.calls[id].(phase := Replied(Fresh))] == AfterFinish(s, id).calls;
  }

  /** The finished record is stored and the lock given back, but success is not yet reported. */
  function WrittenBack(s: State, id: CallId): State
    requires id in s.calls && s.calls[id].phase.Merged?
  {
    var c := s.calls[id];
    WithMission(Answer(s, id, Already), c.mission, Finished(c.phase.copy, c.target))
  }

  lemma WrittenBackKeeps(s: State, id: CallId)
    requires Inv(s) && id in s.calls && s.calls[id].phase.Merged?
    ensures var s2, m := WrittenBack(s, id), s.calls[id].mission;
      && Inv(s2) && m in s2.missions
      && (s2.missions[m].workspace.Some? ==> s2.missions[m].state == Integrated && forall i :: !FreshFor(s2, i, m))
  {
    var c := s.calls[id];
    AnswerKeeps(s, id, Already);
    FinishWritable(s, id);
    WriteKeeps(Answer(s, id, Already), c.mission, Finished(c.phase.copy, c.target));
    NoFreshYet(s, id);
    forall i ensures FreshFor(WrittenBack(s, id), i, c.mission) ==> FreshFor(s, i, c.mission) {
    }
  }

  lemma FinishWritable(s: State, id: CallId)
    requires Inv(s) && id in s.calls && s.calls[id].phase.Merged?
    ensures var c, s1 := s.calls[id], Answer(s, id, Already);
      Writable(s1, c.mission, Finished(c.phase.copy, c.target))
      && Finished(c.phase.copy, c.target).state == Integrated
  {
    var c := s.calls[id];
    assert CallOk(s, id, c);
    OnlyCopy(s, id);
  }

  /** While one call still has its copy no call has reported a fresh integration. */
  lemma NoFreshYet(s: State, id: CallId)
    requires Inv(s) && id in s.calls && s.calls[id].phase.HasCopy()
    ensures var m := s.calls[id].mission;
      m in s.missions && (s.missions[m].workspace.Some? ==> forall i :: !FreshFor(s, i, m))
  {
    var m := s.calls[id].mission;
    assert CallOk(s, id, s.calls[id]);
    if s.missions[m].workspace.Some? {
      forall i ensures !FreshFor(s, i, m) {
        assert i in s.calls ==> CallOk(s, i, s.calls[i]);
      }
    }
  }

  lemma MarkFresh(s: State, id: CallId)
    requires Inv(s) && id in s.calls && s.calls[id].phase == Replied(Already) && s.calls[id].mission in s.missions
    requires var m := s.calls[id].mission;
      s.missions[m].workspace.Some? ==> s.missions[m].state == Integrated && forall i :: !FreshFor(s, i, m)
    ensures Inv(WithCall(s, id, s.calls[id].(phase := Replied(Fresh))))
  {
    var s' := WithCall(s, id, s.calls[id].(phase := Replied(Fresh)));
    assert CallOk(s, id, s.calls[id]);
    assert CallMoves(s, s', id);
    CallMoveKeeps(s, s', id);
  }

  lemma RollBackKeeps(s: State, id: CallId, stored: bool)
    requires Inv(s) && id in s.calls && s.calls[id].phase.Refuted?
    ensures Inv(AfterRollBack(s, id, stored))
  {
    var c := s.calls[id];
    assert CallOk(s, id, c) && CopyOk(s, c, c.phase.copy);
    var s1 := if stored then WithMission(s, c.mission, RolledBack(c.phase.copy)) else s;
    if stored {
      WriteKeeps(s, c.mission, RolledBack(c.phase.copy));
    }
    AnswerKeeps(s1, id, Refused(StatusOf(c.phase.why)));
  }

  lemma OperatorKeeps(s: State, m: MissionId, record: Mission)
    requires Inv(s) && m in s.missions && record.workspace == s.missions[m].workspace
    requires record == s.missions[m] || (record.state !in {MissionState.Integrating, Integrated} && s.missions[m].state != Integrated)
    ensures Inv(WithMission(s, m, record))
  {
    assert MissionOk(s, s.missions[m]);
    if record == s.missions[m] {
      assert s.missions[m := record] == s.missions;
    } else {
      WriteKeeps(s, m, record);
    }
  }

  lemma CrashKeeps(s: State)
    requires Inv(s)
    ensures Inv(Crashed(s))
  {
    var s' := Crashed(s);
    forall id | id in s'.calls ensures CallOk(s', id, s'.calls[id]) {
      assert CallOk(s, id, s.calls[id]);
    }
    forall m | m in s'.missions ensures MissionOk(s', s'.missions[m]) {
      assert MissionOk(s, s.missions[m]);
    }
    forall m, i, j | m in s'.missions && s'.missions[m].workspace.Some? && FreshFor(s', i, m) && FreshFor(s', j, m)
      ensures i == j
    {
      assert FreshFor(s, i, m) && FreshFor(s, j, m);
    }
  }

  lemma ReconcileKeeps(s: State)
    requires Inv(s) && NoLiveCall(s)
    ensures Inv(Restarted(s))
  {
    var s' := Restarted(s);
    forall id | id in s'.calls ensures CallOk(s', id, s'.calls[id]) {
      assert CallOk(s, id, s.calls[id]);
    }
    forall m | m in s'.missions ensures MissionOk(s', s'.missions[m]) {
      assert MissionOk(s, s.missions[m]);
    }
    forall m, i, j | m in s'.missions && s'.missions[m].workspace.Some? && FreshFor(s', i, m) && FreshFor(s', j, m)
      ensures i == j
    {
      assert FreshFor(s, i, m) && FreshFor(s, j, m);
    }
  }

  /** Every step, by anyone, keeps the invariant. */
  lemma StepKeeps(s: State, step: Step, s': State)
    requires Inv(s) && Next(s, step, s')
    ensures Inv(s')
  {
    if step.Begin? || step.Merge? || step.Finish? || step.RollBack? || step.Drop? {
      WritingStepKeeps(s, step, s');
    } else {
      match step
      case Open(id, m, target, given, force) => OpenKeeps(s, id, Call(m, target, given, force, None, Fetching));
      case Fetch(id) => FetchKeeps(s, id);
      case LookUp(id) => LookUpKeeps(s, id);
      case Insert(id) => InsertKeeps(s, id);
      case Acquire(id) => AcquireKeeps(s, id);
      case Recheck(id) => RecheckKeeps(s, id);
      case GitWork(ws, repo) => RepoKeeps(s, ws, repo);
      case Crash => CrashKeeps(s);
      case Reconcile => ReconcileKeeps(s);
      case _ => OperatorStepKeeps(s, step, s');
    }
  }

  lemma WritingStepKeeps(s: State, step: Step, s': State)
    requires Inv(s) && Next(s, step, s') && (step.Begin? || step.Merge? || step.Finish? || step.RollBack? || step.Drop?)
    ensures Inv(s')
  {
    match step
    case Begin(id) => BeginKeeps(s, id);
    case Merge(id, repo, err) => MergeKeeps(s, id, repo, err);
    case Finish(id) => FinishKeeps(s, id);
    case RollBack(id, stored) => RollBackKeeps(s, id, stored);
    case Drop(id) => AnswerKeeps(s, id, Refused(Internal));
  }

  lemma OperatorStepKeeps(s: State, step: Step, s': State)
    requires Inv(s) && Next(s, step, s') && (step.Accept? || step.Reject? || step.Cancel? || step.Engine?)
    ensures Inv(s')
  {
    match step
    case Accept(m, integrate) => OperatorKeeps(s, m, Accepting(s.missions[m], integrate).value);
    case Reject(m, replan) => OperatorKeeps(s, m, Rejecting(s.missions[m], replan).value);
    case Cancel(m) => OperatorKeeps(s, m, s.missions[m].(state := Cancelled));
    case Engine(m, record) => OperatorKeeps(s, m, record);
  }
}
