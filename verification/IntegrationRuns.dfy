/** What holds in every run of the integration protocol. */
module IntegrationRuns {
  import opened Results
  import opened Git
  import opened Missions
  import opened Integration

  /** A server that has just been set up. */
  ghost predicate Init(s: State) {
    && s.calls == map[] && s.locks == map[] && s.held == map[]
    && forall m :: m in s.missions ==> s.missions[m].state !in {MissionState.Integrating, Integrated}
  }

  ghost predicate Run(states: seq<State>, steps: seq<Step>) {
    && |states| == |steps| + 1
    && forall i :: 0 <= i < |steps| ==> Next(states[i], steps[i], states[i + 1])
  }

  lemma {:induction false} RunKeeps(states: seq<State>, steps: seq<Step>, i: nat)
    requires Run(states, steps) && Init(states[0]) && i < |states|
    ensures Inv(states[i])
  {
    if i > 0 {
      RunKeeps(states, steps, i - 1);
      assert Next(states[i - 1], steps[i - 1], states[i]);
      StepKeeps(states[i - 1], steps[i - 1], states[i]);
    }
  }

  /** Whatever is interleaved, crashes included: a mission stored as integrated has its verified commit
      on the branch it names. */
  lemma IntegratedIsOnItsBranch(states: seq<State>, steps: seq<Step>, i: nat, m: MissionId)
    requires Run(states, steps) && Init(states[0]) && i < |states|
    requires m in states[i].missions && states[i].missions[m].state == Integrated
    requires Workspace(states[i], states[i].missions[m]).Some?
    ensures var record := states[i].missions[m];
      && record.target.Some? && record.commit.Some?
      && states[i].repos[Workspace(states[i], record).value].Contains(record.target.value, record.commit.value)
  {
    RunKeeps(states, steps, i);
    assert MissionOk(states[i], states[i].missions[m]);
  }

  /** Nothing that failed its verification is ever being integrated, or stored as integrated. */
  lemma FailedStaysOut(states: seq<State>, steps: seq<Step>, i: nat)
    requires Run(states, steps) && Init(states[0]) && i < |states|
    ensures forall id :: id in states[i].calls && states[i].calls[id].phase.HasCopy() ==>
      states[i].calls[id].phase.copy.commit.Some? && states[i].calls[id].phase.copy.outcome != Some(false)
    ensures forall m :: m in states[i].missions && states[i].missions[m].outcome == Some(false) ==>
      states[i].missions[m].state !in {MissionState.Integrating, Integrated}
  {
    RunKeeps(states, steps, i);
    var s := states[i];
    forall id | id in s.calls && s.calls[id].phase.HasCopy()
      ensures s.calls[id].phase.copy.commit.Some? && s.calls[id].phase.copy.outcome != Some(false)
    {
      assert CallOk(s, id, s.calls[id]);
    }
    forall m | m in s.missions && s.missions[m].outcome == Some(false) ensures s.missions[m].state !in {MissionState.Integrating, Integrated} {
      assert MissionOk(s, s.missions[m]);
    }
  }

  /** A merge that expects a certain head on its branch moves the branch from that head only, never back, and no other
      branch at all; a refused one moves nothing. */
  lemma MergeMovesWhatItExpects(s: State, id: CallId, repo: Repo, err: Option<GitError>, s': State, ws: WorkspaceId)
    requires Next(s, Merge(id, repo, err), s') && Workspace(s, s.calls[id].phase.copy) == Some(ws)
    ensures var target, expected, was, now := s.calls[id].target, s.calls[id].phase.copy.intent.value.expected, s.repos[ws], s'.repos[ws];
      && (forall b :: b in was.heads ==> b in now.heads && now.Contains(b, was.heads[b]))
      && (forall b :: b in was.heads && now.heads[b] != was.heads[b] ==>
            b == target && err == None && (expected.Some? ==> was.heads[b] == expected.value))
      && (err.Some? ==> now.history == was.history)
  {
  }

  // ----- locks and replies -----

  /** Every call that has asked for the lock of a workspace got the same one. */
  lemma OneLockPerWorkspace(states: seq<State>, steps: seq<Step>, i: nat, a: CallId, b: CallId)
    requires Run(states, steps) && Init(states[0]) && i < |states| && a in states[i].calls && b in states[i].calls
    requires LockAsked(states[i].calls[a]).Some? && LockAsked(states[i].calls[b]).Some?
    ensures LockAsked(states[i].calls[a]).value.ws == LockAsked(states[i].calls[b]).value.ws
       <==> LockAsked(states[i].calls[a]).value.lock == LockAsked(states[i].calls[b]).value.lock
  {
    RunKeeps(states, steps, i);
    assert CallOk(states[i], a, states[i].calls[a]) && CallOk(states[i], b, states[i].calls[b]);
  }

  function LockAsked(c: Call): Option<Guard> {
    if c.phase.Queued? then Some(Guard(c.phase.ws, c.phase.lock)) else c.guard
  }

  /** Two calls past the lock on the same workspace are the same call. */
  lemma OneCallPerWorkspace(states: seq<State>, steps: seq<Step>, i: nat, a: CallId, b: CallId, ws: WorkspaceId)
    requires Run(states, steps) && Init(states[0]) && i < |states| && a in states[i].calls && b in states[i].calls
    requires states[i].calls[a].phase.Inside() && states[i].calls[b].phase.Inside()
    requires Bound(states[i], states[i].calls[a].mission, ws) && Bound(states[i], states[i].calls[b].mission, ws)
    ensures a == b
  {
    RunKeeps(states, steps, i);
    OnlyOneInside(states[i], a, b);
  }

  /** Over all calls ever made for a mission with a workspace, one at most reports a fresh integration. */
  lemma OneFreshReply(states: seq<State>, steps: seq<Step>, i: nat, m: MissionId, a: CallId, b: CallId)
    requires Run(states, steps) && Init(states[0]) && i < |states|
    requires m in states[i].missions && states[i].missions[m].workspace.Some?
    requires FreshFor(states[i], a, m) && FreshFor(states[i], b, m)
    ensures a == b && states[i].missions[m].state == Integrated
  {
    RunKeeps(states, steps, i);
    assert CallOk(states[i], a, states[i].calls[a]);
  }

  // ----- restarts -----

  /** After a restart no mission is left integrating, and an interrupted one counts as integrated
      exactly when its commit is on the branch it was meant for; every other mission is untouched. */
  lemma RestartSettles(states: seq<State>, steps: seq<Step>, i: nat, m: MissionId)
    requires Run(states, steps) && Init(states[0]) && i < |steps| && steps[i] == Reconcile
    requires m in states[i].missions
    ensures var was, now := states[i].missions[m], states[i + 1].missions;
      && m in now && now[m].state != MissionState.Integrating
      && (was.state != MissionState.Integrating ==> now[m] == was)
      && (was.state == MissionState.Integrating ==>
            && was.intent.Some? && now[m].state in {Integrated, Accepted}
            && (now[m].state == Integrated <==>
                  && was.workspace.Some? && was.workspace.value in states[i].repos
                  && states[i].repos[was.workspace.value].Contains(was.intent.value.target, was.intent.value.candidate)))
  {
    RunKeeps(states, steps, i);
    assert MissionOk(states[i], states[i].missions[m]);
  }

  /** A crash after the merge loses nothing: unless the mission was cancelled meanwhile, the restart
      finds the commit and records the integration the call was about to record. */
  lemma MergedSurvivesCrash(states: seq<State>, steps: seq<Step>, i: nat, id: CallId)
    requires Run(states, steps) && Init(states[0]) && i < |states|
    requires id in states[i].calls && states[i].calls[id].phase.Merged?
    requires var c := states[i].calls[id];
      c.mission in states[i].missions && states[i].missions[c.mission].state == MissionState.Integrating
      && Workspace(states[i], c.phase.copy).Some?
    ensures var c := states[i].calls[id];
      var crashed := Crashed(states[i]);
      && Next(crashed, Reconcile, Restarted(crashed))
      && Restarted(crashed).missions[c.mission] == Finished(c.phase.copy, c.target)
  {
    RunKeeps(states, steps, i);
    assert CallOk(states[i], id, states[i].calls[id]);
  }

  // ----- acceptance -----

  predicate Untouched(state: MissionState) {
    state !in {Accepted, Completed, MissionState.Integrating, Integrated}
  }

  ghost predicate NoCopyOf(s: State, m: MissionId) {
    forall id :: id in s.calls && s.calls[id].mission == m ==> !s.calls[id].phase.HasCopy()
  }

  predicate ByOperator(step: Step) {
    step.Accept? || step.Reject? || step.Cancel? || step.Engine? || step.Reconcile?
  }

  lemma UntouchedStep(s: State, step: Step, s': State, m: MissionId)
    requires Next(s, step, s') && m in s.missions && Untouched(s.missions[m].state) && NoCopyOf(s, m)
    requires forall integrate :: step != Accept(m, integrate)
    requires m in s'.missions ==> s'.missions[m].state != Completed
    ensures m in s'.missions && Untouched(s'.missions[m].state) && NoCopyOf(s', m)
  {
    NoNewCopy(s, step, s', m);
    if !ByOperator(step) {
      CallsLeaveAlone(s, step, s', m);
    } else if step.Accept? {
      assert step == Accept(step.mission, step.integrate);
      assert step.mission != m;
    }
  }

  /** Without a copy of a mission no call can change it. */
  lemma CallsLeaveAlone(s: State, step: Step, s': State, m: MissionId)
    requires Next(s, step, s') && m in s.missions && NoCopyOf(s, m) && !ByOperator(step)
    ensures m in s'.missions && s'.missions[m] == s.missions[m]
  {
    if step.Begin? || step.Finish? || step.RollBack? {
      WritersLeaveAlone(s, step, s', m);
    }
  }

  lemma WritersLeaveAlone(s: State, step: Step, s': State, m: MissionId)
    requires Next(s, step, s') && m in s.missions && NoCopyOf(s, m) && (step.Begin? || step.Finish? || step.RollBack?)
    ensures m in s'.missions && s'.missions[m] == s.missions[m]
  {
    assert s.calls[step.id].mission != m;
  }

  /** A copy is made only of an accepted or completed mission. */
  lemma NoNewCopy(s: State, step: Step, s': State, m: MissionId)
    requires Next(s, step, s') && m in s.missions && Untouched(s.missions[m].state) && NoCopyOf(s, m)
    ensures NoCopyOf(s', m)
  {
    if step.Begin? || step.Merge? || step.Finish? || step.RollBack? {
      RecordsNoCopy(s, step, s', m);
    } else if step.Recheck? {
      RecheckNoCopy(s, step.id, s', m);
    } else if step.Open? || step.Fetch? || step.LookUp? || step.Insert? || step.Acquire? || step.Drop? {
      StaysOut(s, s', step.id, m);
    }
  }

  lemma RecheckNoCopy(s: State, id: CallId, s': State, m: MissionId)
    requires Next(s, Recheck(id), s') && m in s.missions && Untouched(s.missions[m].state) && NoCopyOf(s, m)
    ensures NoCopyOf(s', m)
  {
    StaysOut(s, s', id, m);
  }

  lemma RecordsNoCopy(s: State, step: Step, s': State, m: MissionId)
    requires Next(s, step, s') && NoCopyOf(s, m) && (step.Begin? || step.Merge? || step.Finish? || step.RollBack?)
    ensures NoCopyOf(s', m)
  {
    assert s.calls[step.id].mission != m;
    StaysOut(s, s', step.id, m);
  }

  lemma StaysOut(s: State, s': State, id: CallId, m: MissionId)
    requires NoCopyOf(s, m) && id in s'.calls && s'.calls == s.calls[id := s'.calls[id]]
    requires s'.calls[id].mission == m ==> !s'.calls[id].phase.HasCopy()
    ensures NoCopyOf(s', m)
  {
  }

  /** A mission gets integrated only after it was accepted or was completed without acceptance. */
  lemma {:induction false} IntegrationNeedsAcceptance(states: seq<State>, steps: seq<Step>, m: MissionId, n: nat)
    requires Run(states, steps) && n < |states|
    requires m in states[0].missions && Untouched(states[0].missions[m].state) && NoCopyOf(states[0], m)
    requires forall i, integrate :: 0 <= i < n ==> steps[i] != Accept(m, integrate)
    requires forall i :: 0 <= i <= n && m in states[i].missions ==> states[i].missions[m].state != Completed
    ensures m in states[n].missions && Untouched(states[n].missions[m].state) && NoCopyOf(states[n], m)
  {
    if n > 0 {
      IntegrationNeedsAcceptance(states, steps, m, n - 1);
      assert Next(states[n - 1], steps[n - 1], states[n]);
      UntouchedStep(states[n - 1], steps[n - 1], states[n], m);
    }
  }

  predicate AtTheGate(state: MissionState) {
    state in {AwaitingAcceptance, Rejected, MissionState.Cancelled}
  }

  /** A mission that awaits acceptance stays out of the repository for as long as nobody accepts it and
      nobody sends it back for another round. */
  lemma {:induction false} AwaitingNeverIntegrates(states: seq<State>, steps: seq<Step>, m: MissionId, n: nat)
    requires Run(states, steps) && n < |states|
    requires m in states[0].missions && states[0].missions[m].state == AwaitingAcceptance && NoCopyOf(states[0], m)
    requires forall i :: 0 <= i < n ==> steps[i] !in {Accept(m, true), Accept(m, false), Reject(m, true)}
    ensures m in states[n].missions && AtTheGate(states[n].missions[m].state) && NoCopyOf(states[n], m)
  {
    if n > 0 {
      AwaitingNeverIntegrates(states, steps, m, n - 1);
      assert Next(states[n - 1], steps[n - 1], states[n]);
      GateStep(states[n - 1], steps[n - 1], states[n], m);
    }
  }

  lemma GateStep(s: State, step: Step, s': State, m: MissionId)
    requires Next(s, step, s') && m in s.missions && AtTheGate(s.missions[m].state) && NoCopyOf(s, m)
    requires step !in {Accept(m, true), Accept(m, false), Reject(m, true)}
    ensures m in s'.missions && AtTheGate(s'.missions[m].state) && NoCopyOf(s', m)
  {
    assert m in s'.missions && AtTheGate(s'.missions[m].state) by {
      GateState(s, step, s', m);
    }
    UntouchedStep(s, step, s', m);
  }

  lemma GateState(s: State, step: Step, s': State, m: MissionId)
    requires Next(s, step, s') && m in s.missions && AtTheGate(s.missions[m].state) && NoCopyOf(s, m)
    requires step !in {Accept(m, true), Accept(m, false), Reject(m, true)}
    ensures m in s'.missions && AtTheGate(s'.missions[m].state)
  {
    if !ByOperator(step) {
      CallsLeaveAlone(s, step, s', m);
    }
  }

  // ----- one call on its own -----

  lemma RunJoin(a: seq<State>, x: seq<Step>, b: seq<State>, y: seq<Step>)
    requires Run(a, x) && Run(b, y) && a[|x|] == b[0]
    ensures Run(a + b[1..], x + y)
  {
    var states, steps := a + b[1..], x + y;
    forall i | 0 <= i < |steps| ensures Next(states[i], steps[i], states[i + 1]) {
      if i < |x| {
        assert Next(a[i], x[i], a[i + 1]);
      } else {
        assert Next(b[i - |x|], y[i - |x|], b[i - |x| + 1]);
      }
    }
  }

  /** On a fresh server one call is enough to integrate a mission that passes the checks; acceptance is
      not among them when the mission is `Completed`. */
  lemma LoneCallIntegrates(s: State, id: CallId, m: MissionId, target: Branch, repo: Repo)
    returns (states: seq<State>, steps: seq<Step>)
    requires Init(s) && Mergeable(s, m, target, repo)
    ensures Run(states, steps) && states[0] == s && forall step :: step in steps ==> !step.Accept?
    ensures var end := states[|steps|];
      m in end.missions && end.missions[m].state == Integrated && FreshFor(end, id, m)
  {
    var to, from, end := [Open(id, m, target, None, false), Fetch(id), LookUp(id), Insert(id), Acquire(id)],
                         [Recheck(id), Begin(id)], [Merge(id, repo, None), Finish(id)];
    var before := ToTheLock(s, id, m, target);
    var middle := FromTheLock(before[5], id, m, target, repo);
    var after := ToTheEnd(middle[2], id, m, repo);
    RunJoin(middle, from, after, end);
    RunJoin(before, to, middle + after[1..], from + end);
    states, steps := before + (middle + after[1..])[1..], to + (from + end);
  }

  ghost predicate AtTheLock(s: State, id: CallId, m: MissionId, target: Branch) {
    id in s.calls && s.calls[id].phase == Entered && s.calls[id].mission == m && s.calls[id].target == target
    && s.calls[id].given == None && !s.calls[id].force && s.calls[id].guard.Some?
  }

  lemma ToTheLock(s: State, id: CallId, m: MissionId, target: Branch) returns (states: seq<State>)
    requires Init(s) && m in s.missions && Admit(s.missions[m]) == None && s.missions[m].workspace.Some?
    ensures Run(states, [Open(id, m, target, None, false), Fetch(id), LookUp(id), Insert(id), Acquire(id)])
    ensures states[0] == s && states[5].missions == s.missions && states[5].repos == s.repos
    ensures AtTheLock(states[5], id, m, target)
  {
    var s1 := WithCall(s, id, Call(m, target, None, false, None, Fetching));
    var s2 := AfterFetch(s1, id);
    var s3 := AfterLookUp(s2, id);
    var s4 := AfterInsert(s3, id);
    states := [s, s1, s2, s3, s4, AfterAcquire(s4, id)];
  }

  ghost predicate Mergeable(s: State, m: MissionId, target: Branch, repo: Repo) {
    && m in s.missions && Admit(s.missions[m]) == None && s.missions[m].workspace.Some?
    && s.missions[m].workspace.value in s.repos
    && Integrates(s.repos[s.missions[m].workspace.value], repo, target, s.missions[m].commit.value, s.missions[m].verifiedHead, None)
  }

  lemma FromTheLock(s: State, id: CallId, m: MissionId, target: Branch, repo: Repo) returns (states: seq<State>)
    requires AtTheLock(s, id, m, target) && Mergeable(s, m, target, repo)
    ensures Run(states, [Recheck(id), Begin(id)]) && states[0] == s
    ensures var s2 := states[2];
      && id in s2.calls && s2.calls[id].phase.Begun? && MergeAllowed(s2, s2.calls[id], repo, None)
      && s2.calls[id].mission == m && m in s2.missions && s2.calls[id].phase.copy.state == MissionState.Integrating
  {
    var s1 := AfterRecheck(s, id);
    states := [s, s1, AfterBegin(s1, id)];
  }

  lemma ToTheEnd(s: State, id: CallId, m: MissionId, repo: Repo) returns (states: seq<State>)
    requires id in s.calls && s.calls[id].phase.Begun? && MergeAllowed(s, s.calls[id], repo, None)
    requires s.calls[id].mission == m && m in s.missions && s.calls[id].phase.copy.state == MissionState.Integrating
    ensures Run(states, [Merge(id, repo, None), Finish(id)]) && states[0] == s
    ensures m in states[2].missions && states[2].missions[m].state == Integrated && FreshFor(states[2], id, m)
  {
    var s1 := AfterMerge(s, id, repo, None);
    states := [s, s1, AfterFinish(s1, id)];
  }
}
