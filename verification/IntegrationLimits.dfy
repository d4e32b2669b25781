/** Where the promises about runs of the integration protocol end: runs that break what lies beyond them,
    and the exact conditions. */
module IntegrationLimits {
  import opened Results
  import opened Git
  import opened Missions
  import opened Integration
  import opened IntegrationRuns

  // ----- two fresh replies -----

  /** Two calls for the mission, both past the checks at the door. */
  ghost predicate BothEntered(s: State, m: MissionId, a: CallId, b: CallId) {
    && a != b && m in s.missions && Admit(s.missions[m]) == None && s.missions[m].workspace == None
    && AtTheDoor(s, m, a) && AtTheDoor(s, m, b)
  }

  ghost predicate AtTheDoor(s: State, m: MissionId, id: CallId) {
    id in s.calls && s.calls[id].mission == m && s.calls[id].phase == Entered && s.calls[id].guard == None
  }

  lemma BothComeIn(s: State, m: MissionId, a: CallId, b: CallId, target: Branch) returns (states: seq<State>)
    requires Init(s) && m in s.missions && Admit(s.missions[m]) == None && s.missions[m].workspace == None && a != b
    ensures Run(states, [Open(a, m, target, None, false), Open(b, m, target, None, false), Fetch(a), Fetch(b)])
    ensures states[0] == s && BothEntered(states[4], m, a, b)
  {
    var s1 := WithCall(s, a, Call(m, target, None, false, None, Fetching));
    var s2 := WithCall(s1, b, Call(m, target, None, false, None, Fetching));
    var s3 := AfterFetch(s2, a);
    states := [s, s1, s2, s3, AfterFetch(s3, b)];
  }

  /** Each has stored its intent and is about to write its own copy back. */
  ghost predicate Writes(s: State, m: MissionId, id: CallId) {
    && id in s.calls && s.calls[id].mission == m && s.calls[id].guard == None
    && s.calls[id].phase.Begun? && s.calls[id].phase.copy.workspace == None
  }

  lemma BothBegin(s: State, m: MissionId, a: CallId, b: CallId) returns (states: seq<State>)
    requires BothEntered(s, m, a, b)
    ensures Run(states, [Recheck(a), Recheck(b), Begin(a), Begin(b)]) && states[0] == s
    ensures Writes(states[4], m, a) && Writes(states[4], m, b)
  {
    var s1 := AfterRecheck(s, a);
    var s2 := AfterRecheck(s1, b);
    var s3 := AfterBegin(s2, a);
    states := [s, s1, s2, s3, AfterBegin(s3, b)];
  }

  lemma BothFinish(s: State, m: MissionId, a: CallId, b: CallId, repo: Repo) returns (states: seq<State>)
    requires a != b && Writes(s, m, a) && Writes(s, m, b)
    ensures Run(states, [Merge(a, repo, None), Merge(b, repo, None), Finish(a), Finish(b)]) && states[0] == s
    ensures FreshFor(states[4], a, m) && FreshFor(states[4], b, m)
  {
    var s1 := AfterMerge(s, a, repo, None);
    var s2 := AfterMerge(s1, b, repo, None);
    var s3 := AfterFinish(s2, a);
    states := [s, s1, s2, s3, AfterFinish(s3, b)];
  }

  /** Without a workspace there is no lock, and two calls for one mission both report a fresh integration. */
  lemma TwoFreshReplies(s: State, m: MissionId, a: CallId, b: CallId, target: Branch) returns (states: seq<State>, steps: seq<Step>)
    requires Init(s) && m in s.missions && Admit(s.missions[m]) == None && s.missions[m].workspace == None && a != b
    ensures Run(states, steps) && states[0] == s
    ensures FreshFor(states[|steps|], a, m) && FreshFor(states[|steps|], b, m)
  {
    var repo := Repo(map[], map[]);
    var x, y, z := [Open(a, m, target, None, false), Open(b, m, target, None, false), Fetch(a), Fetch(b)],
                   [Recheck(a), Recheck(b), Begin(a), Begin(b)], [Merge(a, repo, None), Merge(b, repo, None), Finish(a), Finish(b)];
    var into := BothComeIn(s, m, a, b, target);
    var past := BothBegin(into[4], m, a, b);
    var out := BothFinish(past[4], m, a, b, repo);
    RunJoin(past, y, out, z);
    RunJoin(into, x, past + out[1..], y + z);
    states, steps := into + (past + out[1..])[1..], x + (y + z);
  }

  /** A mission never changes its workspace. */
  lemma StepKeepsWorkspace(s: State, step: Step, s': State, m: MissionId)
    requires Inv(s) && Next(s, step, s') && m in s.missions
    ensures m in s'.missions && s'.missions[m].workspace == s.missions[m].workspace
  {
    if step.Begin? || step.Finish? || step.RollBack? {
      WriteBackKeepsWorkspace(s, step, s', m);
    } else if ByOperator(step) {
      OperatorKeepsWorkspace(s, step, s', m);
    }
  }

  lemma OperatorKeepsWorkspace(s: State, step: Step, s': State, m: MissionId)
    requires Next(s, step, s') && m in s.missions && ByOperator(step)
    ensures m in s'.missions && s'.missions[m].workspace == s.missions[m].workspace
  {
  }

  lemma WriteBackKeepsWorkspace(s: State, step: Step, s': State, m: MissionId)
    requires Inv(s) && Next(s, step, s') && m in s.missions && (step.Begin? || step.Finish? || step.RollBack?)
    ensures m in s'.missions && s'.missions[m].workspace == s.missions[m].workspace
  {
    var c := s.calls[step.id];
    assert CopyOk(s, c, c.phase.copy) by {
      assert CallOk(s, step.id, c);
    }
    WrittenWorkspace(s, step, s', m);
  }

  lemma WrittenWorkspace(s: State, step: Step, s': State, m: MissionId)
    requires Next(s, step, s') && m in s.missions && (step.Begin? || step.Finish? || step.RollBack?)
    requires var c := s.calls[step.id]; c.mission in s.missions && c.phase.copy.workspace == s.missions[c.mission].workspace
    ensures m in s'.missions && s'.missions[m].workspace == s.missions[m].workspace
  {
  }

  lemma {:induction false} RunKeepsWorkspace(states: seq<State>, steps: seq<Step>, m: MissionId, i: nat)
    requires Run(states, steps) && Init(states[0]) && i < |states| && m in states[0].missions
    ensures m in states[i].missions && states[i].missions[m].workspace == states[0].missions[m].workspace
  {
    if i > 0 {
      RunKeepsWorkspace(states, steps, m, i - 1);
      RunKeeps(states, steps, i - 1);
      assert Next(states[i - 1], steps[i - 1], states[i]);
      StepKeepsWorkspace(states[i - 1], steps[i - 1], states[i], m);
    }
  }

  ghost predicate TwoFresh(s: State, m: MissionId, states: seq<State>, steps: seq<Step>, a: CallId, b: CallId) {
    Run(states, steps) && states[0] == s && a != b && FreshFor(states[|steps|], a, m) && FreshFor(states[|steps|], b, m)
  }

  /** Two calls can both report a fresh integration of a mission that passes the checks exactly when it has
      no workspace. */
  lemma TwoFreshIffUnbound(s: State, m: MissionId)
    requires Init(s) && m in s.missions && Admit(s.missions[m]) == None
    ensures (exists states, steps, a, b :: TwoFresh(s, m, states, steps, a, b)) <==> s.missions[m].workspace == None
  {
    if s.missions[m].workspace == None {
      var states, steps := TwoFreshReplies(s, m, CallId(0), CallId(1), MAIN);
      assert TwoFresh(s, m, states, steps, CallId(0), CallId(1));
    } else if states, steps, a, b :| TwoFresh(s, m, states, steps, a, b) {
      RunKeepsWorkspace(states, steps, m, |steps|);
      OneFreshReply(states, steps, |steps|, m, a, b);
      assert false;
    }
  }

  // ----- a rejection that is overtaken -----

  /** A call has been admitted when the mission is rejected: it writes its older record back, merges, and
      stores the rejected mission as integrated. */
  lemma RejectedIsIntegrated(s: State, id: CallId, m: MissionId, target: Branch, repo: Repo)
    returns (states: seq<State>, steps: seq<Step>)
    requires Init(s) && Mergeable(s, m, target, repo) && s.missions[m].state == Accepted
    ensures Run(states, steps) && states[0] == s
    ensures |steps| == 10 && steps[6] == Reject(m, false)
    ensures m in states[7].missions && states[7].missions[m].state == Rejected
    ensures m in states[10].missions && states[10].missions[m].state == Integrated && FreshFor(states[10], id, m)
  {
    var to, from, end := [Open(id, m, target, None, false), Fetch(id), LookUp(id), Insert(id), Acquire(id)],
                         [Recheck(id), Reject(m, false), Begin(id)], [Merge(id, repo, None), Finish(id)];
    var before := ToTheLock(s, id, m, target);
    var middle := RejectedOnTheWay(before[5], id, m, target, repo);
    var after := ToTheEnd(middle[3], id, m, repo);
    RunJoin(middle, from, after, end);
    RunJoin(before, to, middle + after[1..], from + end);
    states, steps := before + (middle + after[1..])[1..], to + (from + end);
  }

  lemma RejectedOnTheWay(s: State, id: CallId, m: MissionId, target: Branch, repo: Repo) returns (states: seq<State>)
    requires AtTheLock(s, id, m, target) && Mergeable(s, m, target, repo) && s.missions[m].state == Accepted
    ensures Run(states, [Recheck(id), Reject(m, false), Begin(id)]) && states[0] == s
    ensures m in states[2].missions && states[2].missions[m].state == Rejected
    ensures var s3 := states[3];
      && id in s3.calls && s3.calls[id].phase.Begun? && MergeAllowed(s3, s3.calls[id], repo, None)
      && s3.calls[id].mission == m && m in s3.missions && s3.calls[id].phase.copy.state == MissionState.Integrating
  {
    var s1 := AfterRecheck(s, id);
    var copy := WithIntent(s.missions[m], target, None, false);
    assert s1 == WithCall(s, id, s.calls[id].(phase := Admitted(copy)));
    var s2 := WithMission(s1, m, s.missions[m].(state := Rejected));
    OverRejected(s2, id, m, target, repo, copy);
    states := [s, s1, s2, AfterBegin(s2, id)];
  }

  lemma OverRejected(s: State, id: CallId, m: MissionId, target: Branch, repo: Repo, copy: Mission)
    requires id in s.calls && s.calls[id].mission == m && s.calls[id].phase == Admitted(copy) && s.calls[id].target == target
    requires m in s.missions && copy.workspace.Some? && copy.workspace.value in s.repos && copy.intent.Some?
    requires Integrates(s.repos[copy.workspace.value], repo, target, copy.intent.value.candidate, copy.intent.value.expected, None)
    ensures var s' := AfterBegin(s, id);
      && Next(s, Begin(id), s') && id in s'.calls && s'.calls[id].phase == Begun(copy) && s'.calls[id].mission == m
      && m in s'.missions && MergeAllowed(s', s'.calls[id], repo, None)
  {
  }

  /** Nobody accepts the mission or sends it back for another round. */
  ghost predicate NobodyLetsIn(steps: seq<Step>, m: MissionId) {
    forall step :: step in steps ==> step !in {Accept(m, true), Accept(m, false), Reject(m, true)}
  }

  ghost predicate GoesOn(s: State, m: MissionId, states: seq<State>, steps: seq<Step>) {
    && Run(states, steps) && states[0] == s && NobodyLetsIn(steps, m)
    && m in states[|steps|].missions && !AtTheGate(states[|steps|].missions[m].state)
  }

  lemma {:induction false} GateHolds(states: seq<State>, steps: seq<Step>, m: MissionId, n: nat)
    requires Run(states, steps) && n < |states| && NobodyLetsIn(steps, m)
    requires m in states[0].missions && AtTheGate(states[0].missions[m].state) && NoCopyOf(states[0], m)
    ensures m in states[n].missions && AtTheGate(states[n].missions[m].state) && NoCopyOf(states[n], m)
  {
    if n > 0 {
      GateHolds(states, steps, m, n - 1);
      assert steps[n - 1] in steps;
      assert Next(states[n - 1], steps[n - 1], states[n]);
      GateStep(states[n - 1], steps[n - 1], states[n], m);
    }
  }

  /** A rejected mission can still get on its way, with nobody letting it in, exactly when some call holds a
      copy of it. */
  lemma RejectionHoldsIffNoCopy(s: State, m: MissionId)
    requires Inv(s) && m in s.missions && AtTheGate(s.missions[m].state)
    requires forall ws :: ws in s.repos ==> s.repos[ws].Valid()
    ensures (exists states, steps :: GoesOn(s, m, states, steps)) <==> !NoCopyOf(s, m)
  {
    if NoCopyOf(s, m) {
      if states, steps :| GoesOn(s, m, states, steps) {
        GateHolds(states, steps, m, |steps|);
        assert false;
      }
    } else {
      var id :| id in s.calls && s.calls[id].mission == m && s.calls[id].phase.HasCopy();
      var states, steps := CopyGoesOn(s, m, id);
      assert GoesOn(s, m, states, steps);
    }
  }

  /** One step, or two, past the gate. */
  lemma OneStepOn(s: State, step: Step, s': State, m: MissionId)
    requires Next(s, step, s') && !step.Accept? && !step.Reject?
    requires m in s'.missions && !AtTheGate(s'.missions[m].state)
    ensures GoesOn(s, m, [s, s'], [step])
  {
  }

  lemma TwoStepsOn(s: State, x: Step, s1: State, y: Step, s2: State, m: MissionId)
    requires Next(s, x, s1) && Next(s1, y, s2) && !x.Accept? && !x.Reject? && !y.Accept? && !y.Reject?
    requires m in s2.missions && !AtTheGate(s2.missions[m].state)
    ensures GoesOn(s, m, [s, s1, s2], [x, y])
  {
  }

  lemma CopyGoesOn(s: State, m: MissionId, id: CallId) returns (states: seq<State>, steps: seq<Step>)
    requires Inv(s) && m in s.missions && id in s.calls && s.calls[id].mission == m && s.calls[id].phase.HasCopy()
    requires forall ws :: ws in s.repos ==> s.repos[ws].Valid()
    ensures GoesOn(s, m, states, steps)
  {
    var c := s.calls[id];
    assert CopyOk(s, c, c.phase.copy) by {
      assert CallOk(s, id, c);
    }
    if c.phase.Begun? && Workspace(s, c.phase.copy).Some? {
      states, steps := RefusedGoesOn(s, m, id);
    } else if c.phase.Begun? {
      states, steps := SkippedGoesOn(s, m, id);
    } else {
      states, steps := WrittenGoesOn(s, m, id);
    }
  }

  lemma WrittenGoesOn(s: State, m: MissionId, id: CallId) returns (states: seq<State>, steps: seq<Step>)
    requires m in s.missions && id in s.calls && s.calls[id].mission == m
    requires s.calls[id].phase.HasCopy() && !s.calls[id].phase.Begun? && s.calls[id].phase.copy.state == MissionState.Integrating
    ensures GoesOn(s, m, states, steps)
  {
    var step, s' := Begin(id), s;
    if s.calls[id].phase.Admitted? {
      s' := AfterBegin(s, id);
    } else if s.calls[id].phase.Merged? {
      step, s' := Finish(id), AfterFinish(s, id);
    } else {
      step, s' := RollBack(id, true), AfterRollBack(s, id, true);
    }
    OneStepOn(s, step, s', m);
    states, steps := [s, s'], [step];
  }

  /** With a repository git may refuse, and the record is rolled back. */
  lemma RefusedGoesOn(s: State, m: MissionId, id: CallId) returns (states: seq<State>, steps: seq<Step>)
    requires m in s.missions && id in s.calls && s.calls[id].mission == m && s.calls[id].phase.Begun?
    requires CopyOk(s, s.calls[id], s.calls[id].phase.copy) && Workspace(s, s.calls[id].phase.copy).Some?
    requires forall ws :: ws in s.repos ==> s.repos[ws].Valid()
    ensures GoesOn(s, m, states, steps)
  {
    var repo := s.repos[Workspace(s, s.calls[id].phase.copy).value];
    RefusalIsAllowed(repo, s.calls[id].target, s.calls[id].phase.copy.intent.value);
    var s1 := AfterMerge(s, id, repo, Some(DirtyTree));
    var s2 := AfterRollBack(s1, id, true);
    TwoStepsOn(s, Merge(id, repo, Some(DirtyTree)), s1, RollBack(id, true), s2, m);
    states, steps := [s, s1, s2], [Merge(id, repo, Some(DirtyTree)), RollBack(id, true)];
  }

  /** Without one the call finishes. */
  lemma SkippedGoesOn(s: State, m: MissionId, id: CallId) returns (states: seq<State>, steps: seq<Step>)
    requires m in s.missions && id in s.calls && s.calls[id].mission == m && s.calls[id].phase.Begun?
    requires s.calls[id].phase.copy.state == MissionState.Integrating && Workspace(s, s.calls[id].phase.copy) == None
    ensures GoesOn(s, m, states, steps)
  {
    var repo := Repo(map[], map[]);
    var s1 := AfterMerge(s, id, repo, None);
    var s2 := AfterFinish(s1, id);
    TwoStepsOn(s, Merge(id, repo, None), s1, Finish(id), s2, m);
    states, steps := [s, s1, s2], [Merge(id, repo, None), Finish(id)];
  }

  lemma RefusalIsAllowed(repo: Repo, target: Branch, intent: Intent)
    requires repo.Valid()
    ensures Integrates(repo, repo, target, intent.candidate, intent.expected, Some(DirtyTree))
  {
  }
}
