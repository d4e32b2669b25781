/** The integration protocol never gets stuck: every call moves towards its reply, and whoever waits for a lock waits for
    a call that can go on. */
module IntegrationProgress {
  import opened Results
  import opened Git
  import opened Missions
  import opened Integration
  import opened IntegrationRuns

  /** How far a call has come. */
  function Stage(p: Phase): nat {
    match p
    case Fetching => 0
    case Seeking(_) => 1
    case Missed(_) => 2
    case Queued(_, _) => 3
    case Entered => 4
    case Admitted(_) => 5
    case Begun(_) => 6
    case Merged(_) => 7
    case Refuted(_, _) => 7
    case Replied(_) => 8
  }

  /** A step that a call takes by itself, without giving up. */
  predicate OwnStep(step: Step) {
    step.Fetch? || step.LookUp? || step.Insert? || step.Acquire? || step.Recheck? || step.Begin? || step.Merge? || step.Finish? || step.RollBack?
  }

  /** Every step of a call brings it closer to its reply and leaves the other calls alone; a call takes eight steps at
      most. A call that has replied holds no lock. */
  lemma StepAdvances(s: State, step: Step, s': State)
    requires Next(s, step, s') && OwnStep(step)
    ensures step.id in s.calls && step.id in s'.calls
    ensures Stage(s.calls[step.id].phase) < Stage(s'.calls[step.id].phase) <= 8
    ensures s'.calls == s.calls[step.id := s'.calls[step.id]]
    ensures s'.calls[step.id].phase.Replied? && s.calls[step.id].guard.Some? ==> s.calls[step.id].guard.value.lock !in s'.held
  {
    if step.Begin? || step.Merge? || step.Finish? || step.RollBack? {
      WriterAdvances(s, step, s');
    } else if step.Fetch? {
      FetchAdvances(s, step.id, s');
    } else if step.Recheck? {
      RecheckAdvances(s, step.id, s');
    }
  }

  lemma WriterAdvances(s: State, step: Step, s': State)
    requires Next(s, step, s') && (step.Begin? || step.Merge? || step.Finish? || step.RollBack?)
    ensures step.id in s.calls && step.id in s'.calls && s'.calls == s.calls[step.id := s'.calls[step.id]]
    ensures Stage(s.calls[step.id].phase) < Stage(s'.calls[step.id].phase)
    ensures s'.calls[step.id].phase.Replied? && s.calls[step.id].guard.Some? ==> s.calls[step.id].guard.value.lock !in s'.held
  {
  }

  lemma FetchAdvances(s: State, id: CallId, s': State)
    requires Next(s, Fetch(id), s')
    ensures id in s.calls && id in s'.calls && s'.calls == s.calls[id := s'.calls[id]]
    ensures Stage(s.calls[id].phase) < Stage(s'.calls[id].phase)
    ensures s'.calls[id].phase.Replied? && s.calls[id].guard.Some? ==> s.calls[id].guard.value.lock !in s'.held
  {
  }

  lemma RecheckAdvances(s: State, id: CallId, s': State)
    requires Next(s, Recheck(id), s')
    ensures id in s.calls && id in s'.calls && s'.calls == s.calls[id := s'.calls[id]]
    ensures Stage(s.calls[id].phase) < Stage(s'.calls[id].phase)
    ensures s'.calls[id].phase.Replied? && s.calls[id].guard.Some? ==> s.calls[id].guard.value.lock !in s'.held
  {
  }

  /** Locks are held by calls that are past them. */
  ghost predicate HeldByLive(s: State) {
    forall l :: l in s.held ==>
      && s.held[l] in s.calls && s.calls[s.held[l]].guard.Some? && s.calls[s.held[l]].guard.value.lock == l
      && s.calls[s.held[l]].phase.Inside()
  }

  lemma StepKeepsHeld(s: State, step: Step, s': State)
    requires Inv(s) && HeldByLive(s) && Next(s, step, s')
    ensures HeldByLive(s')
  {
    if OwnStep(step) || step.Drop? {
      GuardIsOk(s, step.id);
      CallKeepsHeld(s, step, s');
    }
  }

  lemma GuardIsOk(s: State, id: CallId)
    requires Inv(s)
    ensures id in s.calls ==> GuardOk(s, id, s.calls[id])
  {
    if id in s.calls {
      assert CallOk(s, id, s.calls[id]);
    }
  }

  lemma CallKeepsHeld(s: State, step: Step, s': State)
    requires HeldByLive(s) && Next(s, step, s') && (OwnStep(step) || step.Drop?) && GuardOk(s, step.id, s.calls[step.id])
    ensures HeldByLive(s')
  {
    if step.Acquire? {
      AcquireHolds(s, step.id, s');
    } else if s'.calls[step.id].phase.Replied? {
      ReplyReleases(s, step, s');
      NotHeldBy(s, s', step.id);
    } else {
      StillHeld(s, step, s');
      KeptHold(s, s', step.id);
    }
  }

  lemma AcquireHolds(s: State, id: CallId, s': State)
    requires HeldByLive(s) && Next(s, Acquire(id), s') && GuardOk(s, id, s.calls[id])
    ensures HeldByLive(s')
  {
  }

  /** What a reply leaves: the lock of the call is free. */
  ghost predicate LocksReturned(s: State, s': State, id: CallId)
    requires id in s.calls
  {
    && id in s'.calls && s'.calls == s.calls[id := s'.calls[id]]
    && s'.held == if s.calls[id].guard.Some? then s.held - {s.calls[id].guard.value.lock} else s.held
  }

  lemma ReplyReleases(s: State, step: Step, s': State)
    requires Next(s, step, s') && (OwnStep(step) || step.Drop?)
    ensures step.id in s.calls && (step.id in s'.calls && s'.calls[step.id].phase.Replied? ==> LocksReturned(s, s', step.id))
  {
    if step.Fetch? {
      FetchLets(s, step.id, s');
    } else if step.Recheck? {
      RecheckLets(s, step.id, s');
    }
  }

  lemma FetchLets(s: State, id: CallId, s': State)
    requires Next(s, Fetch(id), s')
    ensures id in s'.calls && (s'.calls[id].phase.Replied? ==> LocksReturned(s, s', id))
  {
  }

  lemma RecheckLets(s: State, id: CallId, s': State)
    requires Next(s, Recheck(id), s')
    ensures id in s'.calls && (s'.calls[id].phase.Replied? ==> LocksReturned(s, s', id))
  {
  }

  lemma StillHeld(s: State, step: Step, s': State)
    requires Next(s, step, s') && OwnStep(step) && !step.Acquire? && !s'.calls[step.id].phase.Replied?
    ensures s'.held == s.held && s'.calls == s.calls[step.id := s'.calls[step.id]]
    ensures s'.calls[step.id].guard == s.calls[step.id].guard
    ensures s.calls[step.id].phase.Inside() ==> s'.calls[step.id].phase.Inside()
  {
  }

  /** Whatever a call holds it holds by its guard. */
  lemma NotHeldBy(s: State, s': State, id: CallId)
    requires HeldByLive(s) && id in s.calls && id in s'.calls && s'.calls == s.calls[id := s'.calls[id]]
    requires s'.held == if s.calls[id].guard.Some? then s.held - {s.calls[id].guard.value.lock} else s.held
    ensures HeldByLive(s')
  {
    forall l | l in s'.held ensures s'.held[l] != id {
      if s.held[l] == id {
        assert false;
      }
    }
  }

  lemma KeptHold(s: State, s': State, id: CallId)
    requires HeldByLive(s) && id in s.calls && id in s'.calls && s'.calls == s.calls[id := s'.calls[id]]
    requires s'.held == s.held && s'.calls[id].guard == s.calls[id].guard
    requires s.calls[id].phase.Inside() ==> s'.calls[id].phase.Inside()
    ensures HeldByLive(s')
  {
  }

  lemma {:induction false} RunKeepsHeld(states: seq<State>, steps: seq<Step>, i: nat)
    requires Run(states, steps) && Init(states[0]) && i < |states|
    ensures HeldByLive(states[i])
  {
    if i > 0 {
      RunKeepsHeld(states, steps, i - 1);
      RunKeeps(states, steps, i - 1);
      assert Next(states[i - 1], steps[i - 1], states[i]);
      StepKeepsHeld(states[i - 1], steps[i - 1], states[i]);
    }
  }

  /** A call that has not replied can go on, unless it waits for a lock that another call holds. */
  lemma CanGoOn(s: State, id: CallId) returns (step: Step, s': State)
    requires Inv(s) && id in s.calls && !s.calls[id].phase.Replied?
    requires forall ws :: ws in s.repos ==> s.repos[ws].Valid()
    requires s.calls[id].phase.Queued? ==> s.calls[id].phase.lock !in s.held
    ensures OwnStep(step) && step.id == id && Next(s, step, s')
  {
    var c := s.calls[id];
    if c.phase.HasCopy() {
      step, s' := CopyCanGoOn(s, id);
    } else if c.phase.Fetching? {
      step, s' := Fetch(id), AfterFetch(s, id);
    } else if c.phase.Seeking? {
      step, s' := LookUp(id), AfterLookUp(s, id);
    } else if c.phase.Missed? {
      step, s' := Insert(id), AfterInsert(s, id);
    } else if c.phase.Queued? {
      step, s' := Acquire(id), AfterAcquire(s, id);
    } else {
      step, s' := Recheck(id), AfterRecheck(s, id);
    }
  }

  /** Git may refuse when there is a repository; without one the merge is skipped. */
  lemma CopyCanGoOn(s: State, id: CallId) returns (step: Step, s': State)
    requires Inv(s) && id in s.calls && s.calls[id].phase.HasCopy()
    requires forall ws :: ws in s.repos ==> s.repos[ws].Valid()
    ensures OwnStep(step) && step.id == id && Next(s, step, s')
  {
    var c := s.calls[id];
    if c.phase.Begun? {
      assert CopyOk(s, c, c.phase.copy) by {
        assert CallOk(s, id, c);
      }
      step, s' := BegunCanGoOn(s, id);
    } else if c.phase.Admitted? {
      step, s' := Begin(id), AfterBegin(s, id);
    } else if c.phase.Merged? {
      step, s' := Finish(id), AfterFinish(s, id);
    } else {
      step, s' := RollBack(id, true), AfterRollBack(s, id, true);
    }
  }

  lemma BegunCanGoOn(s: State, id: CallId) returns (step: Step, s': State)
    requires id in s.calls && s.calls[id].phase.Begun? && s.calls[id].phase.copy.intent.Some?
    requires forall ws :: ws in s.repos ==> s.repos[ws].Valid()
    ensures OwnStep(step) && step.id == id && Next(s, step, s')
  {
    var ws := Workspace(s, s.calls[id].phase.copy);
    var repo := if ws.Some? then s.repos[ws.value] else Repo(map[], map[]);
    var err := if ws.Some? then Some(DirtyTree) else None;
    step, s' := Merge(id, repo, err), AfterMerge(s, id, repo, err);
  }

  /** Nobody waits for ever: in every reachable state with a call under way some call can take its next step, and if that
      is not the call itself, it is the one that holds the lock the call waits for. */
  lemma NeverStuck(states: seq<State>, steps: seq<Step>, i: nat, id: CallId) returns (step: Step, s': State)
    requires Run(states, steps) && Init(states[0]) && i < |states|
    requires id in states[i].calls && !states[i].calls[id].phase.Replied?
    requires forall ws :: ws in states[i].repos ==> states[i].repos[ws].Valid()
    ensures OwnStep(step) && Next(states[i], step, s')
    ensures step.id == id ||
      (states[i].calls[id].phase.Queued? && states[i].calls[id].phase.lock in states[i].held
        && states[i].held[states[i].calls[id].phase.lock] == step.id)
  {
    var s := states[i];
    RunKeeps(states, steps, i);
    RunKeepsHeld(states, steps, i);
    var mover := id;
    if s.calls[id].phase.Queued? && s.calls[id].phase.lock in s.held {
      mover := s.held[s.calls[id].phase.lock];
    }
    step, s' := CanGoOn(s, mover);
  }
}
