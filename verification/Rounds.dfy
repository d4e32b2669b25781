/** Running the graph in rounds: every runnable task of a round is taken to `Verified` before the
    next round looks. How many rounds that takes is decided by the longest chain of prerequisites. */
module Rounds {
  import opened Results
  import opened Core
  import opened Digraph
  import opened Chains
  import opened Rewrites
  import opened TaskGraphs

  /** Nothing has started: every task is an unassigned candidate. */
  ghost predicate NotStarted(tasks: map<TaskId, Task>) {
    forall t :: t in tasks ==> tasks[t].state.IsRunnableCandidate() && tasks[t].assignedAgent == None
  }

  ghost function Round(tasks: map<TaskId, Task>, d: Deps): map<TaskId, Task> {
    map t | t in tasks :: if IsRunnable(tasks, d, t) then tasks[t].(state := Verified) else tasks[t]
  }

  ghost function AfterRounds(tasks: map<TaskId, Task>, d: Deps, k: nat): map<TaskId, Task> {
    if k == 0 then tasks else Round(AfterRounds(tasks, d, k - 1), d)
  }

  ghost predicate AllVerified(tasks: map<TaskId, Task>) {
    forall t :: t in tasks ==> tasks[t].state == Verified
  }

  /** The verified tasks are exactly those of depth at most `k`; the others are still untouched. */
  ghost predicate VerifiedUpTo(tasks: map<TaskId, Task>, now: map<TaskId, Task>, d: Deps, k: int) {
    && now.Keys == tasks.Keys
    && forall t :: t in tasks ==>
         if DepthAtMost(d, t, k) then now[t].state == Verified else now[t] == tasks[t]
  }

  lemma RoundStep(tasks: map<TaskId, Task>, now: map<TaskId, Task>, d: Deps, k: nat, t: TaskId)
    requires NotStarted(tasks) && tasks.Keys == d.Keys && Closed(d) && VerifiedUpTo(tasks, now, d, k) && t in tasks
    ensures var next := Round(now, d)[t];
            if DepthAtMost(d, t, k + 1) then next.state == Verified else next == tasks[t]
  {
    DepthAtMostStep(d, t, k);
    forall p | p in d[t] ensures p in now && (now[p].state == Verified <==> DepthAtMost(d, p, k)) {
      assert Edge(d, t, p);
      assert p in tasks;
    }
    if DepthAtMost(d, t, k) {
      assert DepthAtMost(d, t, k + 1);
      assert now[t].state == Verified;
    } else {
      assert now[t] == tasks[t];
      assert IsRunnable(now, d, t) <==> DepthAtMost(d, t, k + 1);
    }
  }

  /** After `k` rounds the verified tasks are exactly those of depth at most `k`. */
  lemma {:induction false} VerifiedByDepth(tasks: map<TaskId, Task>, d: Deps, k: nat)
    requires NotStarted(tasks) && tasks.Keys == d.Keys && Closed(d)
    ensures VerifiedUpTo(tasks, AfterRounds(tasks, d, k), d, k)
  {
    if k == 0 {
      forall t | t in tasks ensures !DepthAtMost(d, t, 0) {
        DepthPositive(d, t);
      }
    } else {
      var now := AfterRounds(tasks, d, k - 1);
      VerifiedByDepth(tasks, d, k - 1);
      forall t | t in tasks
        ensures if DepthAtMost(d, t, k) then Round(now, d)[t].state == Verified else Round(now, d)[t] == tasks[t]
      {
        RoundStep(tasks, now, d, k - 1, t);
      }
    }
  }

  /** The run is over after exactly as many rounds as the longest chain has tasks. */
  lemma RoundsNeeded(tasks: map<TaskId, Task>, d: Deps, longest: nat, k: nat)
    requires NotStarted(tasks) && tasks.Keys == d.Keys && Closed(d) && LongestChain(d, longest)
    ensures AllVerified(AfterRounds(tasks, d, k)) <==> k >= longest
  {
    var deepest :| deepest in d && HasChain(d, deepest, longest);
    VerifiedByDepth(tasks, d, k);
    var after := AfterRounds(tasks, d, k);
    if k >= longest {
      forall t | t in after ensures after[t].state == Verified {
        assert DepthAtMost(d, t, longest);
        assert DepthAtMost(d, t, k);
      }
    } else {
      var p :| Chain(d, deepest, p) && |p| == longest;
      assert !DepthAtMost(d, deepest, k);
      assert after[deepest] == tasks[deepest];
    }
  }
}
