/** Failure recovery driven by a task's history: escalating strategies, loop detection, one durable
    record per decision. How a failure text is diagnosed is left to the caller's classifier. */
module Recovery {
  import opened Core
  import opened Sorting

  datatype Diagnosis = Transient | Barrier | SlowRun | ToolFault | Reasoning

  datatype Strategy =
    | FatalExhaustion
    | ReplanLoop
    | TransientBackoff
    | SecurityEscalation
    | TimeoutAdaptation
    | ToolAdaptation
    | PromptRefinement
  {
    /** The strategies that are refined from one failure to the next. */
    predicate Adapts() { TimeoutAdaptation? || ToolAdaptation? || PromptRefinement? }
  }

  datatype Outcome = InProgress | Escalated | Succeeded

  datatype Record = Record(task: TaskId, attempt: nat, strategy: Strategy, version: nat, reason: string, outcome: Outcome)

  datatype Action =
    | RetryWithBackoff(delaySecs: nat)
    | MutateStrategy(strategy: Strategy, version: nat)
    | ReplanWorkflow
    | EscalateFatal

  /** The store lists a task's records by attempt, and by time of saving within one attempt. */
  function Listed(saved: seq<Record>, task: TaskId): seq<Record> {
    SortBy(EarlierAttempt, Filter(OfTask(task), saved))
  }

  function OfTask(task: TaskId): Record -> bool {
    (r: Record) => r.task == task
  }

  predicate EarlierAttempt(r: Record, s: Record) {
    r.attempt < s.attempt
  }

  /** How many of the latest records in a row have this reason. */
  function Trailing(past: seq<Record>, reason: string): nat {
    if past == [] || past[|past| - 1].reason != reason then 0 else 1 + Trailing(past[..|past| - 1], reason)
  }

  function LatestVersion(past: seq<Record>, strategy: Strategy): nat {
    if past == [] then 0
    else
      var n := |past| - 1;
      var before := LatestVersion(past[..n], strategy);
      if past[n].strategy == strategy && past[n].version > before then past[n].version else before
  }

  function StrategyFor(d: Diagnosis): Strategy {
    match d
    case Transient => TransientBackoff
    case Barrier => SecurityEscalation
    case SlowRun => TimeoutAdaptation
    case ToolFault => ToolAdaptation
    case Reasoning => PromptRefinement
  }

  /** The record of the decision taken on one failure. */
  function Decide(past: seq<Record>, limit: nat, classify: string -> Diagnosis, task: TaskId, attempt: nat, reason: string): Record {
    if attempt >= limit then Record(task, attempt, FatalExhaustion, 1, reason, Escalated)
    else if Trailing(past, reason) >= 2 then Record(task, attempt, ReplanLoop, Trailing(past, reason) + 1, reason, Escalated)
    else
      var strategy := StrategyFor(classify(reason));
      Record(task, attempt, strategy, if strategy.Adapts() then LatestVersion(past, strategy) + 1 else 1, reason, InProgress)
  }

  function ActionOf(r: Record): Action {
    match r.strategy
    case FatalExhaustion => EscalateFatal
    case ReplanLoop => ReplanWorkflow
    case TransientBackoff => RetryWithBackoff((r.attempt + 1) * 2)
    case SecurityEscalation => EscalateFatal
    case strategy => MutateStrategy(strategy, r.version)
  }

  class RecoveryController {
    var saved: seq<Record>
    const limit: nat
    const classify: string -> Diagnosis

    constructor (limit: nat, classify: string -> Diagnosis)
      ensures saved == [] && this.limit == limit && this.classify == classify
    {
      this.saved, this.limit, this.classify := [], limit, classify;
    }

    /** Decides what to do about a failure and saves exactly one record of it. */
    method DiagnoseAndRecover(task: TaskId, attempt: nat, reason: string) returns (action: Action, record: Record)
      modifies this
      ensures record == Decide(Listed(old(saved), task), limit, classify, task, attempt, reason)
      ensures action == ActionOf(record) && saved == old(saved) + [record]
      ensures record.task == task && record.attempt == attempt && record.reason == reason
      ensures attempt >= limit ==> action == EscalateFatal && record.strategy == FatalExhaustion && record.outcome == Escalated
      ensures action == ReplanWorkflow <==> attempt < limit && record.strategy == ReplanLoop
      ensures action == ReplanWorkflow ==> record.outcome == Escalated && record.version >= 3
      ensures action == EscalateFatal || action.RetryWithBackoff? ==> record.version == 1
      ensures attempt < limit && action != ReplanWorkflow ==> record.outcome == InProgress
      ensures attempt < limit && action != ReplanWorkflow ==>
        && (classify(reason) == Transient ==> action == RetryWithBackoff(2 * attempt + 2) && record.strategy == TransientBackoff)
        && (classify(reason) == Barrier ==> action == EscalateFatal && record.strategy == SecurityEscalation)
        && (classify(reason) == SlowRun ==> action == MutateStrategy(TimeoutAdaptation, record.version))
        && (classify(reason) == ToolFault ==> action == MutateStrategy(ToolAdaptation, record.version))
        && (classify(reason) == Reasoning ==> action == MutateStrategy(PromptRefinement, record.version))
    {
      var past := Listed(saved, task);
      if attempt >= limit {
        record := RecordDecision(task, attempt, FatalExhaustion, 1, reason, Escalated);
        return EscalateFatal, record;
      }
      var repeats := Trailing(past, reason);
      if repeats >= 2 {
        record := RecordDecision(task, attempt, ReplanLoop, repeats + 1, reason, Escalated);
        return ReplanWorkflow, record;
      }
      var strategy, version := StrategyFor(classify(reason)), 1;
      if strategy == TransientBackoff {
        action := RetryWithBackoff((attempt + 1) * 2);
      } else if strategy == SecurityEscalation {
        action := EscalateFatal;
      } else {
        version := LatestVersion(past, strategy) + 1;
        action := MutateStrategy(strategy, version);
      }
      record := RecordDecision(task, attempt, strategy, version, reason, InProgress);
    }

    method RecordDecision(task: TaskId, attempt: nat, strategy: Strategy, version: nat, reason: string, outcome: Outcome)
      returns (record: Record)
      modifies this
      ensures record == Record(task, attempt, strategy, version, reason, outcome) && saved == old(saved) + [record]
    {
      record := Record(task, attempt, strategy, version, reason, outcome);
      saved := saved + [record];
    }

    /** Notes that a recovery worked out. */
    method MarkRecovered(i: nat)
      requires i < |saved|
      modifies this
      ensures saved == old(saved)[i := old(saved)[i].(outcome := Succeeded)]
    {
      saved := saved[i := saved[i].(outcome := Succeeded)];
    }
  }

  // ----- one task's whole history -----

  datatype Failure = Failure(attempt: nat, reason: string)

  /** The records a task has after a run of failures. */
  function History(limit: nat, classify: string -> Diagnosis, task: TaskId, failures: seq<Failure>): seq<Record> {
    if failures == [] then []
    else
      var n := |failures| - 1;
      var past := History(limit, classify, task, failures[..n]);
      past + [Decide(SortBy(EarlierAttempt, past), limit, classify, task, failures[n].attempt, failures[n].reason)]
  }

  /** What the store holds after failures of any tasks. */
  function Saved(limit: nat, classify: string -> Diagnosis, failures: seq<(TaskId, Failure)>): seq<Record> {
    if failures == [] then []
    else
      var n := |failures| - 1;
      var past := Saved(limit, classify, failures[..n]);
      var (task, f) := failures[n];
      past + [Decide(Listed(past, task), limit, classify, task, f.attempt, f.reason)]
  }

  function FailuresOf(failures: seq<(TaskId, Failure)>, task: TaskId): seq<Failure> {
    if failures == [] then []
    else
      var n := |failures| - 1;
      FailuresOf(failures[..n], task) + if failures[n].0 == task then [failures[n].1] else []
  }

  /** Tasks do not disturb each other: the records of one are its own history. */
  lemma {:induction false} TasksApart(limit: nat, classify: string -> Diagnosis, failures: seq<(TaskId, Failure)>, task: TaskId)
    ensures Filter(OfTask(task), Saved(limit, classify, failures))
         == History(limit, classify, task, FailuresOf(failures, task))
  {
    if failures != [] {
      var n := |failures| - 1;
      var past := Saved(limit, classify, failures[..n]);
      var (other, f) := failures[n];
      TasksApart(limit, classify, failures[..n], task);
      FilterOneMore(past, Decide(Listed(past, other), limit, classify, other, f.attempt, f.reason), task);
      var mine := FailuresOf(failures[..n], task);
      assert mine + [] == mine && (mine + [f])[..|mine|] == mine;
      var h := History(limit, classify, task, mine);
      assert h + [] == h;
    }
  }

  lemma {:induction false} FilterOneMore(s: seq<Record>, r: Record, task: TaskId)
    ensures Filter(OfTask(task), s + [r])
         == Filter(OfTask(task), s) + if r.task == task then [r] else []
  {
    if s != [] {
      FilterOneMore(s[1..], r, task);
      assert (s + [r])[1..] == s[1..] + [r];
    }
  }

  lemma {:induction false} HistoryFollows(limit: nat, classify: string -> Diagnosis, task: TaskId, failures: seq<Failure>, i: nat)
    requires i < |failures|
    ensures var h := History(limit, classify, task, failures);
      && |h| == |failures| && h[..i] == History(limit, classify, task, failures[..i])
      && h[i] == Decide(SortBy(EarlierAttempt, h[..i]), limit, classify, task, failures[i].attempt, failures[i].reason)
      && h[i].attempt == failures[i].attempt && h[i].reason == failures[i].reason && h[i].task == task
    decreases |failures|
  {
    var n := |failures| - 1;
    var h := History(limit, classify, task, failures);
    if n > 0 {
      HistoryFollows(limit, classify, task, failures[..n], if i < n then i else n - 1);
    }
    assert h[..n] == History(limit, classify, task, failures[..n]);
    if i < n {
      assert failures[..n][..i] == failures[..i] && h[..n][..i] == h[..i];
    }
  }

  function Count(h: seq<Record>, strategy: Strategy): nat {
    if h == [] then 0 else Count(h[..|h| - 1], strategy) + if h[|h| - 1].strategy == strategy then 1 else 0
  }

  lemma {:induction false} LatestVersionMeans(past: seq<Record>, strategy: Strategy)
    ensures var v := LatestVersion(past, strategy);
      && (forall r :: r in past && r.strategy == strategy ==> r.version <= v)
      && (v > 0 ==> exists r :: r in past && r.strategy == strategy && r.version == v)
  {
    if past != [] {
      var n := |past| - 1;
      LatestVersionMeans(past[..n], strategy);
      assert past == past[..n] + [past[n]];
      var v := LatestVersion(past, strategy);
      if v > 0 && v == LatestVersion(past[..n], strategy) {
        var r :| r in past[..n] && r.strategy == strategy && r.version == v;
        assert r in past;
      } else {
        assert past[n] in past;
      }
    }
  }

  /** The order in which records are listed has no influence on the version. */
  lemma LatestVersionOfListed(h: seq<Record>, strategy: Strategy)
    ensures LatestVersion(SortBy(EarlierAttempt, h), strategy) == LatestVersion(h, strategy)
  {
    var listed := SortBy(EarlierAttempt, h);
    SortPermutes(EarlierAttempt, h);
    LatestVersionMeans(h, strategy);
    LatestVersionMeans(listed, strategy);
    forall r ensures r in h <==> r in listed {
      assert r in multiset(h) <==> r in multiset(listed);
    }
  }

  /** The k-th record of each refined strategy carries version k, in whatever order attempts come. */
  lemma {:induction false} VersionsCountUp(limit: nat, classify: string -> Diagnosis, task: TaskId, failures: seq<Failure>, i: nat)
    requires i < |failures|
    ensures var h := History(limit, classify, task, failures);
      && |h| == |failures|
      && (h[i].strategy.Adapts() ==> h[i].version == Count(h[..i + 1], h[i].strategy))
    decreases i
  {
    var h := History(limit, classify, task, failures);
    HistoryFollows(limit, classify, task, failures, i);
    if h[i].strategy.Adapts() {
      var s := h[i].strategy;
      LatestVersionOfListed(h[..i], s);
      forall j | 0 <= j < i && h[j].strategy == s ensures h[j].version == Count(h[..j + 1], s) {
        VersionsCountUp(limit, classify, task, failures, j);
      }
      LatestIsCount(h, s, i);
      assert h[..i + 1][..i] == h[..i];
    }
  }

  lemma {:induction false} LatestIsCount(h: seq<Record>, s: Strategy, n: nat)
    requires n <= |h| && forall j :: 0 <= j < n && h[j].strategy == s ==> h[j].version == Count(h[..j + 1], s)
    ensures LatestVersion(h[..n], s) == Count(h[..n], s)
  {
    if n > 0 {
      LatestIsCount(h, s, n - 1);
      assert h[..n][..n - 1] == h[..n - 1];
    }
  }

  /** Below the attempt limit a failure leads to replanning exactly when the two latest listed records
      have the same reason as it. */
  lemma ReplansOnThird(past: seq<Record>, limit: nat, classify: string -> Diagnosis, task: TaskId, attempt: nat, reason: string)
    requires attempt < limit
    ensures Decide(past, limit, classify, task, attempt, reason).strategy == ReplanLoop
       <==> |past| >= 2 && past[|past| - 1].reason == reason && past[|past| - 2].reason == reason
  {
    if past != [] && past[|past| - 1].reason == reason {
      var rest := past[..|past| - 1];
      assert Trailing(past, reason) == 1 + Trailing(rest, reason);
      assert rest != [] ==> rest[|rest| - 1] == past[|past| - 2];
    }
  }

  // ----- when a repeating failure is noticed -----

  predicate EarlierFailure(f: Failure, g: Failure) {
    f.attempt < g.attempt
  }

  /** The two latest of some failures have this reason. */
  predicate LatestTwoShare(listed: seq<Failure>, reason: string) {
    |listed| >= 2 && listed[|listed| - 1].reason == reason && listed[|listed| - 2].reason == reason
  }

  /** In whatever order attempts are recorded, a failure leads to replanning exactly when the two latest
      failures before it, by attempt and then by time, have its reason. */
  lemma ReplansIffLatestShare(limit: nat, classify: string -> Diagnosis, task: TaskId, failures: seq<Failure>, i: nat)
    requires i < |failures| && failures[i].attempt < limit
    ensures var h := History(limit, classify, task, failures);
      && |h| == |failures|
      && (h[i].strategy == ReplanLoop <==> LatestTwoShare(SortBy(EarlierFailure, failures[..i]), failures[i].reason))
  {
    var h := History(limit, classify, task, failures);
    HistoryFollows(limit, classify, task, failures, i);
    RecordedFailures(limit, classify, task, failures[..i]);
    FailuresSorted(h[..i]);
    var listed := SortBy(EarlierAttempt, h[..i]);
    FailuresAt(listed);
    ReplansOnThird(listed, limit, classify, task, failures[i].attempt, failures[i].reason);
  }

  /** The failures that records are about. */
  function FailuresIn(s: seq<Record>): seq<Failure> {
    if s == [] then [] else [Failure(s[0].attempt, s[0].reason)] + FailuresIn(s[1..])
  }

  lemma {:induction false} FailuresAt(s: seq<Record>)
    ensures |FailuresIn(s)| == |s|
    ensures forall k :: 0 <= k < |s| ==> FailuresIn(s)[k] == Failure(s[k].attempt, s[k].reason)
  {
    if s != [] {
      FailuresAt(s[1..]);
      forall k | 0 <= k < |s| ensures FailuresIn(s)[k] == Failure(s[k].attempt, s[k].reason) {
        assert k > 0 ==> s[k] == s[1..][k - 1];
      }
    }
  }

  lemma RecordedFailures(limit: nat, classify: string -> Diagnosis, task: TaskId, failures: seq<Failure>)
    ensures FailuresIn(History(limit, classify, task, failures)) == failures
  {
    var h := History(limit, classify, task, failures);
    FailuresAt(h);
    if failures != [] {
      forall i | 0 <= i < |failures| ensures |h| == |failures| && FailuresIn(h)[i] == failures[i] {
        HistoryFollows(limit, classify, task, failures, i);
      }
      HistoryFollows(limit, classify, task, failures, 0);
    }
  }

  lemma {:induction false} FailuresSorted(s: seq<Record>)
    ensures FailuresIn(SortBy(EarlierAttempt, s)) == SortBy(EarlierFailure, FailuresIn(s))
  {
    if s != [] {
      FailuresSorted(s[1..]);
      FailuresInserted(s[0], SortBy(EarlierAttempt, s[1..]));
    }
  }

  lemma {:induction false} FailuresInserted(x: Record, s: seq<Record>)
    ensures FailuresIn(InsertBy(EarlierAttempt, x, s)) == InsertBy(EarlierFailure, Failure(x.attempt, x.reason), FailuresIn(s))
  {
    if s != [] && EarlierAttempt(s[0], x) {
      FailuresInserted(x, s[1..]);
    }
  }

  ghost predicate AttemptsInOrder(failures: seq<Failure>) {
    forall i, j :: 0 <= i < j < |failures| ==> failures[i].attempt <= failures[j].attempt
  }

  /** From the limit on every failure is fatal, whatever happened before. */
  lemma FatalFromTheLimit(limit: nat, classify: string -> Diagnosis, task: TaskId, failures: seq<Failure>, i: nat)
    requires i < |failures|
    ensures var h := History(limit, classify, task, failures);
      && |h| == |failures|
      && (h[i].strategy == FatalExhaustion <==> failures[i].attempt >= limit)
      && (failures[i].attempt >= limit ==> ActionOf(h[i]) == EscalateFatal)
  {
    HistoryFollows(limit, classify, task, failures, i);
  }

  /** With attempts in order no reason gets three successive decisions without replanning. */
  lemma NoThreeWithoutReplanning(limit: nat, classify: string -> Diagnosis, task: TaskId, failures: seq<Failure>, i: nat)
    requires AttemptsInOrder(failures) && 2 <= i < |failures| && failures[i].attempt < limit
    ensures var h := History(limit, classify, task, failures);
      && |h| == |failures|
      && (h[i].strategy == ReplanLoop <==> failures[i - 1].reason == failures[i].reason && failures[i - 2].reason == failures[i].reason)
  {
    var h := History(limit, classify, task, failures);
    HistoryFollows(limit, classify, task, failures, i);
    forall j | 0 <= j < i ensures h[j].attempt == failures[j].attempt && h[j].reason == failures[j].reason {
      HistoryFollows(limit, classify, task, failures, j);
    }
    SortOfSorted(EarlierAttempt, h[..i]);
    ReplansOnThird(h[..i], limit, classify, task, failures[i].attempt, failures[i].reason);
  }

  /** Attempts out of order can hide a loop: a later attempt's record is listed last and separates the
      repeated reason from the new failure. */
  lemma OutOfOrderHidesALoop(classify: string -> Diagnosis, task: TaskId, a: string, b: string)
    requires a != b
    ensures var h := History(9, classify, task, [Failure(5, b), Failure(0, a), Failure(0, a), Failure(0, a)]);
      |h| == 4 && h[1].strategy != ReplanLoop && h[2].strategy != ReplanLoop && h[3].strategy != ReplanLoop
  {
    var failures := [Failure(5, b), Failure(0, a), Failure(0, a), Failure(0, a)];
    var h := History(9, classify, task, failures);
    HistoryFollows(9, classify, task, failures, 3);
    forall i | 0 <= i < 4 ensures h[i].attempt == failures[i].attempt && h[i].reason == failures[i].reason {
      HistoryFollows(9, classify, task, failures, i);
    }
    forall i | 1 <= i < 4 ensures h[i].strategy != ReplanLoop {
      HistoryFollows(9, classify, task, failures, i);
      LaterStaysLast(h[..i]);
      ReplansOnThird(SortBy(EarlierAttempt, h[..i]), 9, classify, task, 0, a);
    }
  }

  /** A record whose attempt exceeds all that follow is listed last. */
  lemma LaterStaysLast(h: seq<Record>)
    requires h != [] && forall i :: 0 < i < |h| ==> h[i].attempt < h[0].attempt
    ensures var listed := SortBy(EarlierAttempt, h);
      |listed| == |h| && listed[|h| - 1] == h[0]
  {
    SortPermutes(EarlierAttempt, h[1..]);
    forall r | r in SortBy(EarlierAttempt, h[1..]) ensures r.attempt < h[0].attempt {
      assert r in multiset(h[1..]);
    }
    InsertedLast(h[0], SortBy(EarlierAttempt, h[1..]));
    assert |multiset(SortBy(EarlierAttempt, h[1..]))| == |multiset(h[1..])|;
  }

  lemma {:induction false} InsertedLast(x: Record, s: seq<Record>)
    requires forall r :: r in s ==> r.attempt < x.attempt
    ensures InsertBy(EarlierAttempt, x, s) == s + [x]
  {
    if s != [] {
      InsertedLast(x, s[1..]);
    }
  }

  // ----- marking a recovery as successful -----

  /** The records with their outcomes struck out. */
  function Blank(s: seq<Record>): seq<Record> {
    if s == [] then [] else [s[0].(outcome := InProgress)] + Blank(s[1..])
  }

  /** Whatever was marked as recovered, later decisions are the same. */
  lemma MarkingChangesNothing(saved: seq<Record>, i: nat, limit: nat, classify: string -> Diagnosis, task: TaskId,
                              attempt: nat, reason: string)
    requires i < |saved|
    ensures var marked := saved[i := saved[i].(outcome := Succeeded)];
      Decide(Listed(marked, task), limit, classify, task, attempt, reason)
      == Decide(Listed(saved, task), limit, classify, task, attempt, reason)
  {
    var marked := saved[i := saved[i].(outcome := Succeeded)];
    BlankMarked(saved, i);
    BlankListed(saved, task);
    BlankListed(marked, task);
    BlankDecides(Listed(saved, task), reason, StrategyFor(classify(reason)));
    BlankDecides(Listed(marked, task), reason, StrategyFor(classify(reason)));
  }

  lemma {:induction false} BlankMarked(saved: seq<Record>, i: nat)
    requires i < |saved|
    ensures Blank(saved[i := saved[i].(outcome := Succeeded)]) == Blank(saved)
  {
    var marked := saved[i := saved[i].(outcome := Succeeded)];
    if i > 0 {
      BlankMarked(saved[1..], i - 1);
      assert marked[1..] == saved[1..][i - 1 := saved[i].(outcome := Succeeded)];
    } else {
      assert marked[1..] == saved[1..];
    }
  }

  lemma BlankListed(saved: seq<Record>, task: TaskId)
    ensures Blank(Listed(saved, task)) == Listed(Blank(saved), task)
  {
    BlankFiltered(saved, task);
    BlankSorted(Filter(OfTask(task), saved));
  }

  lemma {:induction false} BlankFiltered(s: seq<Record>, task: TaskId)
    ensures Blank(Filter(OfTask(task), s)) == Filter(OfTask(task), Blank(s))
  {
    if s != [] {
      BlankFiltered(s[1..], task);
    }
  }

  lemma {:induction false} BlankSorted(s: seq<Record>)
    ensures Blank(SortBy(EarlierAttempt, s)) == SortBy(EarlierAttempt, Blank(s))
  {
    if s != [] {
      BlankSorted(s[1..]);
      BlankInserted(s[0], SortBy(EarlierAttempt, s[1..]));
    }
  }

  lemma {:induction false} BlankInserted(x: Record, s: seq<Record>)
    ensures Blank(InsertBy(EarlierAttempt, x, s)) == InsertBy(EarlierAttempt, x.(outcome := InProgress), Blank(s))
  {
    if s != [] && EarlierAttempt(s[0], x) {
      BlankInserted(x, s[1..]);
    }
  }

  lemma {:induction false} BlankDecides(past: seq<Record>, reason: string, strategy: Strategy)
    ensures |Blank(past)| == |past|
    ensures Trailing(Blank(past), reason) == Trailing(past, reason)
    ensures LatestVersion(Blank(past), strategy) == LatestVersion(past, strategy)
  {
    if past != [] {
      var n := |past| - 1;
      BlankDecides(past[..n], reason, strategy);
      BlankLast(past);
    }
  }

  lemma {:induction false} BlankLast(s: seq<Record>)
    requires s != []
    ensures Blank(s) == Blank(s[..|s| - 1]) + [s[|s| - 1].(outcome := InProgress)]
  {
    if |s| > 1 {
      BlankLast(s[1..]);
      assert s[1..][..|s| - 2] == s[..|s| - 1][1..];
    }
  }
}
