/** Routing one request through the eligible providers, in order, with retries and failover. */
module Failover {
  import opened Results
  import opened Reliability
  import opened Health

  datatype PrivacyPolicy = LocalOnly | AllowedProviders(ids: seq<ProviderId>) | AnyProvider
  {
    predicate Allows(id: ProviderId, isLocal: bool) {
      match this
      case LocalOnly => isLocal
      case AllowedProviders(ids) => id in ids
      case AnyProvider => true
    }
  }

  datatype CapabilityRequirement = CapabilityRequirement(minReasoningTier: nat, requiresTools: bool)

  datatype ProviderDescriptor = ProviderDescriptor(id: ProviderId, reasoningTier: nat, supportsTools: bool, isLocal: bool)
  {
    predicate Satisfies(privacy: PrivacyPolicy, need: CapabilityRequirement) {
      privacy.Allows(id, isLocal) && reasoningTier >= need.minReasoningTier && (need.requiresTools ==> supportsTools)
    }
  }

  datatype Decision = Decision(from: ProviderId, to: ProviderId, reason: ProviderError)

  type Response = string

  /** The outcome of one call to a provider, and when it came. */
  datatype Answer = Answer(result: Result<Response, ProviderError>, at: Timestamp)

  /** A provider that was tried, with the numbers of the calls made to it. */
  datatype Tried = Tried(provider: ProviderId, start: nat, calls: nat)
  {
    function Last(): nat { if calls == 0 then start else start + calls - 1 }
  }

  // ----- what the router does, call by call -----

  /** A failed call is retried while retries are left and the error may pass. */
  predicate Retried(policy: RetryPolicy, a: Answer, attempt: nat) {
    a.result.Err? && a.result.error.IsTransient() && attempt < policy.maxRetries
  }

  /** How many calls one provider gets, the next being number `n` and its `attempt`-th. */
  function CallsTo(policy: RetryPolicy, answers: nat -> Answer, n: nat, attempt: nat): (k: nat)
    ensures k >= 1
    decreases policy.maxRetries - attempt
  {
    if Retried(policy, answers(n), attempt)
    then 1 + CallsTo(policy, answers, n + 1, attempt + 1) else 1
  }

  function Route(policy: RetryPolicy, answers: nat -> Answer, candidates: seq<ProviderId>, n: nat): seq<Tried> {
    if candidates == [] then []
    else
      var k := CallsTo(policy, answers, n, 0);
      [Tried(candidates[0], n, k)] +
      if answers(n + k - 1).result.Ok? then [] else Route(policy, answers, candidates[1..], n + k)
  }

  /** The failovers recorded: one for each provider tried after another was given up. */
  function Links(tried: seq<Tried>, answers: nat -> Answer): seq<Decision> {
    var n := |tried| - 1;
    if n < 1 then []
    else
      var given := answers(tried[n - 1].Last()).result;
      Links(tried[..n], answers) + if given.Err? then [Decision(tried[n - 1].provider, tried[n].provider, given.error)] else []
  }

  function EventOf(a: Answer): HealthEvent {
    match a.result
    case Ok(_) => Worked
    case Err(e) => FailedCall(e, a.at)
  }

  function EventsFrom(answers: nat -> Answer, start: nat, calls: nat): seq<HealthEvent> {
    if calls == 0 then [] else EventsFrom(answers, start, calls - 1) + [EventOf(answers(start + calls - 1))]
  }

  /** What the tracker hears of one provider. */
  function EventsOf(p: ProviderId, tried: seq<Tried>, answers: nat -> Answer): seq<HealthEvent> {
    if tried == [] then []
    else
      var last := tried[|tried| - 1];
      EventsOf(p, tried[..|tried| - 1], answers) + if last.provider == p then EventsFrom(answers, last.start, last.calls) else []
  }

  /** When each check of a selection is made; the clock never goes back. */
  type Clock = nat -> Timestamp

  ghost predicate Forward(clock: Clock) {
    forall i: nat, j: nat :: i <= j ==> clock(i) <= clock(j)
  }

  /** The checks made while selecting, one per suitable entry of the provider list. */
  function ChecksOf(p: ProviderId, suitable: seq<ProviderId>, clock: Clock): seq<HealthEvent> {
    if suitable == [] then []
    else
      var n := |suitable| - 1;
      ChecksOf(p, suitable[..n], clock) + if suitable[n] == p then [Checked(clock(n))] else []
  }

  function Suitable(providers: seq<ProviderDescriptor>, privacy: PrivacyPolicy, need: CapabilityRequirement): seq<ProviderId> {
    if providers == [] then []
    else
      var n := |providers| - 1;
      Suitable(providers[..n], privacy, need) + if providers[n].Satisfies(privacy, need) then [providers[n].id] else []
  }

  /** The suitable providers that pass their health checks, in list order. */
  function Passing(suitable: seq<ProviderId>, breaker: Breaker, history: map<ProviderId, seq<HealthEvent>>, clock: Clock): seq<ProviderId> {
    if suitable == [] then []
    else
      var n := |suitable| - 1;
      var p := suitable[n];
      Passing(suitable[..n], breaker, history, clock)
      + if Passes(breaker.Fold(EventsIn(history, p) + ChecksOf(p, suitable[..n], clock)), clock(n)) then [p] else []
  }

  class FailoverRouter {
    const providers: seq<ProviderDescriptor>
    const tracker: ProviderHealthTracker
    const policy: RetryPolicy
    var decisions: seq<Decision>

    constructor (providers: seq<ProviderDescriptor>, tracker: ProviderHealthTracker, policy: RetryPolicy)
      ensures this.providers == providers && this.tracker == tracker && this.policy == policy && decisions == []
    {
      this.providers, this.tracker, this.policy, this.decisions := providers, tracker, policy, [];
    }

    /** The suitable providers looked at so far, the candidates among them, and the checks made. */
    ghost predicate Selected(was: map<ProviderId, seq<HealthEvent>>, suitable: seq<ProviderId>, candidates: seq<ProviderId>, clock: Clock)
      reads this, tracker
    {
      && tracker.Valid()
      && candidates == Passing(suitable, tracker.breaker, was, clock)
      && HeardChecks(was, tracker.history, suitable, clock)
    }

    /** Checks the health of one more suitable provider. */
    method Offer(p: ProviderId, now: Timestamp, candidates: seq<ProviderId>,
                 ghost was: map<ProviderId, seq<HealthEvent>>, ghost suitable: seq<ProviderId>, ghost clock: Clock)
      returns (candidates': seq<ProviderId>)
      requires Selected(was, suitable, candidates, clock) && now == clock(|suitable|)
      modifies tracker
      ensures Selected(was, suitable + [p], candidates', clock)
    {
      ghost var before := tracker.history;
      var ok := tracker.IsAvailable(p, now);
      OneCheckMore(was, before, tracker.history, suitable, p, clock);
      PassingOneMore(suitable, tracker.breaker, was, before, clock, p);
      candidates' := if ok then candidates + [p] else candidates;
    }

    /** The providers that may see the request, can serve it, and are healthy when their turn comes. */
    method SelectCandidates(privacy: PrivacyPolicy, need: CapabilityRequirement, clock: Clock) returns (candidates: seq<ProviderId>)
      requires tracker.Valid()
      modifies tracker
      ensures Selected(old(tracker.history), Suitable(providers, privacy, need), candidates, clock)
    {
      candidates := [];
      var checks := 0;
      for i := 0 to |providers|
        invariant checks == |Suitable(providers[..i], privacy, need)|
        invariant Selected(old(tracker.history), Suitable(providers[..i], privacy, need), candidates, clock)
      {
        SuitableOneMore(providers, i, privacy, need);
        if providers[i].Satisfies(privacy, need) {
          candidates := Offer(providers[i].id, clock(checks), candidates, old(tracker.history), Suitable(providers[..i], privacy, need), clock);
          checks := checks + 1;
        }
      }
      assert providers[..|providers|] == providers;
    }

    /** Makes one call and tells the tracker how it went. */
    method CallOnce(p: ProviderId, answer: Answer)
      requires tracker.Valid()
      modifies tracker
      ensures tracker.Valid()
      ensures tracker.history == old(tracker.history)[p := EventsIn(old(tracker.history), p) + [EventOf(answer)]]
    {
      match answer.result
      case Ok(_) => tracker.RecordSuccess(p);
      case Err(e) => tracker.RecordFailure(p, e, answer.at);
    }

    /** `p` was called `attempt` times, from call number `n` on, and the tracker heard of each call. */
    ghost predicate Called(was: map<ProviderId, seq<HealthEvent>>, p: ProviderId, answers: nat -> Answer, n: nat, attempt: nat)
      reads this, tracker
    {
      tracker.Valid() && Told(was, tracker.history, p, EventsFrom(answers, n, attempt))
    }

    /** Makes call number `n + attempt`; tells how long to wait before the next one, if there is one. */
    method CallNext(p: ProviderId, answers: nat -> Answer, n: nat, attempt: nat, ghost was: map<ProviderId, seq<HealthEvent>>)
      returns (delay: Option<nat>)
      requires Called(was, p, answers, n, attempt)
      modifies tracker
      ensures Called(was, p, answers, n, attempt + 1)
      ensures delay == WaitAfter(policy, answers(n + attempt), attempt)
    {
      var answer := answers(n + attempt);
      ToldMore(was, tracker.history, p, EventsFrom(answers, n, attempt), EventOf(answer));
      CallOnce(p, answer);
      delay := if answer.result.Err? then policy.ComputeDelay(attempt, answer.result.error) else None;
    }

    /** Calls one provider until it answers or a failure is not to be retried; `n` calls were made before. */
    method TryProvider(p: ProviderId, answers: nat -> Answer, n: nat) returns (calls: nat, waits: seq<nat>)
      requires tracker.Valid()
      modifies tracker
      ensures calls == CallsTo(policy, answers, n, 0) && Called(old(tracker.history), p, answers, n, calls)
      ensures |waits| == calls - 1 && Retrying(policy, answers, n, waits)
    {
      var attempt := 0;
      waits := [];
      while true
        invariant Called(old(tracker.history), p, answers, n, attempt)
        invariant Retrying(policy, answers, n, waits) && attempt == |waits|
        decreases policy.maxRetries - attempt
      {
        var delay := CallNext(p, answers, n, attempt, old(tracker.history));
        if delay == None {
          RetriesOver(policy, answers, n, waits);
          return attempt + 1, waits;
        }
        OneWaitMore(policy, answers, n, waits, delay.value);
        waits, attempt := waits + [delay.value], attempt + 1;
      }
    }

    /** The failovers recorded, the outcomes heard and the waits made for the providers tried so far. */
    ghost predicate Recorded(selected: map<ProviderId, seq<HealthEvent>>, base: seq<Decision>, tried: seq<Tried>,
                             answers: nat -> Answer, waits: seq<nat>)
      reads this, tracker
    {
      && tracker.Valid()
      && decisions == base + Links(tried, answers)
      && HeardRoute(selected, tracker.history, tried, answers)
      && Waited(policy, answers, tried, waits)
    }

    /** Fails over to the next candidate, if one was given up before, and tries it. */
    method TryCandidate(p: ProviderId, previous: Option<(ProviderId, ProviderError)>, answers: nat -> Answer, n: nat, waits: seq<nat>,
                        ghost tried: seq<Tried>, ghost selected: map<ProviderId, seq<HealthEvent>>, ghost base: seq<Decision>)
      returns (calls: nat, waits': seq<nat>, last: Result<Response, ProviderError>)
      requires Recorded(selected, base, tried, answers, waits) && previous == GivenUp(tried, answers)
      modifies this, tracker
      ensures calls == CallsTo(policy, answers, n, 0) && last == Outcome(tried + [Tried(p, n, calls)], answers)
      ensures last.Err? ==> GivenUp(tried + [Tried(p, n, calls)], answers) == Some((p, last.error))
      ensures Recorded(selected, base, tried + [Tried(p, n, calls)], answers, waits')
    {
      if previous.Some? {
        decisions := decisions + [Decision(previous.value.0, p, previous.value.1)];
      }
      ghost var before := tracker.history;
      var more;
      calls, more := TryProvider(p, answers, n);
      last := answers(n + calls - 1).result;
      RunHeard(selected, before, tracker.history, tried, Tried(p, n, calls), answers);
      LinksOneMore(tried, Tried(p, n, calls), answers);
      WaitedMore(policy, answers, tried, waits, Tried(p, n, calls), more);
      OutcomeOfLast(tried, Tried(p, n, calls), answers);
      waits' := waits + more;
    }

    /** Dispatches a request through the candidates. `answers` gives the outcome of each call made. */
    method Dispatch(answers: nat -> Answer, candidates: seq<ProviderId>)
      returns (r: Result<Response, ProviderError>, ghost tried: seq<Tried>, waits: seq<nat>)
      requires tracker.Valid()
      modifies this, tracker
      ensures tried == Route(policy, answers, candidates, 0) && r == Outcome(tried, answers)
      ensures Recorded(old(tracker.history), old(decisions), tried, answers, waits)
    {
      waits, tried := [], [];
      NothingHeard(tracker.history, answers);
      var n, i := 0, 0;
      var previous: Option<(ProviderId, ProviderError)> := None;
      while i < |candidates|
        invariant i <= |candidates| && OnRoute(policy, answers, candidates, i, n, tried)
        invariant previous == GivenUp(tried, answers)
        invariant Recorded(old(tracker.history), old(decisions), tried, answers, waits)
      {
        var p := candidates[i];
        var calls, last;
        calls, waits, last := TryCandidate(p, previous, answers, n, waits, tried, old(tracker.history), old(decisions));
        ghost var before := tried;
        tried := tried + [Tried(p, n, calls)];
        AfterCandidate(policy, answers, candidates, i, n, before, Tried(p, n, calls));
        if last.Ok? {
          return last, tried, waits;
        }
        previous, i, n := Some((p, last.error)), i + 1, n + calls;
      }
      RouteExhausted(policy, answers, candidates, n, tried);
      r := Err(if previous.Some? then previous.value.1 else Unavailable);
    }

    method ExecuteWithFailover(answers: nat -> Answer, privacy: PrivacyPolicy, need: CapabilityRequirement, clock: Clock)
      returns (r: Result<Response, ProviderError>, ghost tried: seq<Tried>, waits: seq<nat>)
      requires tracker.Valid()
      modifies this, tracker
      ensures tracker.Valid()
      ensures tried == Route(policy, answers, Passing(Suitable(providers, privacy, need), tracker.breaker, old(tracker.history), clock), 0)
      ensures r == Outcome(tried, answers) && decisions == old(decisions) + Links(tried, answers)
      ensures HeardAll(old(tracker.history), tracker.history, Suitable(providers, privacy, need), clock, tried, answers)
      ensures Waited(policy, answers, tried, waits) && Capped(policy, waits)
    {
      var candidates := SelectCandidates(privacy, need, clock);
      ghost var selected := tracker.history;
      if candidates == [] {
        NothingHeard(selected, answers);
        BothHeard(old(tracker.history), selected, selected, Suitable(providers, privacy, need), clock, [], answers);
        return Err(Unavailable), [], [];
      }
      r, tried, waits := Dispatch(answers, candidates);
      WaitedCapped(policy, answers, tried, waits);
      BothHeard(old(tracker.history), selected, tracker.history, Suitable(providers, privacy, need), clock, tried, answers);
    }
  }

  function Outcome(tried: seq<Tried>, answers: nat -> Answer): Result<Response, ProviderError> {
    if tried == [] then Err(Unavailable) else answers(tried[|tried| - 1].Last()).result
  }

  /** The provider given up last, with its last error. */
  function GivenUp(tried: seq<Tried>, answers: nat -> Answer): Option<(ProviderId, ProviderError)> {
    if tried == [] || Outcome(tried, answers).Ok? then None
    else Some((tried[|tried| - 1].provider, Outcome(tried, answers).error))
  }

  function WaitAfter(policy: RetryPolicy, a: Answer, attempt: nat): Option<nat> {
    if a.result.Err? then policy.ComputeDelay(attempt, a.result.error) else None
  }

  ghost predicate Capped(policy: RetryPolicy, waits: seq<nat>) {
    forall w :: w in waits ==> w <= policy.maxBackoff
  }

  lemma BothCapped(policy: RetryPolicy, some: seq<nat>, more: seq<nat>)
    requires Capped(policy, some) && Capped(policy, more)
    ensures Capped(policy, some + more)
  {
  }

  /** As many calls were made as waits, and each was to be retried after its wait. */
  ghost predicate Retrying(policy: RetryPolicy, answers: nat -> Answer, n: nat, waits: seq<nat>) {
    waits == [] ||
    var k := |waits| - 1;
    WaitAfter(policy, answers(n + k), k) == Some(waits[k]) && Retrying(policy, answers, n, waits[..k])
  }

  lemma OneWaitMore(policy: RetryPolicy, answers: nat -> Answer, n: nat, waits: seq<nat>, wait: nat)
    requires Retrying(policy, answers, n, waits) && WaitAfter(policy, answers(n + |waits|), |waits|) == Some(wait)
    ensures Retrying(policy, answers, n, waits + [wait]) && |waits| < policy.maxRetries
  {
    assert (waits + [wait])[..|waits|] == waits;
  }

  lemma {:induction false} RetryingCapped(policy: RetryPolicy, answers: nat -> Answer, n: nat, waits: seq<nat>)
    requires Retrying(policy, answers, n, waits)
    ensures Capped(policy, waits)
  {
    if waits != [] {
      var k := |waits| - 1;
      RetryingCapped(policy, answers, n, waits[..k]);
      RetriedWhenWaiting(policy, answers(n + k), k);
      BothCapped(policy, waits[..k], [waits[k]]);
      assert waits == waits[..k] + [waits[k]];
    }
  }

  /** The waits of a request: those made for one tried provider after those for the providers before. */
  ghost predicate Waited(policy: RetryPolicy, answers: nat -> Answer, tried: seq<Tried>, waits: seq<nat>) {
    if tried == [] then waits == []
    else
      var t := tried[|tried| - 1];
      var m := |waits| - t.calls + 1;
      && 0 <= m <= |waits|
      && Waited(policy, answers, tried[..|tried| - 1], waits[..m]) && Retrying(policy, answers, t.start, waits[m..])
  }

  lemma WaitedMore(policy: RetryPolicy, answers: nat -> Answer, tried: seq<Tried>, waits: seq<nat>, t: Tried, more: seq<nat>)
    requires Waited(policy, answers, tried, waits) && |more| == t.calls - 1 && Retrying(policy, answers, t.start, more)
    ensures Waited(policy, answers, tried + [t], waits + more)
  {
    assert (tried + [t])[..|tried|] == tried && (waits + more)[..|waits|] == waits && (waits + more)[|waits|..] == more;
  }

  lemma {:induction false} WaitedCapped(policy: RetryPolicy, answers: nat -> Answer, tried: seq<Tried>, waits: seq<nat>)
    requires Waited(policy, answers, tried, waits)
    ensures Capped(policy, waits)
  {
    if tried != [] {
      var t := tried[|tried| - 1];
      var m := |waits| - t.calls + 1;
      WaitedCapped(policy, answers, tried[..|tried| - 1], waits[..m]);
      RetryingCapped(policy, answers, t.start, waits[m..]);
      BothCapped(policy, waits[..m], waits[m..]);
      assert waits == waits[..m] + waits[m..];
    }
  }

  lemma {:induction false} RetryingAt(policy: RetryPolicy, answers: nat -> Answer, n: nat, waits: seq<nat>, k: nat)
    requires Retrying(policy, answers, n, waits) && k < |waits|
    ensures WaitAfter(policy, answers(n + k), k) == Some(waits[k])
    decreases |waits|
  {
    if k < |waits| - 1 {
      RetryingAt(policy, answers, n, waits[..|waits| - 1], k);
    }
  }

  /** Each wait follows an error that may pass, while retries are left. The first one is the initial backoff, cut
      to the cap, and a Retry-After is honoured within the two. */
  lemma WaitsMean(policy: RetryPolicy, answers: nat -> Answer, n: nat, waits: seq<nat>, k: nat)
    requires Retrying(policy, answers, n, waits) && k < |waits|
    ensures k < policy.maxRetries && waits[k] <= policy.maxBackoff
    ensures var a := answers(n + k).result;
      && a.Err? && (a.error in {Network, Timeout, Unavailable} || a.error.RateLimited?)
      && (a.error.RateLimited? && a.error.retryAfterSecs.Some? && policy.initialBackoff <= policy.maxBackoff ==>
            && policy.initialBackoff <= waits[k]
            && (policy.initialBackoff <= a.error.retryAfterSecs.value * 1000 <= policy.maxBackoff ==>
                  waits[k] == a.error.retryAfterSecs.value * 1000))
      && (k == 0 && !(a.error.RateLimited? && a.error.retryAfterSecs.Some?) ==> waits[0] == Min(policy.initialBackoff, policy.maxBackoff))
  {
    RetryingAt(policy, answers, n, waits, k);
  }

  predicate Unprompted(a: Answer) {
    a.result.Err? ==> a.result.error.RetryAfter() == None
  }

  /** While no failure asks for a wait of its own and the multiplier is large enough, the waits for one
      provider never get shorter. */
  lemma WaitsGrow(policy: RetryPolicy, answers: nat -> Answer, n: nat, waits: seq<nat>, i: nat, j: nat)
    requires Retrying(policy, answers, n, waits) && policy.multiplier >= 1.2 && i <= j < |waits|
    requires forall c: nat :: n <= c < n + |waits| ==> Unprompted(answers(c))
    ensures waits[i] <= waits[j]
  {
    RetryingAt(policy, answers, n, waits, i);
    RetryingAt(policy, answers, n, waits, j);
    RetriedWhenWaiting(policy, answers(n + j), j);
    assert Unprompted(answers(n + i)) && Unprompted(answers(n + j));
    SameWait(policy, i, answers(n + i), answers(n + j));
    BackoffGrows(policy, i, j, answers(n + j).result.error);
  }

  lemma SameWait(policy: RetryPolicy, attempt: nat, a: Answer, b: Answer)
    requires Unprompted(a) && Unprompted(b) && attempt < policy.maxRetries
    requires WaitAfter(policy, a, attempt).Some? && b.result.Err? && b.result.error.IsTransient()
    ensures WaitAfter(policy, a, attempt) == policy.ComputeDelay(attempt, b.result.error)
  {
  }

  lemma {:induction false} RetryingCounts(policy: RetryPolicy, answers: nat -> Answer, n: nat, waits: seq<nat>)
    requires Retrying(policy, answers, n, waits)
    ensures CallsTo(policy, answers, n, 0) == |waits| + CallsTo(policy, answers, n + |waits|, |waits|)
  {
    if waits != [] {
      var k := |waits| - 1;
      RetryingCounts(policy, answers, n, waits[..k]);
      RetriedWhenWaiting(policy, answers(n + k), k);
      CallsUnfold(policy, answers, n + k, k);
    }
  }

  lemma CallsUnfold(policy: RetryPolicy, answers: nat -> Answer, n: nat, attempt: nat)
    requires Retried(policy, answers(n), attempt)
    ensures CallsTo(policy, answers, n, attempt) == 1 + CallsTo(policy, answers, n + 1, attempt + 1)
  {
  }

  lemma RetriedWhenWaiting(policy: RetryPolicy, a: Answer, attempt: nat)
    ensures WaitAfter(policy, a, attempt).Some? <==> Retried(policy, a, attempt)
    ensures WaitAfter(policy, a, attempt).Some? ==> WaitAfter(policy, a, attempt).value <= policy.maxBackoff
  {
  }

  lemma RetriesOver(policy: RetryPolicy, answers: nat -> Answer, n: nat, waits: seq<nat>)
    requires Retrying(policy, answers, n, waits) && WaitAfter(policy, answers(n + |waits|), |waits|) == None
    ensures CallsTo(policy, answers, n, 0) == |waits| + 1
  {
    RetryingCounts(policy, answers, n, waits);
    RetriedWhenWaiting(policy, answers(n + |waits|), |waits|);
  }

  /** Only `p` was told anything, and it was told the news. */
  ghost predicate Told(was: map<ProviderId, seq<HealthEvent>>, now: map<ProviderId, seq<HealthEvent>>, p: ProviderId, news: seq<HealthEvent>) {
    forall q :: EventsIn(now, q) == if q == p then EventsIn(was, q) + news else EventsIn(was, q)
  }

  lemma ToldMore(was: map<ProviderId, seq<HealthEvent>>, now: map<ProviderId, seq<HealthEvent>>, p: ProviderId,
                 news: seq<HealthEvent>, event: HealthEvent)
    requires Told(was, now, p, news)
    ensures Told(was, now[p := EventsIn(now, p) + [event]], p, news + [event])
  {
    var then' := now[p := EventsIn(now, p) + [event]];
    forall q ensures EventsIn(then', q) == if q == p then EventsIn(was, q) + (news + [event]) else EventsIn(was, q) {
      assert EventsIn(now, q) == if q == p then EventsIn(was, q) + news else EventsIn(was, q);
    }
  }

  /** Each provider's history has grown by the checks made on it. */
  ghost predicate HeardChecks(was: map<ProviderId, seq<HealthEvent>>, now: map<ProviderId, seq<HealthEvent>>,
                              suitable: seq<ProviderId>, clock: Clock) {
    forall p :: EventsIn(now, p) == EventsIn(was, p) + ChecksOf(p, suitable, clock)
  }

  /** Each provider's history has grown by the outcomes of the calls made to it. */
  ghost predicate HeardRoute(was: map<ProviderId, seq<HealthEvent>>, now: map<ProviderId, seq<HealthEvent>>,
                             tried: seq<Tried>, answers: nat -> Answer) {
    forall p :: EventsIn(now, p) == EventsIn(was, p) + EventsOf(p, tried, answers)
  }

  /** Each provider's history has grown by its checks and then by the outcomes of its calls. */
  ghost predicate HeardAll(was: map<ProviderId, seq<HealthEvent>>, now: map<ProviderId, seq<HealthEvent>>,
                           suitable: seq<ProviderId>, clock: Clock, tried: seq<Tried>, answers: nat -> Answer) {
    forall p :: EventsIn(now, p) == EventsIn(was, p) + ChecksOf(p, suitable, clock) + EventsOf(p, tried, answers)
  }

  lemma OneCheckMore(was: map<ProviderId, seq<HealthEvent>>, before: map<ProviderId, seq<HealthEvent>>,
                     after: map<ProviderId, seq<HealthEvent>>, suitable: seq<ProviderId>, q: ProviderId, clock: Clock)
    requires HeardChecks(was, before, suitable, clock) && after == before[q := EventsIn(before, q) + [Checked(clock(|suitable|))]]
    ensures HeardChecks(was, after, suitable + [q], clock)
  {
    var check := [Checked(clock(|suitable|))];
    forall p ensures EventsIn(after, p) == EventsIn(was, p) + ChecksOf(p, suitable + [q], clock) {
      ChecksUnfold(p, suitable, q, clock);
      assert EventsIn(after, p) == if q == p then EventsIn(before, p) + check else EventsIn(before, p);
      HeardThenTold(EventsIn(was, p), ChecksOf(p, suitable, clock), check, EventsIn(before, p), EventsIn(after, p), q == p);
    }
  }

  lemma ChecksUnfold(p: ProviderId, suitable: seq<ProviderId>, q: ProviderId, clock: Clock)
    ensures ChecksOf(p, suitable + [q], clock) == ChecksOf(p, suitable, clock) + if q == p then [Checked(clock(|suitable|))] else []
  {
    assert (suitable + [q])[..|suitable|] == suitable;
  }

  lemma BothHeard(was: map<ProviderId, seq<HealthEvent>>, selected: map<ProviderId, seq<HealthEvent>>,
                  now: map<ProviderId, seq<HealthEvent>>, suitable: seq<ProviderId>, clock: Clock, tried: seq<Tried>, answers: nat -> Answer)
    requires HeardChecks(was, selected, suitable, clock) && HeardRoute(selected, now, tried, answers)
    ensures HeardAll(was, now, suitable, clock, tried, answers)
  {
    forall p ensures EventsIn(now, p) == EventsIn(was, p) + ChecksOf(p, suitable, clock) + EventsOf(p, tried, answers) {
      assert EventsIn(selected, p) == EventsIn(was, p) + ChecksOf(p, suitable, clock);
      assert EventsIn(now, p) == EventsIn(selected, p) + EventsOf(p, tried, answers);
    }
  }

  lemma NothingHeard(history: map<ProviderId, seq<HealthEvent>>, answers: nat -> Answer)
    ensures HeardRoute(history, history, [], answers)
  {
  }

  lemma EventsOneMore(p: ProviderId, tried: seq<Tried>, t: Tried, answers: nat -> Answer)
    ensures EventsOf(p, tried + [t], answers)
         == EventsOf(p, tried, answers) + if t.provider == p then EventsFrom(answers, t.start, t.calls) else []
  {
    assert (tried + [t])[..|tried|] == tried;
  }

  lemma RunHeard(selected: map<ProviderId, seq<HealthEvent>>, before: map<ProviderId, seq<HealthEvent>>,
                 now: map<ProviderId, seq<HealthEvent>>, tried: seq<Tried>, t: Tried, answers: nat -> Answer)
    requires HeardRoute(selected, before, tried, answers)
    requires Told(before, now, t.provider, EventsFrom(answers, t.start, t.calls))
    ensures HeardRoute(selected, now, tried + [t], answers)
  {
    forall p ensures EventsIn(now, p) == EventsIn(selected, p) + EventsOf(p, tried + [t], answers) {
      EventsOneMore(p, tried, t, answers);
      HeardThenTold(EventsIn(selected, p), EventsOf(p, tried, answers), EventsFrom(answers, t.start, t.calls),
                    EventsIn(before, p), EventsIn(now, p), t.provider == p);
    }
  }

  lemma HeardThenTold(was: seq<HealthEvent>, told: seq<HealthEvent>, news: seq<HealthEvent>, before: seq<HealthEvent>,
                      now: seq<HealthEvent>, mine: bool)
    requires before == was + told && now == if mine then before + news else before
    ensures now == was + (told + if mine then news else [])
  {
  }

  lemma LinksOneMore(tried: seq<Tried>, t: Tried, answers: nat -> Answer)
    ensures Links(tried + [t], answers) == Links(tried, answers) +
      if GivenUp(tried, answers).Some?
      then [Decision(GivenUp(tried, answers).value.0, t.provider, GivenUp(tried, answers).value.1)] else []
  {
    assert (tried + [t])[..|tried|] == tried;
  }

  /** `tried` gave up the first `i` candidates one after the other, in `n` calls. */
  ghost predicate OnRoute(policy: RetryPolicy, answers: nat -> Answer, candidates: seq<ProviderId>, i: nat, n: nat, tried: seq<Tried>)
    requires i <= |candidates|
    decreases i
  {
    if i == 0 then n == 0 && tried == []
    else
      tried != [] &&
      var t := tried[|tried| - 1];
      && t == Tried(candidates[i - 1], t.start, CallsTo(policy, answers, t.start, 0))
      && n == t.start + t.calls && answers(t.Last()).result.Err?
      && OnRoute(policy, answers, candidates, i - 1, t.start, tried[..|tried| - 1])
  }

  lemma {:induction false} OnRouteMeans(policy: RetryPolicy, answers: nat -> Answer, candidates: seq<ProviderId>, i: nat, n: nat, tried: seq<Tried>)
    requires i <= |candidates| && OnRoute(policy, answers, candidates, i, n, tried)
    ensures tried + Route(policy, answers, candidates[i..], n) == Route(policy, answers, candidates, 0)
    decreases i
  {
    if i == 0 {
      assert candidates[0..] == candidates;
    } else {
      OnRouteLast(policy, answers, candidates, i, n, tried);
      var t := tried[|tried| - 1];
      OnRouteMeans(policy, answers, candidates, i - 1, t.start, tried[..|tried| - 1]);
      RouteAt(policy, answers, candidates, i - 1, t);
      Regroup(tried, Route(policy, answers, candidates[i..], n), Route(policy, answers, candidates[i - 1..], t.start),
              Route(policy, answers, candidates, 0));
    }
  }

  lemma RouteAt(policy: RetryPolicy, answers: nat -> Answer, candidates: seq<ProviderId>, i: nat, t: Tried)
    requires i < |candidates| && t == Tried(candidates[i], t.start, CallsTo(policy, answers, t.start, 0))
    requires answers(t.Last()).result.Err?
    ensures Route(policy, answers, candidates[i..], t.start) == [t] + Route(policy, answers, candidates[i + 1..], t.start + t.calls)
  {
    RouteFirst(policy, answers, candidates, i, t.start, t.calls);
  }

  lemma OnRouteLast(policy: RetryPolicy, answers: nat -> Answer, candidates: seq<ProviderId>, i: nat, n: nat, tried: seq<Tried>)
    requires 0 < i <= |candidates| && OnRoute(policy, answers, candidates, i, n, tried)
    ensures tried != []
    ensures var t := tried[|tried| - 1];
      && t == Tried(candidates[i - 1], t.start, CallsTo(policy, answers, t.start, 0)) && n == t.start + t.calls
      && answers(t.Last()).result.Err? && OnRoute(policy, answers, candidates, i - 1, t.start, tried[..|tried| - 1])
  {
  }

  lemma RouteExhausted(policy: RetryPolicy, answers: nat -> Answer, candidates: seq<ProviderId>, n: nat, tried: seq<Tried>)
    requires OnRoute(policy, answers, candidates, |candidates|, n, tried)
    ensures tried == Route(policy, answers, candidates, 0)
    ensures tried != [] ==> Outcome(tried, answers).Err?
  {
    OnRouteMeans(policy, answers, candidates, |candidates|, n, tried);
    assert tried + [] == tried;
  }

  lemma SuitableOneMore(providers: seq<ProviderDescriptor>, i: nat, privacy: PrivacyPolicy, need: CapabilityRequirement)
    requires i < |providers|
    ensures Suitable(providers[..i + 1], privacy, need)
         == if providers[i].Satisfies(privacy, need) then Suitable(providers[..i], privacy, need) + [providers[i].id]
            else Suitable(providers[..i], privacy, need)
  {
    assert providers[..i + 1][..i] == providers[..i];
  }

  lemma PassingOneMore(suitable: seq<ProviderId>, breaker: Breaker, was: map<ProviderId, seq<HealthEvent>>,
                       before: map<ProviderId, seq<HealthEvent>>, clock: Clock, p: ProviderId)
    requires HeardChecks(was, before, suitable, clock)
    ensures Passing(suitable + [p], breaker, was, clock)
         == Passing(suitable, breaker, was, clock) + if Passes(breaker.Fold(EventsIn(before, p)), clock(|suitable|)) then [p] else []
  {
    PassingUnfolds(suitable, breaker, was, clock, p);
    assert EventsIn(before, p) == EventsIn(was, p) + ChecksOf(p, suitable, clock);
  }

  lemma PassingUnfolds(suitable: seq<ProviderId>, breaker: Breaker, was: map<ProviderId, seq<HealthEvent>>, clock: Clock, p: ProviderId)
    ensures Passing(suitable + [p], breaker, was, clock)
         == Passing(suitable, breaker, was, clock)
            + if Passes(breaker.Fold(EventsIn(was, p) + ChecksOf(p, suitable, clock)), clock(|suitable|)) then [p] else []
  {
    assert (suitable + [p])[..|suitable|] == suitable;
  }

  /** An answer ends the route; a failure leaves it open for the next candidate. */
  lemma AfterCandidate(policy: RetryPolicy, answers: nat -> Answer, candidates: seq<ProviderId>, i: nat, n: nat, tried: seq<Tried>, t: Tried)
    requires i < |candidates| && OnRoute(policy, answers, candidates, i, n, tried)
    requires t == Tried(candidates[i], n, CallsTo(policy, answers, n, 0))
    ensures var last := Outcome(tried + [t], answers);
      && (last.Ok? ==> tried + [t] == Route(policy, answers, candidates, 0))
      && (last.Err? ==> OnRoute(policy, answers, candidates, i + 1, n + t.calls, tried + [t]))
  {
    OutcomeOfLast(tried, t, answers);
    if answers(t.Last()).result.Ok? {
      RouteAnswered(policy, answers, candidates, i, n, tried, t);
    } else {
      RouteGoesOn(policy, answers, candidates, i, n, tried, t);
    }
  }

  lemma RouteAnswered(policy: RetryPolicy, answers: nat -> Answer, candidates: seq<ProviderId>, i: nat, n: nat, tried: seq<Tried>, t: Tried)
    requires i < |candidates| && OnRoute(policy, answers, candidates, i, n, tried)
    requires t == Tried(candidates[i], n, CallsTo(policy, answers, n, 0)) && answers(t.Last()).result.Ok?
    ensures tried + [t] == Route(policy, answers, candidates, 0)
  {
    OnRouteMeans(policy, answers, candidates, i, n, tried);
    RouteFirst(policy, answers, candidates, i, n, t.calls);
    Complete(tried, t, Route(policy, answers, candidates[i..], n), Route(policy, answers, candidates, 0));
  }

  lemma Complete<T>(s: seq<T>, t: T, r: seq<T>, whole: seq<T>)
    requires s + r == whole && r == [t]
    ensures s + [t] == whole
  {
  }

  lemma RouteGoesOn(policy: RetryPolicy, answers: nat -> Answer, candidates: seq<ProviderId>, i: nat, n: nat, tried: seq<Tried>, t: Tried)
    requires i < |candidates| && OnRoute(policy, answers, candidates, i, n, tried)
    requires t == Tried(candidates[i], n, CallsTo(policy, answers, n, 0)) && answers(t.Last()).result.Err?
    ensures OnRoute(policy, answers, candidates, i + 1, n + t.calls, tried + [t])
  {
    assert (tried + [t])[..|tried|] == tried;
  }

  lemma RouteFirst(policy: RetryPolicy, answers: nat -> Answer, candidates: seq<ProviderId>, i: nat, n: nat, k: nat)
    requires i < |candidates| && k == CallsTo(policy, answers, n, 0)
    ensures answers(n + k - 1).result.Ok? ==> Route(policy, answers, candidates[i..], n) == [Tried(candidates[i], n, k)]
    ensures answers(n + k - 1).result.Err? ==>
      Route(policy, answers, candidates[i..], n) == [Tried(candidates[i], n, k)] + Route(policy, answers, candidates[i + 1..], n + k)
  {
    assert candidates[i..][1..] == candidates[i + 1..];
  }

  lemma OutcomeOfLast(tried: seq<Tried>, t: Tried, answers: nat -> Answer)
    ensures Outcome(tried + [t], answers) == answers(t.Last()).result
    ensures Outcome(tried + [t], answers).Err? ==> GivenUp(tried + [t], answers) == Some((t.provider, answers(t.Last()).result.error))
  {
  }

  lemma Regroup<T>(s: seq<T>, rest: seq<T>, r: seq<T>, whole: seq<T>)
    requires s != [] && s[..|s| - 1] + r == whole && r == [s[|s| - 1]] + rest
    ensures s + rest == whole
  {
  }

  /** Earlier checks leave the outcome of a later one alone. */
  lemma {:induction false} ChecksChangeNothing(breaker: Breaker, events: seq<HealthEvent>, p: ProviderId, suitable: seq<ProviderId>,
                                               clock: Clock, now: Timestamp)
    requires forall k: nat :: k < |suitable| ==> clock(k) <= now
    ensures Passes(breaker.Fold(events + ChecksOf(p, suitable, clock)), now) <==> Passes(breaker.Fold(events), now)
  {
    if suitable == [] {
      assert events + [] == events;
    } else {
      var n := |suitable| - 1;
      ChecksChangeNothing(breaker, events, p, suitable[..n], clock, now);
      assert ChecksOf(p, suitable[..n], clock) + [] == ChecksOf(p, suitable[..n], clock);
      if suitable[n] == p {
        var more := events + ChecksOf(p, suitable[..n], clock);
        assert events + ChecksOf(p, suitable, clock) == more + [Checked(clock(n))];
        assert (more + [Checked(clock(n))])[..|more|] == more;
      }
    }
  }

  // ----- what a route guarantees -----

  lemma {:induction false} RunEnds(policy: RetryPolicy, answers: nat -> Answer, n: nat, attempt: nat)
    requires attempt <= policy.maxRetries
    ensures var k := CallsTo(policy, answers, n, attempt);
      1 <= k <= policy.maxRetries - attempt + 1 && !Retried(policy, answers(n + k - 1), attempt + k - 1)
    decreases policy.maxRetries - attempt
  {
    if Retried(policy, answers(n), attempt) {
      RunEnds(policy, answers, n + 1, attempt + 1);
    }
  }

  /** One provider gets at most one call and its retries: every call but the last fails in a way the
      policy retries, and the last one answers or is not to be retried. */
  lemma {:induction false} RunIsBounded(policy: RetryPolicy, answers: nat -> Answer, n: nat, attempt: nat)
    requires attempt <= policy.maxRetries
    ensures var k := CallsTo(policy, answers, n, attempt);
      && 1 <= k <= policy.maxRetries - attempt + 1
      && (forall c :: n <= c < n + k - 1 ==> Retried(policy, answers(c), attempt + c - n))
      && !Retried(policy, answers(n + k - 1), attempt + k - 1)
    decreases policy.maxRetries - attempt
  {
    if Retried(policy, answers(n), attempt) {
      RunIsBounded(policy, answers, n + 1, attempt + 1);
      var k := CallsTo(policy, answers, n + 1, attempt + 1);
      forall c | n <= c < n + k ensures Retried(policy, answers(c), attempt + c - n) {
        assert c > n ==> attempt + 1 + c - (n + 1) == attempt + c - n;
      }
      assert n + 1 + k - 1 == n + k && attempt + 1 + k - 1 == attempt + k;
    }
  }

  ghost predicate Exhausted(policy: RetryPolicy, t: Tried, answers: nat -> Answer) {
    t.calls >= 1 && answers(t.Last()).result.Err? && !Retried(policy, answers(t.Last()), t.calls - 1)
  }

  /** Provider after provider from the first, each within its bound, the next one only once the one
      before is exhausted. */
  ghost predicate InOrder(policy: RetryPolicy, answers: nat -> Answer, candidates: seq<ProviderId>, tried: seq<Tried>) {
    tried == [] ||
    (&& candidates != [] && tried[0].provider == candidates[0] && 1 <= tried[0].calls <= policy.maxRetries + 1
     && (|tried| > 1 ==> Exhausted(policy, tried[0], answers))
     && InOrder(policy, answers, candidates[1..], tried[1..]))
  }

  lemma {:induction false} InOrderMeans(policy: RetryPolicy, answers: nat -> Answer, candidates: seq<ProviderId>, tried: seq<Tried>, i: nat)
    requires InOrder(policy, answers, candidates, tried) && i < |tried|
    ensures |tried| <= |candidates| && tried[i].provider == candidates[i] && 1 <= tried[i].calls <= policy.maxRetries + 1
    ensures i + 1 < |tried| ==> Exhausted(policy, tried[i], answers)
  {
    if i > 0 {
      InOrderMeans(policy, answers, candidates[1..], tried[1..], i - 1);
    } else if |tried| > 1 {
      InOrderMeans(policy, answers, candidates[1..], tried[1..], 0);
    }
  }

  lemma {:induction false} RouteInOrder(policy: RetryPolicy, answers: nat -> Answer, candidates: seq<ProviderId>, n: nat)
    ensures InOrder(policy, answers, candidates, Route(policy, answers, candidates, n))
  {
    if candidates != [] {
      var k := CallsTo(policy, answers, n, 0);
      RouteSplit(policy, answers, candidates, n);
      if answers(n + k - 1).result.Err? {
        RouteInOrder(policy, answers, candidates[1..], n + k);
        InOrderCons(policy, answers, candidates, Route(policy, answers, candidates, n));
      }
    }
  }

  /** A route begins with the first candidate, and goes on with the others if that one is exhausted. */
  lemma RouteSplit(policy: RetryPolicy, answers: nat -> Answer, candidates: seq<ProviderId>, n: nat)
    requires candidates != []
    ensures var whole, k := Route(policy, answers, candidates, n), CallsTo(policy, answers, n, 0);
      && whole != [] && whole[0] == Tried(candidates[0], n, k) && k <= policy.maxRetries + 1
      && (answers(n + k - 1).result.Ok? ==> |whole| == 1)
      && (answers(n + k - 1).result.Err? ==> Exhausted(policy, whole[0], answers))
      && (answers(n + k - 1).result.Err? ==> whole[1..] == Route(policy, answers, candidates[1..], n + k))
  {
    RunEnds(policy, answers, n, 0);
  }

  lemma InOrderCons(policy: RetryPolicy, answers: nat -> Answer, candidates: seq<ProviderId>, tried: seq<Tried>)
    requires candidates != [] && tried != [] && tried[0].provider == candidates[0]
    requires tried[0].calls <= policy.maxRetries + 1 && Exhausted(policy, tried[0], answers)
    requires InOrder(policy, answers, candidates[1..], tried[1..])
    ensures InOrder(policy, answers, candidates, tried)
  {
  }

  /** A route of `n` candidates ends with an answer, or with the last of them exhausted. */
  ghost predicate Ends(policy: RetryPolicy, answers: nat -> Answer, tried: seq<Tried>, n: nat) {
    tried != [] && (Outcome(tried, answers).Err? ==> |tried| == n && Exhausted(policy, tried[|tried| - 1], answers))
  }

  lemma {:induction false} RouteEnds(policy: RetryPolicy, answers: nat -> Answer, candidates: seq<ProviderId>, n: nat)
    requires candidates != []
    ensures Ends(policy, answers, Route(policy, answers, candidates, n), |candidates|)
  {
    var k := CallsTo(policy, answers, n, 0);
    RouteSplit(policy, answers, candidates, n);
    if answers(n + k - 1).result.Err? && |candidates| > 1 {
      RouteEnds(policy, answers, candidates[1..], n + k);
      EndsLater(policy, answers, Route(policy, answers, candidates, n), Route(policy, answers, candidates[1..], n + k), |candidates| - 1);
    } else {
      EndsAtOnce(policy, answers, Route(policy, answers, candidates, n), |candidates|);
    }
  }

  lemma EndsLater(policy: RetryPolicy, answers: nat -> Answer, whole: seq<Tried>, rest: seq<Tried>, n: nat)
    requires whole != [] && whole[1..] == rest && Ends(policy, answers, rest, n)
    ensures Ends(policy, answers, whole, n + 1)
  {
    assert whole[|whole| - 1] == rest[|rest| - 1];
  }

  lemma EndsAtOnce(policy: RetryPolicy, answers: nat -> Answer, whole: seq<Tried>, n: nat)
    requires |whole| == 1 && (answers(whole[0].Last()).result.Err? ==> n == 1 && Exhausted(policy, whole[0], answers))
    ensures Ends(policy, answers, whole, n)
  {
  }

  /** The candidates are tried in order from the first, each within its bound; the next one only once
      the one before is exhausted, and all of them unless one answers. */
  lemma RouteMeans(policy: RetryPolicy, answers: nat -> Answer, candidates: seq<ProviderId>, n: nat, i: nat)
    requires i < |Route(policy, answers, candidates, n)|
    ensures var tried := Route(policy, answers, candidates, n);
      && |tried| <= |candidates| && tried[i].provider == candidates[i] && 1 <= tried[i].calls <= policy.maxRetries + 1
      && (i + 1 < |tried| || Outcome(tried, answers).Err? ==> Exhausted(policy, tried[i], answers))
      && (Outcome(tried, answers).Err? ==> |tried| == |candidates|)
      && (i + 1 < |tried| || Outcome(tried, answers).Err? ==> GoodReason(policy, answers(tried[i].Last()).result, tried[i].calls))
  {
    RouteInOrder(policy, answers, candidates, n);
    InOrderMeans(policy, answers, candidates, Route(policy, answers, candidates, n), i);
    if candidates != [] {
      RouteEnds(policy, answers, candidates, n);
    }
  }

  /** Why a provider is given up: its last error is one that does not pass, or the retries are used up. */
  predicate GoodReason(policy: RetryPolicy, last: Result<Response, ProviderError>, calls: nat) {
    && last.Err?
    && (calls >= policy.maxRetries + 1 || last.error in {Authentication, ModelNotFound, InvalidResponse, ExecutionError})
  }

  lemma RouteTail(policy: RetryPolicy, answers: nat -> Answer, candidates: seq<ProviderId>, n: nat, k: nat)
    requires candidates != [] && k == CallsTo(policy, answers, n, 0) && answers(n + k - 1).result.Err?
    ensures Route(policy, answers, candidates, n)[1..] == Route(policy, answers, candidates[1..], n + k)
    ensures Route(policy, answers, candidates, n)[0] == Tried(candidates[0], n, k)
    ensures |candidates| > 1 ==>
      Outcome(Route(policy, answers, candidates, n), answers) == Outcome(Route(policy, answers, candidates[1..], n + k), answers)
  {
  }

  /** All in all no more calls are made than candidates times one more than the retries allowed. */
  lemma {:induction false} CallsAreBounded(policy: RetryPolicy, answers: nat -> Answer, candidates: seq<ProviderId>, n: nat)
    ensures n <= Made(Route(policy, answers, candidates, n), n) <= n + (policy.maxRetries + 1) * |candidates|
  {
    if candidates != [] {
      var k := CallsTo(policy, answers, n, 0);
      RunIsBounded(policy, answers, n, 0);
      TimesLess(policy.maxRetries + 1, |candidates|);
      if answers(n + k - 1).result.Err? {
        CallsAreBounded(policy, answers, candidates[1..], n + k);
      }
      MadeByRoute(policy, answers, candidates, n);
    }
  }

  lemma MadeByRoute(policy: RetryPolicy, answers: nat -> Answer, candidates: seq<ProviderId>, n: nat)
    requires candidates != []
    ensures var k := CallsTo(policy, answers, n, 0);
      Made(Route(policy, answers, candidates, n), n)
      == if answers(n + k - 1).result.Ok? then n + k else Made(Route(policy, answers, candidates[1..], n + k), n + k)
  {
    var k := CallsTo(policy, answers, n, 0);
    if answers(n + k - 1).result.Err? {
      RouteTail(policy, answers, candidates, n, k);
    }
  }

  lemma TimesLess(a: nat, b: nat)
    requires b > 0
    ensures a * b == a + a * (b - 1) && a * (b - 1) >= 0
  {
  }

  /** The number of the call after all these. */
  function Made(tried: seq<Tried>, n: nat): nat {
    if tried == [] then n else Made(tried[1..], n + tried[0].calls)
  }

  /** One failover is recorded between each provider that was exhausted and the next one tried. */
  lemma {:induction false} LinksMean(tried: seq<Tried>, answers: nat -> Answer)
    requires forall i :: 0 <= i < |tried| - 1 ==> answers(tried[i].Last()).result.Err?
    ensures var links := Links(tried, answers);
      && |links| == (if tried == [] then 0 else |tried| - 1)
      && (forall i :: 0 <= i < |links| ==>
            links[i] == Decision(tried[i].provider, tried[i + 1].provider, answers(tried[i].Last()).result.error))
  {
    if |tried| > 1 {
      LinksMean(tried[..|tried| - 1], answers);
    }
  }

  lemma {:induction false} SuitableMeans(providers: seq<ProviderDescriptor>, privacy: PrivacyPolicy, need: CapabilityRequirement, p: ProviderId)
    ensures p in Suitable(providers, privacy, need) <==> exists d :: d in providers && d.id == p && d.Satisfies(privacy, need)
  {
    if providers != [] {
      var n := |providers| - 1;
      SuitableMeans(providers[..n], privacy, need, p);
      assert providers == providers[..n] + [providers[n]];
    }
  }

  /** Some entry offers `p` and finds it healthy when its turn comes. */
  ghost predicate Offered(suitable: seq<ProviderId>, breaker: Breaker, history: map<ProviderId, seq<HealthEvent>>, clock: Clock, p: ProviderId) {
    exists k: nat :: k < |suitable| && suitable[k] == p && Passes(breaker.Fold(EventsIn(history, p)), clock(k))
  }

  lemma OfferedOneMore(suitable: seq<ProviderId>, breaker: Breaker, history: map<ProviderId, seq<HealthEvent>>, clock: Clock, p: ProviderId)
    requires suitable != []
    ensures var n := |suitable| - 1;
      Offered(suitable, breaker, history, clock, p) <==>
        Offered(suitable[..n], breaker, history, clock, p) || (suitable[n] == p && Passes(breaker.Fold(EventsIn(history, p)), clock(n)))
  {
    var n := |suitable| - 1;
    if k: nat :| k < n && suitable[..n][k] == p && Passes(breaker.Fold(EventsIn(history, p)), clock(k)) {
      assert suitable[k] == p;
    }
    if k: nat :| k < |suitable| && suitable[k] == p && Passes(breaker.Fold(EventsIn(history, p)), clock(k)) {
      assert k < n ==> suitable[..n][k] == p;
    }
  }

  lemma LastPasses(suitable: seq<ProviderId>, breaker: Breaker, history: map<ProviderId, seq<HealthEvent>>, clock: Clock)
    requires suitable != [] && Forward(clock)
    ensures var n := |suitable| - 1;
      Passing(suitable, breaker, history, clock)
      == Passing(suitable[..n], breaker, history, clock)
         + if Passes(breaker.Fold(EventsIn(history, suitable[n])), clock(n)) then [suitable[n]] else []
  {
    var n := |suitable| - 1;
    ChecksChangeNothing(breaker, EventsIn(history, suitable[n]), suitable[n], suitable[..n], clock, clock(n));
  }

  lemma {:induction false} PassingMeans(suitable: seq<ProviderId>, breaker: Breaker, history: map<ProviderId, seq<HealthEvent>>,
                                        clock: Clock, p: ProviderId)
    requires Forward(clock)
    ensures p in Passing(suitable, breaker, history, clock) <==> Offered(suitable, breaker, history, clock, p)
  {
    if suitable != [] {
      PassingMeans(suitable[..|suitable| - 1], breaker, history, clock, p);
      LastPasses(suitable, breaker, history, clock);
      OfferedOneMore(suitable, breaker, history, clock, p);
    }
  }

  /** A provider is a candidate exactly when some entry of the list offers it under the privacy policy
      with the required capabilities and its breaker lets calls through when that entry's turn comes; and
      a longer list only adds candidates at the end. */
  lemma CandidatesMean(providers: seq<ProviderDescriptor>, d: ProviderDescriptor, privacy: PrivacyPolicy, need: CapabilityRequirement,
                       breaker: Breaker, history: map<ProviderId, seq<HealthEvent>>, clock: Clock, p: ProviderId)
    requires Forward(clock)
    ensures var suitable := Suitable(providers, privacy, need);
      && (p in suitable <==> exists e :: e in providers && e.id == p && MaySee(privacy, e) && CanServe(need, e))
      && (p in Passing(suitable, breaker, history, clock) <==>
            exists k: nat :: k < |suitable| && suitable[k] == p && Passes(breaker.Fold(EventsIn(history, p)), clock(k)))
    ensures var suitable := Suitable(providers, privacy, need);
      Passing(Suitable(providers + [d], privacy, need), breaker, history, clock)
      == Passing(suitable, breaker, history, clock)
         + if d.Satisfies(privacy, need) && Passes(breaker.Fold(EventsIn(history, d.id)), clock(|suitable|)) then [d.id] else []
  {
    var suitable := Suitable(providers, privacy, need);
    SuitableMeans(providers, privacy, need, p);
    PassingMeans(suitable, breaker, history, clock, p);
    assert Offered(suitable, breaker, history, clock, p) <==> p in Passing(suitable, breaker, history, clock);
    OneProviderMore(providers, d, privacy, need, breaker, history, clock);
  }

  /** The tracker hears of every call, in order, how it went. */
  lemma {:induction false} EveryCallIsHeard(answers: nat -> Answer, start: nat, calls: nat)
    ensures var heard := EventsFrom(answers, start, calls);
      |heard| == calls && forall k :: 0 <= k < calls ==>
        heard[k] == match answers(start + k).result case Ok(_) => Worked case Err(e) => FailedCall(e, answers(start + k).at)
  {
    if calls > 0 {
      EveryCallIsHeard(answers, start, calls - 1);
    }
  }

  lemma {:induction false} FailuresTrail(before: seq<HealthEvent>, answers: nat -> Answer, start: nat, calls: nat)
    requires forall n: nat :: start <= n < start + calls ==> answers(n).result.Err?
    ensures TrailingFailures(before + EventsFrom(answers, start, calls)) == TrailingFailures(before) + calls
  {
    if calls == 0 {
      assert before + [] == before;
    } else {
      FailuresTrail(before, answers, start, calls - 1);
      var rest, last := EventsFrom(answers, start, calls - 1), EventOf(answers(start + calls - 1));
      assert before + (rest + [last]) == (before + rest) + [last];
      assert ((before + rest) + [last])[..|before + rest|] == before + rest;
    }
  }

  /** A provider that failed as often in a row as the breaker allows is not a candidate again before the cooldown after
      its last failure is over, and is one then. */
  lemma FailingTripsTheBreaker(breaker: Breaker, before: seq<HealthEvent>, answers: nat -> Answer, start: nat, calls: nat, now: Timestamp)
    requires calls >= 1 && forall n: nat :: start <= n < start + calls ==> answers(n).result.Err?
    requires Unprompted(answers(start + calls - 1)) && TrailingFailures(before) + calls >= breaker.threshold
    requires ClockRuns(before + EventsFrom(answers, start, calls), now)
    ensures Passes(breaker.Fold(before + EventsFrom(answers, start, calls)), now)
       <==> now >= answers(start + calls - 1).at + breaker.cooldown
  {
    var heard := before + EventsFrom(answers, start, calls);
    FailuresTrail(before, answers, start, calls);
    EveryCallIsHeard(answers, start, calls);
    RefusedExactlyWhileDown(breaker, heard, now);
    assert heard[|heard| - 1] == EventsFrom(answers, start, calls)[calls - 1];
  }

  /** What each privacy policy lets see a request. */
  predicate MaySee(privacy: PrivacyPolicy, e: ProviderDescriptor) {
    && (privacy == LocalOnly ==> e.isLocal)
    && (privacy.AllowedProviders? ==> e.id in privacy.ids)
  }

  predicate CanServe(need: CapabilityRequirement, e: ProviderDescriptor) {
    && need.minReasoningTier <= e.reasoningTier
    && (e.supportsTools || !need.requiresTools)
  }

  /** No request leaves its privacy policy, and none goes where it cannot be served: whatever fails and however
      often, each provider that is called has an entry in the list that may see the request and can serve it. */
  lemma TriedMaySee(policy: RetryPolicy, answers: nat -> Answer, providers: seq<ProviderDescriptor>, privacy: PrivacyPolicy,
                    need: CapabilityRequirement, breaker: Breaker, history: map<ProviderId, seq<HealthEvent>>, clock: Clock, i: nat)
    requires i < |Route(policy, answers, Passing(Suitable(providers, privacy, need), breaker, history, clock), 0)|
    ensures var tried := Route(policy, answers, Passing(Suitable(providers, privacy, need), breaker, history, clock), 0);
      exists e :: e in providers && e.id == tried[i].provider && MaySee(privacy, e) && CanServe(need, e)
  {
    var candidates := Passing(Suitable(providers, privacy, need), breaker, history, clock);
    RouteMeans(policy, answers, candidates, 0, i);
    PassingIsSuitable(Suitable(providers, privacy, need), breaker, history, clock, candidates[i]);
    SuitableMeans(providers, privacy, need, candidates[i]);
  }

  lemma {:induction false} PassingIsSuitable(suitable: seq<ProviderId>, breaker: Breaker, history: map<ProviderId, seq<HealthEvent>>,
                                             clock: Clock, p: ProviderId)
    requires p in Passing(suitable, breaker, history, clock)
    ensures p in suitable
  {
    var n := |suitable| - 1;
    if p != suitable[n] {
      PassingIsSuitable(suitable[..n], breaker, history, clock, p);
    }
  }

  lemma OneProviderMore(providers: seq<ProviderDescriptor>, d: ProviderDescriptor, privacy: PrivacyPolicy, need: CapabilityRequirement,
                        breaker: Breaker, history: map<ProviderId, seq<HealthEvent>>, clock: Clock)
    requires Forward(clock)
    ensures var suitable := Suitable(providers, privacy, need);
      Passing(Suitable(providers + [d], privacy, need), breaker, history, clock)
      == Passing(suitable, breaker, history, clock)
         + if d.Satisfies(privacy, need) && Passes(breaker.Fold(EventsIn(history, d.id)), clock(|suitable|)) then [d.id] else []
  {
    var suitable := Suitable(providers, privacy, need);
    SuitableUnfolds(providers, d, privacy, need);
    if d.Satisfies(privacy, need) {
      PassingLater(suitable, breaker, history, clock, d.id);
    }
  }

  lemma SuitableUnfolds(providers: seq<ProviderDescriptor>, d: ProviderDescriptor, privacy: PrivacyPolicy, need: CapabilityRequirement)
    ensures Suitable(providers + [d], privacy, need)
         == if d.Satisfies(privacy, need) then Suitable(providers, privacy, need) + [d.id] else Suitable(providers, privacy, need)
  {
    assert (providers + [d])[..|providers|] == providers;
  }

  lemma PassingLater(suitable: seq<ProviderId>, breaker: Breaker, history: map<ProviderId, seq<HealthEvent>>, clock: Clock, p: ProviderId)
    requires Forward(clock)
    ensures Passing(suitable + [p], breaker, history, clock)
         == Passing(suitable, breaker, history, clock)
            + if Passes(breaker.Fold(EventsIn(history, p)), clock(|suitable|)) then [p] else []
  {
    assert (suitable + [p])[..|suitable|] == suitable;
    LastPasses(suitable + [p], breaker, history, clock);
  }
}
