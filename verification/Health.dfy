/** Provider health and its circuit breaker. */
module Health {
  import opened Results
  import opened Reliability

  datatype ProviderId = ProviderId(name: string)

  datatype HealthStatus = Healthy | Degraded(failures: nat) | Down(until: Timestamp)

  datatype HealthEntry = HealthEntry(status: HealthStatus, consecutive: nat, successes: nat, failures: nat)

  const NEW_ENTRY := HealthEntry(Healthy, 0, 0, 0)

  /** What happens to a provider: a call that worked, a call that failed, a check before a call. */
  datatype HealthEvent = Worked | FailedCall(error: ProviderError, at: Timestamp) | Checked(at: Timestamp)

  datatype Breaker = Breaker(threshold: nat, cooldown: nat)
  {
    /** Until when a failure keeps the provider down, if it does: a Retry-After wins over the breaker. */
    function DownAfter(consecutive: nat, error: ProviderError, at: Timestamp): Option<Timestamp> {
      if error.RetryAfter().Some? then Some(at + error.RetryAfter().value)
      else if consecutive >= threshold then Some(at + cooldown)
      else None
    }

    function Step(entry: HealthEntry, event: HealthEvent): HealthEntry {
      match event
      case Worked => HealthEntry(Healthy, 0, entry.successes + 1, entry.failures)
      case FailedCall(error, at) =>
        var n := entry.consecutive + 1;
        var down := DownAfter(n, error, at);
        HealthEntry(if down.Some? then Down(down.value) else Degraded(n), n, entry.successes, entry.failures + 1)
      case Checked(at) =>
        if entry.status.Down? && at >= entry.status.until then entry.(status := Degraded(entry.consecutive)) else entry
    }

    /** The entry a provider has after a history. */
    function Fold(events: seq<HealthEvent>): HealthEntry {
      if events == [] then NEW_ENTRY else Step(Fold(events[..|events| - 1]), events[|events| - 1])
    }
  }

  /** Whether a check at `now` lets calls through. */
  predicate Passes(entry: HealthEntry, now: Timestamp) {
    entry.status.Down? ==> now >= entry.status.until
  }

  function EventsIn(history: map<ProviderId, seq<HealthEvent>>, p: ProviderId): seq<HealthEvent> {
    if p in history then history[p] else []
  }

  class ProviderHealthTracker {
    var entries: map<ProviderId, HealthEntry>
    const breaker: Breaker
    ghost var history: map<ProviderId, seq<HealthEvent>>

    ghost predicate Valid()
      reads this
    {
      forall p :: Entry(p) == breaker.Fold(HistoryOf(p))
    }

    ghost function HistoryOf(p: ProviderId): seq<HealthEvent>
      reads this
    {
      EventsIn(history, p)
    }

    function Entry(p: ProviderId): HealthEntry
      reads this
    {
      if p in entries then entries[p] else NEW_ENTRY
    }

    constructor (breaker: Breaker)
      ensures Valid() && this.breaker == breaker && history == map[]
    {
      this.entries, this.breaker, this.history := map[], breaker, map[];
    }

    /** Replaces an entry by what one more event makes of it. */
    method Note(p: ProviderId, event: HealthEvent)
      requires Valid()
      modifies this
      ensures Valid() && history == old(history)[p := old(HistoryOf(p)) + [event]]
    {
      ghost var was := HistoryOf(p);
      entries := entries[p := breaker.Step(Entry(p), event)];
      history := history[p := was + [event]];
      assert (was + [event])[..|was|] == was;
      forall q ensures Entry(q) == breaker.Fold(HistoryOf(q)) {
        assert old(Entry(q)) == breaker.Fold(old(HistoryOf(q)));
      }
    }

    method RecordSuccess(p: ProviderId)
      requires Valid()
      modifies this
      ensures Valid() && history == old(history)[p := old(HistoryOf(p)) + [Worked]]
      ensures Entry(p).status == Healthy && Entry(p).consecutive == 0
    {
      Note(p, Worked);
      ghost var h := old(HistoryOf(p));
      assert (h + [Worked])[..|h|] == h;
    }

    method RecordFailure(p: ProviderId, error: ProviderError, now: Timestamp)
      requires Valid()
      modifies this
      ensures Valid() && history == old(history)[p := old(HistoryOf(p)) + [FailedCall(error, now)]]
    {
      Note(p, FailedCall(error, now));
    }

    /** Whether the provider may be called; an expired cooldown lets a probe through. */
    method IsAvailable(p: ProviderId, now: Timestamp) returns (ok: bool)
      requires Valid()
      modifies this
      ensures Valid() && history == old(history)[p := old(HistoryOf(p)) + [Checked(now)]]
      ensures ok == Passes(breaker.Fold(old(HistoryOf(p))), now)
      ensures ok <==> !Entry(p).status.Down?
      ensures Entry(p).consecutive == old(Entry(p)).consecutive
      ensures ok && old(Entry(p)).status.Down? ==> Entry(p).status == Degraded(old(Entry(p)).consecutive)
      ensures !ok || !old(Entry(p)).status.Down? ==> Entry(p) == old(Entry(p))
    {
      ok := Passes(Entry(p), now);
      Note(p, Checked(now));
    }
  }

  // ----- what an entry says about the history -----

  /** The failed calls since the last one that worked; checks do not count. */
  function TrailingFailures(events: seq<HealthEvent>): nat {
    if events == [] then 0
    else
      var before := events[..|events| - 1];
      match events[|events| - 1]
      case Worked => 0
      case FailedCall(_, _) => TrailingFailures(before) + 1
      case Checked(_) => TrailingFailures(before)
  }

  lemma {:induction false} ConsecutiveIsTrailing(breaker: Breaker, events: seq<HealthEvent>)
    ensures breaker.Fold(events).consecutive == TrailingFailures(events)
    ensures breaker.Fold(events).status == Healthy <==> TrailingFailures(events) == 0
  {
    if events != [] {
      ConsecutiveIsTrailing(breaker, events[..|events| - 1]);
    }
  }

  function CountCalls(events: seq<HealthEvent>, worked: bool): nat {
    if events == [] then 0
    else
      CountCalls(events[..|events| - 1], worked)
      + if events[|events| - 1].Checked? || events[|events| - 1].Worked? != worked then 0 else 1
  }

  /** An entry counts the calls that worked and those that failed; checks do not count. */
  lemma {:induction false} EntryCountsCalls(breaker: Breaker, events: seq<HealthEvent>)
    ensures breaker.Fold(events).successes == CountCalls(events, true)
    ensures breaker.Fold(events).failures == CountCalls(events, false)
  {
    if events != [] {
      EntryCountsCalls(breaker, events[..|events| - 1]);
    }
  }

  function TimeOf(e: HealthEvent): Option<Timestamp> {
    match e
    case Worked => None
    case FailedCall(_, at) => Some(at)
    case Checked(at) => Some(at)
  }

  ghost predicate ClockRuns(events: seq<HealthEvent>, now: Timestamp) {
    forall e :: e in events && TimeOf(e).Some? ==> TimeOf(e).value <= now
  }

  /** Until when the latest call keeps the provider down, whatever was checked since. */
  function DownUntil(breaker: Breaker, events: seq<HealthEvent>): Option<Timestamp> {
    if events == [] then None
    else
      match events[|events| - 1]
      case Worked => None
      case FailedCall(RateLimited(Some(secs)), at) => Some(at + secs * 1000)
      case FailedCall(_, at) => if TrailingFailures(events) >= breaker.threshold then Some(at + breaker.cooldown) else None
      case Checked(_) => DownUntil(breaker, events[..|events| - 1])
  }

  /** A provider is refused exactly while its latest call failed and keeps it down: by its own
      Retry-After, or by completing a row of failures as long as the threshold. Checks made meanwhile,
      refused or let through, change nothing. */
  lemma {:induction false} RefusedExactlyWhileDown(breaker: Breaker, events: seq<HealthEvent>, now: Timestamp)
    requires ClockRuns(events, now)
    ensures Passes(breaker.Fold(events), now) <==> (DownUntil(breaker, events) == None || now >= DownUntil(breaker, events).value)
    ensures breaker.Fold(events).status.Down? ==> DownUntil(breaker, events) == Some(breaker.Fold(events).status.until)
  {
    if events != [] {
      var before, last := events[..|events| - 1], events[|events| - 1];
      assert last in events && forall e :: e in before ==> e in events;
      RefusedExactlyWhileDown(breaker, before, now);
      ConsecutiveIsTrailing(breaker, before);
    }
  }
}
