/** The event feed of one client: a replay of what it missed, then the live broadcast, merged by
    sequence number. */
module EventStream {
  import opened Results

  /** Sequence numbers are the row numbers of the event table. */
  datatype Event = Event(sequence: nat, payload: string)

  const REPLAY_LIMIT := 1000

  ghost predicate Ascending(log: seq<Event>) {
    forall i, j :: 0 <= i < j < |log| ==> log[i].sequence < log[j].sequence
  }

  /** The events of a stretch of the log that lie past a cursor, in order. */
  function After(log: seq<Event>, lo: nat, hi: nat, cursor: nat): seq<Event>
    requires hi <= |log|
  {
    if lo >= hi then []
    else After(log, lo, hi - 1, cursor) + if log[hi - 1].sequence > cursor then [log[hi - 1]] else []
  }

  function First(k: nat, s: seq<Event>): seq<Event> {
    if |s| <= k then s else s[..k]
  }

  /** How many events the replay may deliver; without a cursor, or when the store fails, none. */
  function Allowance(cursor: nat, storeWorks: bool): nat {
    if cursor > 0 && storeWorks then REPLAY_LIMIT else 0
  }

  /** The cursor after a delivery. */
  function LastSeen(cursor: nat, delivered: seq<Event>): nat {
    if delivered == [] then cursor else delivered[|delivered| - 1].sequence
  }

  // ----- an ascending log cut at a cursor -----

  /** The first `p` events lie at or before the cursor, the others after it. */
  ghost predicate CutAt(log: seq<Event>, cursor: nat, p: nat) {
    && p <= |log|
    && (forall i :: 0 <= i < p ==> log[i].sequence <= cursor)
    && (forall i :: p <= i < |log| ==> log[i].sequence > cursor)
  }

  lemma CutPoint(log: seq<Event>, cursor: nat) returns (p: nat)
    requires Ascending(log)
    ensures CutAt(log, cursor, p)
  {
    p := |log|;
    while p > 0 && log[p - 1].sequence > cursor
      invariant p <= |log| && forall i :: p <= i < |log| ==> log[i].sequence > cursor
    {
      p := p - 1;
    }
  }

  /** A stretch of the log, whole. */
  function Stretch(log: seq<Event>, a: nat, b: nat): (s: seq<Event>)
    requires b <= |log|
    ensures |s| == if a < b then b - a else 0
    ensures forall i :: 0 <= i < |s| ==> s[i] == log[a + i]
  {
    if a >= b then [] else Stretch(log, a, b - 1) + [log[b - 1]]
  }

  lemma {:induction false} StretchesJoin(log: seq<Event>, a: nat, b: nat, c: nat)
    requires a <= b <= c <= |log|
    ensures Stretch(log, a, b) + Stretch(log, b, c) == Stretch(log, a, c)
  {
    if b < c {
      StretchesJoin(log, a, b, c - 1);
    }
  }

  lemma FirstOfStretch(log: seq<Event>, k: nat, a: nat, b: nat)
    requires b <= |log|
    ensures First(k, Stretch(log, a, b)) == Stretch(log, a, if a + k < b then a + k else b)
  {
  }

  lemma {:induction false} AfterIsStretch(log: seq<Event>, cursor: nat, p: nat, lo: nat, hi: nat)
    requires CutAt(log, cursor, p) && hi <= |log|
    ensures After(log, lo, hi, cursor) == Stretch(log, Max(p, lo), hi)
  {
    if lo < hi {
      AfterIsStretch(log, cursor, p, lo, hi - 1);
    }
  }

  lemma AfterIsSlice(log: seq<Event>, cursor: nat, p: nat)
    requires CutAt(log, cursor, p)
    ensures After(log, 0, |log|, cursor) == log[p..]
  {
    AfterIsStretch(log, cursor, p, 0, |log|);
  }

  /** Having delivered a stretch that starts at the cut, the cursor cuts where the stretch ends. */
  lemma CutMoves(log: seq<Event>, cursor: nat, p: nat, q: nat)
    requires Ascending(log) && CutAt(log, cursor, p) && q <= |log|
    ensures CutAt(log, LastSeen(cursor, Stretch(log, p, q)), Max(p, q))
  {
  }

  // ----- the merge -----

  /** What the client gets: the missed events up to the limit, then everything since the subscription. */
  function Delivered(log: seq<Event>, cursor: nat, k: nat, subscribed: nat, end: nat): seq<Event>
    requires subscribed <= |log| && end <= |log|
  {
    First(k, After(log, 0, subscribed, cursor)) + After(log, subscribed, end, cursor)
  }

  lemma DeliveredIsStretches(log: seq<Event>, cursor: nat, k: nat, p: nat, subscribed: nat, end: nat)
    requires CutAt(log, cursor, p) && subscribed <= |log| && end <= |log|
    ensures Delivered(log, cursor, k, subscribed, end) == Stretch(log, p, Min(p + k, subscribed)) + Stretch(log, Max(p, subscribed), end)
  {
    AfterIsStretch(log, cursor, p, 0, subscribed);
    AfterIsStretch(log, cursor, p, subscribed, end);
    FirstOfStretch(log, k, p, subscribed);
  }

  /** The feed as it is put together: the replay query sees more than the subscription left behind, and
      the live events are filtered by the last one replayed. */
  function Merged(log: seq<Event>, cursor: nat, k: nat, subscribed: nat, replayed: nat, received: nat): seq<Event>
    requires replayed <= |log| && received <= |log|
  {
    var missed := First(k, After(log, 0, replayed, cursor));
    missed + After(log, subscribed, received, LastSeen(cursor, missed))
  }

  lemma MergedIsStretches(log: seq<Event>, cursor: nat, k: nat, p: nat, subscribed: nat, replayed: nat, received: nat)
    requires Ascending(log) && CutAt(log, cursor, p) && replayed <= |log| && received <= |log|
    ensures Merged(log, cursor, k, subscribed, replayed, received)
         == Stretch(log, p, Min(p + k, replayed)) + Stretch(log, Max(Max(p, Min(p + k, replayed)), subscribed), received)
  {
    var q := Min(p + k, replayed);
    AfterIsStretch(log, cursor, p, 0, replayed);
    FirstOfStretch(log, k, p, replayed);
    CutMoves(log, cursor, p, q);
    AfterIsStretch(log, LastSeen(cursor, Stretch(log, p, q)), Max(p, q), subscribed, received);
  }

  /** How far the feed reaches: to the last live event received, or to the last one replayed. */
  lemma MergeIsOneCut(log: seq<Event>, cursor: nat, k: nat, subscribed: nat, replayed: nat, received: nat) returns (end: nat)
    requires Ascending(log) && subscribed <= replayed <= |log| && subscribed <= received <= |log|
    ensures received <= end <= |log| && (replayed <= received ==> end == received)
    ensures Merged(log, cursor, k, subscribed, replayed, received) == Delivered(log, cursor, k, subscribed, end)
  {
    var p := CutPoint(log, cursor);
    var q := Min(p + k, replayed);
    end := if p < q then Max(received, q) else received;
    MergedIsStretches(log, cursor, k, p, subscribed, replayed, received);
    DeliveredIsStretches(log, cursor, k, p, subscribed, end);
    StretchesMeet(log, p, k, subscribed, replayed, received, end);
  }

  lemma StretchesMeet(log: seq<Event>, p: nat, k: nat, subscribed: nat, replayed: nat, received: nat, end: nat)
    requires p <= |log| && subscribed <= replayed <= |log| && subscribed <= received <= |log|
    requires end == if p < Min(p + k, replayed) then Max(received, Min(p + k, replayed)) else received
    ensures Stretch(log, p, Min(p + k, replayed)) + Stretch(log, Max(Max(p, Min(p + k, replayed)), subscribed), received)
         == Stretch(log, p, Min(p + k, subscribed)) + Stretch(log, Max(p, subscribed), end)
  {
    var q := Min(p + k, replayed);
    if p < q && subscribed < q {
      if q <= received {
        StretchesJoin(log, p, q, received);
      }
      if p <= subscribed {
        StretchesJoin(log, p, subscribed, end);
      }
    }
  }

  // ----- the stream -----

  /** Replays missed events from the event table, which holds the first `rows` of the log. */
  method Replay(log: seq<Event>, rows: nat, cursor: nat, storeWorks: bool) returns (out: seq<Event>, lastSeen: nat)
    requires Ascending(log) && rows <= |log|
    ensures out == First(Allowance(cursor, storeWorks), After(log, 0, rows, cursor)) && lastSeen == LastSeen(cursor, out)
  {
    lastSeen, out := cursor, [];
    if lastSeen > 0 && storeWorks {
      var missed := ListEventsAfter(log, rows, lastSeen, REPLAY_LIMIT);
      MissedAscend(log, rows, cursor, REPLAY_LIMIT);
      for i := 0 to |missed|
        invariant out == missed[..i] && lastSeen == LastSeen(cursor, missed[..i])
      {
        if missed[i].sequence > lastSeen {
          lastSeen := missed[i].sequence;
        }
        out := out + [missed[i]];
      }
    }
  }

  function ListEventsAfter(log: seq<Event>, rows: nat, cursor: nat, limit: nat): seq<Event>
    requires rows <= |log|
  {
    First(limit, After(log, 0, rows, cursor))
  }

  lemma MissedAscend(log: seq<Event>, rows: nat, cursor: nat, limit: nat)
    requires Ascending(log) && rows <= |log|
    ensures var missed := ListEventsAfter(log, rows, cursor, limit);
      Ascending(missed) && forall i :: 0 <= i < |missed| ==> missed[i].sequence > cursor
  {
    var p := CutPoint(log, cursor);
    AfterIsStretch(log, cursor, p, 0, rows);
    FirstOfStretch(log, limit, p, rows);
  }

  /** Passes on the live events of a stretch of the log, dropping what the client already has. */
  method Live(log: seq<Event>, subscribed: nat, received: nat, seen: nat) returns (out: seq<Event>)
    requires Ascending(log) && subscribed <= received <= |log|
    ensures out == After(log, subscribed, received, seen)
  {
    var lastSeen := seen;
    out := [];
    for i := subscribed to received
      invariant lastSeen == seen || (i > subscribed && seen <= lastSeen <= log[i - 1].sequence)
      invariant out == After(log, subscribed, i, seen)
    {
      if log[i].sequence > lastSeen {
        lastSeen := log[i].sequence;
        out := out + [log[i]];
      }
    }
  }

  /** Streams events past the client's cursor. The log is what the event table finally holds; at the
      moment of subscription it held `subscribed` events, at the replay query `replayed`, and the live
      channel delivers the events up to `received` before it closes or falls behind. */
  method StreamEvents(after: Option<nat>, lastEventId: Option<nat>, log: seq<Event>,
                      subscribed: nat, replayed: nat, received: nat, storeWorks: bool)
    returns (out: seq<Event>)
    requires Ascending(log) && subscribed <= replayed <= |log| && subscribed <= received <= |log|
    ensures var cursor := Cursor(after, lastEventId);
      exists end :: received <= end <= |log| && (replayed <= received ==> end == received)
        && out == Delivered(log, cursor, Allowance(cursor, storeWorks), subscribed, end)
  {
    var cursor := Cursor(after, lastEventId);
    var missed, lastSeen := Replay(log, replayed, cursor, storeWorks);
    var live := Live(log, subscribed, received, lastSeen);
    var end := MergeIsOneCut(log, cursor, Allowance(cursor, storeWorks), subscribed, replayed, received);
    out := missed + live;
  }

  /** The cursor of a request: the query parameter, else the reconnect header, else none. */
  function Cursor(after: Option<nat>, lastEventId: Option<nat>): nat {
    if after.Some? then after.value else if lastEventId.Some? then lastEventId.value else 0
  }

  // ----- what the client can rely on -----

  /** The feed is complete exactly when no more events were missed before subscribing than the replay
      may deliver: a thousand with a cursor, none without. What arrives between subscription and replay
      does not count against the limit. */
  lemma CompleteIffFewMissed(log: seq<Event>, cursor: nat, k: nat, subscribed: nat, end: nat)
    requires Ascending(log) && subscribed <= end <= |log|
    ensures Delivered(log, cursor, k, subscribed, end) == After(log, 0, end, cursor)
       <==> |After(log, 0, subscribed, cursor)| <= k
  {
    var p := CutPoint(log, cursor);
    DeliveredIsStretches(log, cursor, k, p, subscribed, end);
    AfterIsStretch(log, cursor, p, 0, subscribed);
    AfterIsStretch(log, cursor, p, 0, end);
    StretchesCover(log, p, k, subscribed, end);
  }

  lemma StretchesCover(log: seq<Event>, p: nat, k: nat, subscribed: nat, end: nat)
    requires p <= |log| && subscribed <= end <= |log|
    ensures Stretch(log, p, Min(p + k, subscribed)) + Stretch(log, Max(p, subscribed), end) == Stretch(log, p, end)
       <==> subscribed <= p + k
  {
    if p + k < subscribed {
      assert |Stretch(log, p, p + k)| + |Stretch(log, subscribed, end)| < |Stretch(log, p, end)|;
    } else if p <= subscribed {
      StretchesJoin(log, p, subscribed, end);
    }
  }

  /** A log of `n` events numbered from 1. */
  function Numbered(n: nat): (log: seq<Event>)
    ensures |log| == n && Ascending(log)
  {
    seq(n, i requires 0 <= i < n => Event(i + 1, ""))
  }

  /** A feed with a gap: one event, logged before a client without a cursor subscribed. */
  lemma MissedWithoutCursor()
    ensures After(Numbered(1), 0, 1, Cursor(None, None)) == Numbered(1)
    ensures Delivered(Numbered(1), Cursor(None, None), Allowance(Cursor(None, None), true), 1, 1) == []
  {
    assert After(Numbered(1), 1, 1, 0) == [];
  }

  /** Feeds with a gap: the client has seen the first of more than 1001 events, and gets no more than the
      next thousand of those logged before it subscribed. */
  lemma MissedTooMany(n: nat)
    requires n > 1001
    ensures After(Numbered(n), 0, n, Cursor(Some(1), None)) == Numbered(n)[1..]
    ensures Delivered(Numbered(n), Cursor(Some(1), None), Allowance(Cursor(Some(1), None), true), n, n) == Numbered(n)[1..1001]
  {
    var log := Numbered(n);
    assert CutAt(log, 1, 1);
    AfterIsSlice(log, 1, 1);
    assert After(log, n, n, 1) == [];
    assert First(REPLAY_LIMIT, log[1..]) == log[1..REPLAY_LIMIT + 1];
  }

  /** Complete or not, nothing is delivered twice, out of order, or from before the cursor. */
  lemma NothingTwice(log: seq<Event>, cursor: nat, k: nat, subscribed: nat, end: nat)
    requires Ascending(log) && subscribed <= end <= |log|
    ensures var out := Delivered(log, cursor, k, subscribed, end);
      Ascending(out) && forall i :: 0 <= i < |out| ==> out[i] in log && out[i].sequence > cursor
  {
    var p := CutPoint(log, cursor);
    DeliveredIsStretches(log, cursor, k, p, subscribed, end);
  }

  /** Two sessions in a row make one feed when the second resumes from the last event of the first, named by the
      reconnect header or by the query parameter; the parameter wins over a header. */
  lemma ResumedSessions(log: seq<Event>, after: Option<nat>, header: Option<nat>, subscribed: nat, end: nat, subscribed': nat, end': nat)
    requires Ascending(log) && subscribed <= end <= subscribed' <= end' <= |log|
    requires var cursor := Cursor(after, header);
      && |After(log, 0, subscribed, cursor)| <= Allowance(cursor, true)
      && var seen := LastSeen(cursor, After(log, 0, end, cursor));
      |After(log, 0, subscribed', seen)| <= Allowance(seen, true)
    ensures var cursor := Cursor(after, header);
      var first := Delivered(log, cursor, Allowance(cursor, true), subscribed, end);
      var seen := LastSeen(cursor, first);
      forall again, stale :: (again == None && stale == Some(seen)) || again == Some(seen) ==>
        first + Delivered(log, Cursor(again, stale), Allowance(Cursor(again, stale), true), subscribed', end') == After(log, 0, end', cursor)
  {
    SessionsJoin(log, Cursor(after, header), subscribed, end, subscribed', end');
  }

  lemma SessionsJoin(log: seq<Event>, cursor: nat, subscribed: nat, end: nat, subscribed': nat, end': nat)
    requires Ascending(log) && subscribed <= end <= subscribed' <= end' <= |log|
    requires |After(log, 0, subscribed, cursor)| <= Allowance(cursor, true)
    requires var seen := LastSeen(cursor, After(log, 0, end, cursor));
      |After(log, 0, subscribed', seen)| <= Allowance(seen, true)
    ensures var first := Delivered(log, cursor, Allowance(cursor, true), subscribed, end);
      var seen := LastSeen(cursor, first);
      first + Delivered(log, seen, Allowance(seen, true), subscribed', end') == After(log, 0, end', cursor)
  {
    CompleteIffFewMissed(log, cursor, Allowance(cursor, true), subscribed, end);
    var seen := LastSeen(cursor, After(log, 0, end, cursor));
    CompleteIffFewMissed(log, seen, Allowance(seen, true), subscribed', end');
    AfterAgain(log, cursor, end, end');
  }

  lemma AfterAgain(log: seq<Event>, cursor: nat, end: nat, end': nat)
    requires Ascending(log) && end <= end' <= |log|
    ensures var first := After(log, 0, end, cursor);
      first + After(log, 0, end', LastSeen(cursor, first)) == After(log, 0, end', cursor)
  {
    var p := CutPoint(log, cursor);
    AfterIsStretch(log, cursor, p, 0, end);
    AfterIsStretch(log, cursor, p, 0, end');
    CutMoves(log, cursor, p, end);
    AfterIsStretch(log, LastSeen(cursor, Stretch(log, p, end)), Max(p, end), 0, end');
    if p <= end {
      StretchesJoin(log, p, end, end');
    }
  }
}
