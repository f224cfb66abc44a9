/**
 `fetch_tweets_v2`: one attempt resolves the account and asks for the newest
 posts after `since_id`; the remote's answer to each attempt is given as a
 `FetchOutcome`. A rate limit makes the function sleep and call itself again
 with the same `since_id`; any other failure sends one alert and yields nothing.
 */
module Fetch {
  import opened Items
  import opened Dedup

  /**
   A `TooManyRequests` answer: the `x-rate-limit-reset` header if the remote sent
   one, the clock as read for the header's default, and the clock as read when
   the wait is computed.
   */
  datatype RateLimit = RateLimit(resetHeader: Option<int>, defaultClock: int, clock: int)

  /** What the remote does to one attempt (lines 179-187 and the two handlers). */
  datatype FetchOutcome =
    | Fetched(data: Option<seq<Item>>)  // both calls returned; the body may be absent
    | RateLimited(limit: RateLimit)
    | Failed(reason: string)            // any other exception, with its message

  /** The e-mail `send_email` is asked to send. */
  datatype Alert = Alert(subject: string, body: string)

  const FetchFailedSubject: string := "Script Error: Tweet Fetching Failed"

  /**
   How a call ended: it returned a list; `time.sleep` raised on a negative wait
   and the exception left the function; or the given outcomes ran out while it
   was still retrying.
   */
  datatype Status = Returned | SleepRaised | Unfinished

  /** Everything one call does: its result, the set after it, and its effects. */
  datatype FetchRun = FetchRun(
    status: Status,
    items: seq<Item>,
    seen: set<int>,
    sinceIds: seq<Option<int>>,  // the `since_id` of each attempt, in order
    waits: seq<int>,             // each `time.sleep` argument, in order
    alerts: seq<Alert>)

  /**
   Lines 200-201: the reset time, or the first clock reading when the header is
   missing, minus the second clock reading. There is no clamp at zero.
   */
  function WaitSeconds(l: RateLimit): (w: int)
    ensures l.resetHeader.Some? ==> w + l.clock == l.resetHeader.value
    ensures l.resetHeader.None? && l.defaultClock <= l.clock ==> w <= 0
  {
    var reset := if l.resetHeader.Some? then l.resetHeader.value else l.defaultClock;
    reset - l.clock
  }

  /** A rate limit whose wait `time.sleep` accepts, so the call is retried. */
  predicate Patient(l: RateLimit)
  {
    WaitSeconds(l) >= 0
  }

  /** The call `fetch_tweets_v2(client, handle, sinceId)` against the remote `outcomes`. */
  function FetchTweets(outcomes: seq<FetchOutcome>, sinceId: Option<int>, seen: set<int>): (r: FetchRun)
    ensures forall i :: 0 <= i < |r.sinceIds| ==> r.sinceIds[i] == sinceId
    ensures |r.sinceIds| <= |outcomes|
    ensures |outcomes| > 0 ==> |r.sinceIds| > 0
    ensures |r.waits| == |r.sinceIds| - (if r.status == Returned then 1 else 0)
    ensures forall i :: 0 <= i < |r.waits| && !(r.status == SleepRaised && i == |r.waits| - 1)
              ==> r.waits[i] >= 0
    ensures r.status == SleepRaised ==> |r.waits| > 0 && r.waits[|r.waits| - 1] < 0
    ensures forall i :: 0 <= i < |r.items| ==> r.items[i].id !in seen
    ensures r.seen == seen + IdsOf(r.items)
    ensures r.status != Returned ==> r.items == [] && r.alerts == []
    ensures |r.alerts| <= 1
    ensures |r.alerts| == 1 ==> r.items == [] && r.alerts[0].subject == FetchFailedSubject
    decreases |outcomes|
  {
    if |outcomes| == 0 then FetchRun(Unfinished, [], seen, [], [], [])
    else
      match outcomes[0]
      case Fetched(data) =>
        var b := ProcessBatch(data, seen);
        FetchRun(Returned, b.items, b.seen, [sinceId], [], [])
      case Failed(reason) =>
        FetchRun(Returned, [], seen, [sinceId], [], [Alert(FetchFailedSubject, reason)])
      case RateLimited(limit) =>
        var w := WaitSeconds(limit);
        if w < 0 then FetchRun(SleepRaised, [], seen, [sinceId], [w], [])
        else
          var rest := FetchTweets(outcomes[1..], sinceId, seen);
          rest.(sinceIds := [sinceId] + rest.sinceIds, waits := [w] + rest.waits)
  }

  /** The remote answers with the rate limits `limits`, then as `rest` says. */
  function Throttled(limits: seq<RateLimit>, rest: seq<FetchOutcome>): (outcomes: seq<FetchOutcome>)
    ensures |outcomes| == |limits| + |rest|
    ensures forall i :: 0 <= i < |limits| ==> outcomes[i] == RateLimited(limits[i])
    ensures outcomes[|limits|..] == rest
  {
    if |limits| == 0 then rest else [RateLimited(limits[0])] + Throttled(limits[1..], rest)
  }

  /** `n` copies of `x`. */
  function Repeat<T>(x: T, n: nat): (xs: seq<T>)
    ensures |xs| == n && forall i :: 0 <= i < n ==> xs[i] == x
  {
    if n == 0 then [] else [x] + Repeat(x, n - 1)
  }

  /** The `time.sleep` arguments of a run of rate limits, in order. */
  function WaitsOf(limits: seq<RateLimit>): (ws: seq<int>)
    ensures |ws| == |limits|
    ensures forall i :: 0 <= i < |limits| ==> ws[i] == WaitSeconds(limits[i])
  {
    if |limits| == 0 then [] else [WaitSeconds(limits[0])] + WaitsOf(limits[1..])
  }

  /** Concatenation regrouped after a leading element. */
  lemma ConsAppend<T>(x: T, a: seq<T>, b: seq<T>)
    ensures [x] + (a + b) == ([x] + a) + b
  {
  }

  /**
   Rate limits that are waited out change nothing but the record of attempts
   and waits: the call ends exactly as if the remote had answered the first
   attempt the way it answers the retry.
   */
  lemma {:induction false} RetriesAreTransparent(
    limits: seq<RateLimit>, rest: seq<FetchOutcome>, sinceId: Option<int>, seen: set<int>)
    requires forall i :: 0 <= i < |limits| ==> Patient(limits[i])
    ensures var q := FetchTweets(rest, sinceId, seen);
            var r := FetchTweets(Throttled(limits, rest), sinceId, seen);
            && r.status == q.status && r.items == q.items && r.seen == q.seen && r.alerts == q.alerts
            && r.sinceIds == Repeat(sinceId, |limits|) + q.sinceIds
            && r.waits == WaitsOf(limits) + q.waits
  {
    if |limits| > 0 {
      var q := FetchTweets(rest, sinceId, seen);
      var l' := limits[1..];
      var w := WaitSeconds(limits[0]);
      var tail := Throttled(l', rest);
      var all := Throttled(limits, rest);
      assert all[0] == RateLimited(limits[0]) && all[1..] == tail;
      var t := FetchTweets(tail, sinceId, seen);
      var r := FetchTweets(all, sinceId, seen);
      assert Patient(limits[0]);
      assert r == t.(sinceIds := [sinceId] + t.sinceIds, waits := [w] + t.waits);
      RetriesAreTransparent(l', rest, sinceId, seen);
      assert Repeat(sinceId, |limits|) == [sinceId] + Repeat(sinceId, |l'|);
      assert WaitsOf(limits) == [w] + WaitsOf(l');
      ConsAppend(sinceId, Repeat(sinceId, |l'|), q.sinceIds);
      ConsAppend(w, WaitsOf(l'), q.waits);
    }
  }

  /**
   After any number of waited-out rate limits, a response goes through the
   dedup filter and ends the call: whatever the remote would answer next is
   never asked for.
   */
  lemma {:induction false} SuccessAfterRetries(
    limits: seq<RateLimit>, data: Option<seq<Item>>, later: seq<FetchOutcome>,
    sinceId: Option<int>, seen: set<int>)
    requires forall i :: 0 <= i < |limits| ==> Patient(limits[i])
    ensures var r := FetchTweets(Throttled(limits, [Fetched(data)] + later), sinceId, seen);
            && r.status == Returned
            && Filtered(r.items, r.seen) == ProcessBatch(data, seen)
            && r.alerts == []
            && |r.sinceIds| == |limits| + 1
            && r.waits == WaitsOf(limits)
  {
    RetriesAreTransparent(limits, [Fetched(data)] + later, sinceId, seen);
    assert ([Fetched(data)] + later)[0] == Fetched(data);
    assert WaitsOf(limits) + [] == WaitsOf(limits);
  }

  /**
   After any number of waited-out rate limits, another failure ends the call:
   it yields nothing, leaves the set alone and sends exactly one alert carrying
   the message, and whatever the remote would answer next is never asked for.
   */
  lemma {:induction false} FailureAfterRetries(
    limits: seq<RateLimit>, reason: string, later: seq<FetchOutcome>,
    sinceId: Option<int>, seen: set<int>)
    requires forall i :: 0 <= i < |limits| ==> Patient(limits[i])
    ensures var r := FetchTweets(Throttled(limits, [Failed(reason)] + later), sinceId, seen);
            && r.status == Returned
            && r.items == [] && r.seen == seen
            && r.alerts == [Alert(FetchFailedSubject, reason)]
            && |r.sinceIds| == |limits| + 1
            && r.waits == WaitsOf(limits)
  {
    RetriesAreTransparent(limits, [Failed(reason)] + later, sinceId, seen);
    assert ([Failed(reason)] + later)[0] == Failed(reason);
    assert WaitsOf(limits) + [] == WaitsOf(limits);
  }

  /**
   A reset time already in the past gives a negative wait; `time.sleep` raises,
   nothing is returned, no alert is sent and the set is unchanged, whatever the
   remote would have answered next.
   */
  lemma {:induction false} PastResetAbandonsCall(
    limits: seq<RateLimit>, reset: int, defaultClock: int, clock: int,
    later: seq<FetchOutcome>, sinceId: Option<int>, seen: set<int>)
    requires forall i :: 0 <= i < |limits| ==> Patient(limits[i])
    requires reset < clock
    ensures var r := FetchTweets(
              Throttled(limits, [RateLimited(RateLimit(Some(reset), defaultClock, clock))] + later),
              sinceId, seen);
            && r.status == SleepRaised
            && r.items == [] && r.seen == seen && r.alerts == []
            && r.waits == WaitsOf(limits) + [reset - clock]
  {
    var rl := RateLimited(RateLimit(Some(reset), defaultClock, clock));
    RetriesAreTransparent(limits, [rl] + later, sinceId, seen);
    assert ([rl] + later)[0] == rl;
  }

  /**
   Any negative wait, with or without a reset header, ends the call the same
   way: `time.sleep` raises, so nothing is returned, no alert is sent and the
   set is unchanged, whatever the remote would have answered next.
   */
  lemma {:induction false} NegativeWaitAbandonsCall(
    limits: seq<RateLimit>, l: RateLimit, later: seq<FetchOutcome>, sinceId: Option<int>, seen: set<int>)
    requires forall i :: 0 <= i < |limits| ==> Patient(limits[i])
    requires !Patient(l)
    ensures var r := FetchTweets(Throttled(limits, [RateLimited(l)] + later), sinceId, seen);
            && r.status == SleepRaised
            && r.items == [] && r.seen == seen && r.alerts == []
            && r.waits == WaitsOf(limits) + [WaitSeconds(l)]
  {
    RetriesAreTransparent(limits, [RateLimited(l)] + later, sinceId, seen);
    assert ([RateLimited(l)] + later)[0] == RateLimited(l);
  }

  /**
   Without a reset header, the default clock reading of line 200 and the
   reading of line 201 can fall on either side of a second boundary. The wait
   is then -1, and the call is abandoned as for a reset in the past.
   */
  lemma HeaderlessTickAbandonsCall(
    limits: seq<RateLimit>, t: int, later: seq<FetchOutcome>, sinceId: Option<int>, seen: set<int>)
    requires forall i :: 0 <= i < |limits| ==> Patient(limits[i])
    ensures var r := FetchTweets(Throttled(limits, [RateLimited(RateLimit(None, t, t + 1))] + later), sinceId, seen);
            && r.status == SleepRaised
            && r.items == [] && r.seen == seen && r.alerts == []
            && r.waits == WaitsOf(limits) + [-1]
  {
    NegativeWaitAbandonsCall(limits, RateLimit(None, t, t + 1), later, sinceId, seen);
  }
}
