/** The hourly call ceiling for clause tools (internal/ratelimit/ratelimit.go).
  * Time is integer seconds; a window is identified by its hour number. */
module RateLimit {
  const HOUR := 3600
  const DAY := 24 * HOUR

  type AgentId = nat

  /** rate_limit_counters of one covenant, global bucket only: (agent, window) to call_count. */
  type Buckets = map<(AgentId, int), nat>

  function Window(now: int): int {
    now / HOUR
  }

  /** maybeCleanup: drop rows whose window started more than a day ago. */
  function Prune(buckets: Buckets, now: int): Buckets {
    map key | key in buckets && key.1 * HOUR >= now - DAY :: buckets[key]
  }

  /** CheckAndIncrement: an insert-or-increment that refuses a full bucket; `prune` is the 1% draw,
    * taken only on the accepting path under a positive limit. */
  function CheckAndIncrement(buckets: Buckets, limit: int, agent: AgentId, now: int, prune: bool): (Buckets, bool) {
    var key := (agent, Window(now));
    if limit <= 0 then
      (buckets, true)
    else if key in buckets && buckets[key] >= limit then
      (buckets, false)
    else
      var counted := buckets[key := if key in buckets then buckets[key] + 1 else 1];
      (if prune then Prune(counted, now) else counted, true)
  }

  /** One call presented to the gate. */
  datatype Attempt = Attempt(agent: AgentId, now: int, prune: bool)

  function Replay(limit: int, calls: seq<Attempt>): Buckets {
    if calls == [] then
      map[]
    else
      var last := calls[|calls| - 1];
      CheckAndIncrement(Replay(limit, calls[..|calls| - 1]), limit, last.agent, last.now, last.prune).0
  }

  predicate Accepted(limit: int, calls: seq<Attempt>, k: nat)
    requires k < |calls|
  {
    CheckAndIncrement(Replay(limit, calls[..k]), limit, calls[k].agent, calls[k].now, calls[k].prune).1
  }

  ghost predicate ClockNeverRunsBack(calls: seq<Attempt>) {
    forall i, j :: 0 <= i < j < |calls| ==> calls[i].now <= calls[j].now
  }

  /** How many of the first n calls by `agent` with a time in [from, to) were accepted. */
  ghost function AcceptedIn(limit: int, calls: seq<Attempt>, n: nat, agent: AgentId, from: int, to: int): nat
    requires n <= |calls|
  {
    if n == 0 then
      0
    else
      AcceptedIn(limit, calls, n - 1, agent, from, to)
      + if calls[n - 1].agent == agent && from <= calls[n - 1].now < to && Accepted(limit, calls, n - 1) then 1 else 0
  }

  /** A usable window is one that can still be written at or after time `now`. */
  lemma {:induction false} BucketCountsAcceptedCalls(limit: int, calls: seq<Attempt>, n: nat, agent: AgentId, window: int)
    requires limit > 0 && n <= |calls| && ClockNeverRunsBack(calls)
    ensures AcceptedIn(limit, calls, n, agent, window * HOUR, (window + 1) * HOUR) <= limit
    ensures n > 0 && window >= Window(calls[n - 1].now) - 23 ==>
              var buckets := Replay(limit, calls[..n]);
              AcceptedIn(limit, calls, n, agent, window * HOUR, (window + 1) * HOUR)
                == if (agent, window) in buckets then buckets[(agent, window)] else 0
    ensures n == 0 ==> AcceptedIn(limit, calls, n, agent, window * HOUR, (window + 1) * HOUR) == 0
  {
    if n > 0 {
      BucketCountsAcceptedCalls(limit, calls, n - 1, agent, window);
      var call := calls[n - 1];
      assert calls[..n][..n - 1] == calls[..n - 1];
      assert window * HOUR <= call.now < (window + 1) * HOUR <==> Window(call.now) == window;
    }
  }

  /** Any sixty-minute interval touches at most two windows. */
  lemma {:induction false} IntervalSplitsIntoWindows(limit: int, calls: seq<Attempt>, n: nat, agent: AgentId, start: int)
    requires n <= |calls|
    ensures AcceptedIn(limit, calls, n, agent, start, start + HOUR)
         <= AcceptedIn(limit, calls, n, agent, Window(start) * HOUR, (Window(start) + 1) * HOUR)
          + AcceptedIn(limit, calls, n, agent, (Window(start) + 1) * HOUR, (Window(start) + 2) * HOUR)
  {
    if n > 0 {
      IntervalSplitsIntoWindows(limit, calls, n - 1, agent, start);
    }
  }

  /** Main result: the ceiling over time. */
  lemma AnySixtyMinutesHoldAtMostTwiceTheLimit(limit: int, calls: seq<Attempt>, agent: AgentId, start: int)
    requires limit > 0 && ClockNeverRunsBack(calls)
    ensures AcceptedIn(limit, calls, |calls|, agent, start, start + HOUR) <= 2 * limit
  {
    IntervalSplitsIntoWindows(limit, calls, |calls|, agent, start);
    BucketCountsAcceptedCalls(limit, calls, |calls|, agent, Window(start));
    BucketCountsAcceptedCalls(limit, calls, |calls|, agent, Window(start) + 1);
  }

  /** `limit` calls in the last second of one window, `limit` in the first of the next. */
  function Burst(limit: nat, agent: AgentId): seq<Attempt> {
    seq(2 * limit, i => Attempt(agent, if i < limit then HOUR - 1 else HOUR, false))
  }

  lemma {:induction false} BurstPasses(limit: nat, agent: AgentId, n: nat)
    requires n <= 2 * limit
    ensures AcceptedIn(limit, Burst(limit, agent), n, agent, HOUR - 1, 2 * HOUR - 1) == n
    ensures var buckets := Replay(limit, Burst(limit, agent)[..n]);
            var first, second := (agent, 0), (agent, 1);
            && (if first in buckets then buckets[first] else 0) == (if n < limit then n else limit)
            && (if second in buckets then buckets[second] else 0) == (if n < limit then 0 else n - limit)
  {
    if n > 0 {
      var calls := Burst(limit, agent);
      BurstPasses(limit, agent, n - 1);
      assert calls[..n][..n - 1] == calls[..n - 1];
      assert Window(calls[n - 1].now) == if n - 1 < limit then 0 else 1;
    }
  }

  /** The bound of twice the limit is reached, for every limit. */
  lemma TwiceTheLimitIsReached(limit: nat, agent: AgentId)
    ensures var calls := Burst(limit, agent);
            ClockNeverRunsBack(calls) && AcceptedIn(limit, calls, |calls|, agent, HOUR - 1, 2 * HOUR - 1) == 2 * limit
  {
    BurstPasses(limit, agent, 2 * limit);
  }

  lemma {:induction false} FreshHour(keys: set<(AgentId, int)>) returns (hour: int)
    ensures forall key :: key in keys ==> key.1 < hour
  {
    if keys == {} {
      hour := 0;
    } else {
      var key :| key in keys;
      var rest := FreshHour(keys - {key});
      hour := if key.1 < rest then rest else key.1 + 1;
    }
  }

  /** However full the buckets are, a later hour accepts the agent's next call. */
  lemma AcceptsLater(buckets: Buckets, limit: int, agent: AgentId) returns (now: int)
    ensures CheckAndIncrement(buckets, limit, agent, now, false).1
  {
    var hour := FreshHour(buckets.Keys);
    now := hour * HOUR;
    assert Window(now) == hour && (agent, hour) !in buckets.Keys;
  }

  /** Cleanup keeps exactly the windows that started within the last day. */
  lemma PruneKeepsADay(buckets: Buckets, now: int, key: (AgentId, int))
    ensures key in Prune(buckets, now) <==> key in buckets && now - key.1 * 3600 <= 86400
    ensures key in Prune(buckets, now) ==> Prune(buckets, now)[key] == buckets[key]
  {
  }

  /** A positive limit accepts a call exactly while the agent's hour has fewer, counts it there, and leaves the other hours alone; no
    * limit counts nothing. */
  lemma CallIsCounted(buckets: Buckets, limit: int, agent: AgentId, now: int)
    ensures var (buckets', ok) := CheckAndIncrement(buckets, limit, agent, now, false);
            var hour := (agent, now / 3600);
            var count := if hour in buckets then buckets[hour] else 0;
            && (ok <==> limit <= 0 || count < limit)
            && buckets' == if limit > 0 && ok then buckets[hour := count + 1] else buckets
  {
  }
}
