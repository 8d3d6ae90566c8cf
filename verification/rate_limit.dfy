/**
 * The fixed-window rate limiters of the Express routes: `helperRateLimiter`
 * (server/routes/websiteHelper.js, keyed by client address, 10 calls per 30
 * seconds) and `rateLimiter` (server/routes/chat.js, keyed by user id, 30 calls
 * per minute). Both keep a `{count, windowStart}` entry per key in a map and
 * make the same four-way decision; the clock reading `now` is a parameter.
 */
module RateLimit {
  /** The tracker entry of one key. */
  datatype Entry = Entry(count: int, windowStart: int)

  /** Whether the call goes on to the route or is answered with status 429. */
  datatype Decision = Pass | Reject

  /** A limiter's configuration: the window length in milliseconds and the calls allowed in it. */
  datatype Limits = Limits(window: nat, limit: nat)

  const HelperLimits: Limits := Limits(30000, 10)
  const ChatLimits: Limits := Limits(60000, 30)

  /** The window of `e` has run out at time `now` (strictly longer than the window has passed). */
  predicate Expired(e: Entry, now: int, lim: Limits) {
    now - e.windowStart > lim.window
  }

  /**
   * One call by `key` at time `now`: an unseen key and an expired window start
   * a fresh window with count 1 and pass; a key at the limit is rejected and
   * its entry kept; otherwise the count goes up by one and the call passes.
   */
  function Step(table: map<string, Entry>, key: string, now: int, lim: Limits): (r: (map<string, Entry>, Decision))
    ensures key in r.0
    ensures r.1 == Reject <==> key in table && !Expired(table[key], now, lim) && table[key].count >= lim.limit
    ensures r.1 == Reject ==> r.0 == table
    ensures r.1 == Pass && (key !in table || Expired(table[key], now, lim)) ==> r.0[key] == Entry(1, now)
    ensures r.1 == Pass && key in table && !Expired(table[key], now, lim) ==>
      r.0[key] == Entry(table[key].count + 1, table[key].windowStart)
    ensures forall k :: k != key ==> (k in r.0 <==> k in table)
    ensures forall k :: k != key && k in table ==> r.0[k] == table[k]
  {
    if key !in table then (table[key := Entry(1, now)], Pass)
    else
      var e := table[key];
      if Expired(e, now, lim) then (table[key := Entry(1, now)], Pass)
      else if e.count >= lim.limit then (table, Reject)
      else (table[key := Entry(e.count + 1, e.windowStart)], Pass)
  }

  /** Every tracked count lies between 1 and the limit. */
  predicate Bounded(table: map<string, Entry>, lim: Limits) {
    forall k :: k in table ==> 1 <= table[k].count <= lim.limit
  }

  /** With a positive limit, a step keeps every count between 1 and the limit. */
  lemma StepKeepsBound(table: map<string, Entry>, key: string, now: int, lim: Limits)
    requires lim.limit >= 1
    requires Bounded(table, lim)
    ensures Bounded(Step(table, key, now, lim).0, lim)
  {
  }

  /** A sequence of calls by one key at the given times: the final table and how many calls passed. */
  function Run(table: map<string, Entry>, key: string, times: seq<int>, lim: Limits): (r: (map<string, Entry>, nat))
    ensures r.1 <= |times|
    decreases |times|
  {
    if times == [] then (table, 0)
    else
      var (t1, d) := Step(table, key, times[0], lim);
      var (t2, n) := Run(t1, key, times[1..], lim);
      (t2, n + (if d == Pass then 1 else 0))
  }

  /**
   * Within one window no more calls pass than the limit leaves room for:
   * every call made no later than `window` after the entry's window start
   * either raises the count by one or is rejected, and the window start stays.
   */
  lemma {:induction false} RunWithinWindow(table: map<string, Entry>, key: string, times: seq<int>, lim: Limits)
    requires key in table && table[key].count <= lim.limit
    requires forall i :: 0 <= i < |times| ==> times[i] - table[key].windowStart <= lim.window
    ensures var r := Run(table, key, times, lim);
      key in r.0 && r.0[key].windowStart == table[key].windowStart
      && r.0[key].count == table[key].count + r.1 && r.0[key].count <= lim.limit
    decreases |times|
  {
    if times != [] {
      var t1 := Step(table, key, times[0], lim).0;
      RunWithinWindow(t1, key, times[1..], lim);
    }
  }

  /**
   * At most `limit` calls of one key pass in a window: after a call at `start`
   * that opened a window, the calls that follow within the window pass at most
   * `limit - 1` more times.
   */
  lemma AtMostLimitPerWindow(table: map<string, Entry>, key: string, start: int, times: seq<int>, lim: Limits)
    requires lim.limit >= 1
    requires forall i :: 0 <= i < |times| ==> times[i] - start <= lim.window
    ensures var first := Step(table, key, start, lim);
      first.0[key] == Entry(1, start) ==> 1 + Run(first.0, key, times, lim).1 <= lim.limit
  {
    var first := Step(table, key, start, lim);
    if first.0[key] == Entry(1, start) {
      RunWithinWindow(first.0, key, times, lim);
    }
  }

  /** Calls by other keys never change a key's entry. */
  lemma {:induction false} RunLeavesOthers(table: map<string, Entry>, key: string, other: string, times: seq<int>, lim: Limits)
    requires other != key
    ensures var r := Run(table, key, times, lim).0;
      (other in r <==> other in table) && (other in table ==> r[other] == table[other])
    decreases |times|
  {
    if times != [] {
      RunLeavesOthers(Step(table, key, times[0], lim).0, key, other, times[1..], lim);
    }
  }
}
