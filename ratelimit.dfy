/**
 * The per-thread rate limiter: the time of the last passed call of each thread, and
 * the decision whether a new call may pass now or must wait. Times are integer
 * milliseconds; the clock reading `now` is a parameter.
 */
module RateLimit {

  /** The stored time of a thread's last call; a thread never seen counts as 0. */
  function LastCall(times: map<string, int>, threadId: string): int {
    if threadId in times then times[threadId] else 0
  }

  /** The result of `checkRateLimit`: 0 to pass, otherwise the milliseconds left. */
  function WaitTime(times: map<string, int>, rateLimitMs: int, threadId: string, now: int): (w: int)
    ensures w >= 0
    ensures w == 0 <==> now - LastCall(times, threadId) >= rateLimitMs
    ensures w > 0 ==> w == rateLimitMs - (now - LastCall(times, threadId))
  {
    var waitTime := rateLimitMs - (now - LastCall(times, threadId));
    if waitTime > 0 then waitTime else 0
  }

  /** The stored times after `checkRateLimit`: the thread's time becomes `now` on a pass. */
  function AfterCheck(times: map<string, int>, rateLimitMs: int, threadId: string, now: int): map<string, int> {
    if WaitTime(times, rateLimitMs, threadId, now) == 0 then times[threadId := now] else times
  }

  class RateLimiter {
    /** `lastCallTime` */
    var lastCallTime: map<string, int>
    /** `rateLimitMs` from the configuration. */
    const rateLimitMs: int

    constructor(rateLimitMs: int)
      ensures lastCallTime == map[] && this.rateLimitMs == rateLimitMs
    {
      this.rateLimitMs := rateLimitMs;
      lastCallTime := map[];
    }

    /** `checkRateLimit` */
    method CheckRateLimit(threadId: string, now: int) returns (wait: int)
      modifies this
      ensures wait == WaitTime(old(lastCallTime), rateLimitMs, threadId, now)
      ensures lastCallTime == AfterCheck(old(lastCallTime), rateLimitMs, threadId, now)
    {
      var lastTime := if threadId in lastCallTime then lastCallTime[threadId] else 0;
      var timeSince := now - lastTime;
      var waitTime := rateLimitMs - timeSince;
      if waitTime > 0 {
        return waitTime;
      }
      lastCallTime := lastCallTime[threadId := now];
      return 0;
    }

    /** `markApiCall` */
    method MarkApiCall(threadId: string, now: int)
      modifies this
      ensures lastCallTime == old(lastCallTime)[threadId := now]
    {
      lastCallTime := lastCallTime[threadId := now];
    }
  }

  /** A check touches only the queried thread, and changes it only on a pass. */
  lemma CheckTouchesOneThread(times: map<string, int>, rateLimitMs: int, threadId: string, now: int, other: string)
    requires other != threadId
    ensures LastCall(AfterCheck(times, rateLimitMs, threadId, now), other) == LastCall(times, other)
    ensures WaitTime(times, rateLimitMs, threadId, now) > 0 ==> AfterCheck(times, rateLimitMs, threadId, now) == times
    ensures WaitTime(times, rateLimitMs, threadId, now) == 0 ==>
      LastCall(AfterCheck(times, rateLimitMs, threadId, now), threadId) == now
  {
  }

  /** After a pass at `now`, a check `d` milliseconds later, with `d` under the limit,
      must wait exactly the rest of the limit. */
  lemma PassThenWait(times: map<string, int>, rateLimitMs: int, threadId: string, now: int, d: int)
    requires WaitTime(times, rateLimitMs, threadId, now) == 0
    requires 0 <= d < rateLimitMs
    ensures WaitTime(AfterCheck(times, rateLimitMs, threadId, now), rateLimitMs, threadId, now + d) == rateLimitMs - d
  {
  }

  /** Waiting the returned time is enough: a refused call that checks again that much
      later passes (the refusal left the stored time as it was). */
  lemma WaitSuffices(times: map<string, int>, rateLimitMs: int, threadId: string, now: int)
    requires WaitTime(times, rateLimitMs, threadId, now) > 0
    ensures var w := WaitTime(times, rateLimitMs, threadId, now);
      WaitTime(AfterCheck(times, rateLimitMs, threadId, now), rateLimitMs, threadId, now + w) == 0
  {
  }

  /** Waiting less than the returned time is not: a check any earlier must wait the rest. */
  lemma WaitIsLeast(times: map<string, int>, rateLimitMs: int, threadId: string, now: int, d: int)
    requires 0 <= d < WaitTime(times, rateLimitMs, threadId, now)
    ensures WaitTime(times, rateLimitMs, threadId, now + d) == WaitTime(times, rateLimitMs, threadId, now) - d
  {
  }
}
