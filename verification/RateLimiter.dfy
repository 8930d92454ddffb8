/** The sliding-window rate limiter: per key, requests of the last minute are kept in a list that is
    pruned in place. Its meaning is a function of the full call history. */
module RateLimiter {

  const WINDOW_SECONDS := 60.0

  // ----- the meaning -----

  /** How many of the times lie in the window from lo to hi; the end lo belongs to it if closed. */
  function CountIn(times: seq<real>, lo: real, closed: bool, hi: real): (n: nat)
    ensures n <= |times|
  {
    if times == [] then 0
    else
      var t := times[|times| - 1];
      CountIn(times[..|times| - 1], lo, closed, hi)
      + (if (lo < t || (closed && lo == t)) && t <= hi then 1 else 0)
  }

  /** The accepted calls of a history: a call is accepted when fewer than `max` calls were accepted in
      the minute up to it. */
  function Accepted(max: nat, calls: seq<real>): (r: seq<real>)
    ensures |r| <= |calls|
  {
    if calls == [] then []
    else
      var before, now := Accepted(max, calls[..|calls| - 1]), calls[|calls| - 1];
      if CountIn(before, now - WINDOW_SECONDS, false, now) < max then before + [now] else before
  }

  predicate Monotone(calls: seq<real>) {
    forall i, j :: 0 <= i < j < |calls| ==> calls[i] <= calls[j]
  }

  lemma {:induction false} AcceptedMonotone(max: nat, calls: seq<real>)
    requires Monotone(calls)
    ensures Monotone(Accepted(max, calls))
    ensures forall i :: 0 <= i < |Accepted(max, calls)| ==> Accepted(max, calls)[i] <= calls[|calls| - 1]
  {
    if calls != [] {
      AcceptedMonotone(max, calls[..|calls| - 1]);
    }
  }

  /** A window that ends at or after the newest time, and starts no earlier, holds no more. */
  lemma {:induction false} CountShrinks(times: seq<real>, lo: real, closed: bool, hi: real, now: real)
    requires forall i :: 0 <= i < |times| ==> times[i] <= now
    requires now - WINDOW_SECONDS < lo || (now - WINDOW_SECONDS == lo && !closed)
    ensures CountIn(times, lo, closed, hi) <= CountIn(times, now - WINDOW_SECONDS, false, now)
  {
    if times != [] { CountShrinks(times[..|times| - 1], lo, closed, hi, now); }
  }

  /** A window that is no longer than a minute and open at one end at least. */
  predicate MinuteWindow(lo: real, closed: bool, hi: real) {
    hi < lo + 60.0 || (hi == lo + 60.0 && !closed)
  }

  lemma CountAppend(times: seq<real>, t: real, lo: real, closed: bool, hi: real)
    ensures CountIn(times + [t], lo, closed, hi)
            == CountIn(times, lo, closed, hi) + (if (lo < t || (closed && lo == t)) && t <= hi then 1 else 0)
  {
    assert (times + [t])[..|times|] == times;
  }

  lemma AcceptKeepsLimit(max: nat, times: seq<real>, now: real, lo: real, closed: bool, hi: real)
    requires forall i :: 0 <= i < |times| ==> times[i] <= now
    requires CountIn(times, now - WINDOW_SECONDS, false, now) < max && CountIn(times, lo, closed, hi) <= max
    requires MinuteWindow(lo, closed, hi)
    ensures CountIn(times + [now], lo, closed, hi) <= max
  {
    CountAppend(times, now, lo, closed, hi);
    if now <= hi { CountShrinks(times, lo, closed, hi, now); }
  }

  /** No window of a minute, open at either end, ever holds more than `max` accepted calls. */
  lemma {:induction false} AnyWindowWithinLimit(max: nat, calls: seq<real>, lo: real, closed: bool, hi: real)
    requires Monotone(calls) && MinuteWindow(lo, closed, hi)
    ensures CountIn(Accepted(max, calls), lo, closed, hi) <= max
  {
    if calls != [] {
      var shorter, now := calls[..|calls| - 1], calls[|calls| - 1];
      AnyWindowWithinLimit(max, shorter, lo, closed, hi);
      AcceptedMonotone(max, shorter);
      if CountIn(Accepted(max, shorter), now - WINDOW_SECONDS, false, now) < max {
        AcceptKeepsLimit(max, Accepted(max, shorter), now, lo, closed, hi);
      }
    }
  }

  // ----- the limiter -----

  function After(times: seq<real>, start: real): (r: seq<real>)
    ensures forall x :: x in r ==> x in times && x > start
  {
    if times == [] then []
    else
      var t := times[|times| - 1];
      After(times[..|times| - 1], start) + (if t > start then [t] else [])
  }

  lemma AfterAppend(times: seq<real>, t: real, start: real)
    ensures After(times + [t], start) == After(times, start) + (if t > start then [t] else [])
  {
    assert (times + [t])[..|times|] == times;
  }

  lemma {:induction false} AfterAfter(times: seq<real>, start: real, later: real)
    requires start <= later
    ensures After(After(times, start), later) == After(times, later)
  {
    if times != [] {
      var t := times[|times| - 1];
      var rest := After(times[..|times| - 1], start);
      AfterAfter(times[..|times| - 1], start, later);
      AfterAppend(rest, t, later);
      assert After(times, start) == if t > start then rest + [t] else rest;
    }
  }

  lemma {:induction false} AfterCounts(times: seq<real>, now: real)
    requires forall i :: 0 <= i < |times| ==> times[i] <= now
    ensures |After(times, now - WINDOW_SECONDS)| == CountIn(times, now - WINDOW_SECONDS, false, now)
  {
    if times != [] { AfterCounts(times[..|times| - 1], now); }
  }

  /** Pruning a pruned list again prunes the full history, and counts the last minute. Recording the
      call unless the limit is reached keeps the list right. */
  lemma PruneAgain(max: nat, accepted: seq<real>, last: real, now: real, kept: seq<real>)
    requires last <= now && kept == After(accepted, last - WINDOW_SECONDS)
    requires forall i :: 0 <= i < |accepted| ==> accepted[i] <= now
    ensures
      var recent := After(kept, now - WINDOW_SECONDS);
      && recent == After(accepted, now - WINDOW_SECONDS)
      && |recent| == CountIn(accepted, now - WINDOW_SECONDS, false, now)
      && recent + [now] == After(accepted + [now], now - WINDOW_SECONDS)
  {
    AfterAfter(accepted, last - WINDOW_SECONDS, now - WINDOW_SECONDS);
    AfterCounts(accepted, now);
    AfterAppend(accepted, now, now - WINDOW_SECONDS);
  }

  lemma AcceptedStep(max: nat, calls: seq<real>, now: real)
    ensures Accepted(max, calls + [now]) ==
              if CountIn(Accepted(max, calls), now - WINDOW_SECONDS, false, now) < max
              then Accepted(max, calls) + [now] else Accepted(max, calls)
  {
    assert (calls + [now])[..|calls|] == calls;
  }

  /** The latest call of a history; any time before all calls if there is none. */
  function LastCall(calls: seq<real>, now: real): real {
    if calls == [] then now else calls[|calls| - 1]
  }

  /** The accepted calls of the minute up to `now`. */
  function LastMinute(max: nat, calls: seq<real>, now: real): seq<real> {
    After(Accepted(max, calls), now - WINDOW_SECONDS)
  }

  lemma CheckKeeps(max: nat, calls: seq<real>, now: real, kept: seq<real>)
    requires Monotone(calls) && LastCall(calls, now) <= now && kept == LastMinute(max, calls, LastCall(calls, now))
    ensures
      var recent := After(kept, now - WINDOW_SECONDS);
      && |recent| == CountIn(Accepted(max, calls), now - WINDOW_SECONDS, false, now)
      && LastMinute(max, calls + [now], now) == if |recent| >= max then recent else recent + [now]
  {
    AcceptedUpTo(max, calls, now);
    PruneAgain(max, Accepted(max, calls), LastCall(calls, now), now, kept);
    AcceptedStep(max, calls, now);
  }

  lemma MonotoneAppend(calls: seq<real>, now: real)
    requires Monotone(calls) && LastCall(calls, now) <= now
    ensures Monotone(calls + [now])
  {
  }

  lemma AcceptedUpTo(max: nat, calls: seq<real>, now: real)
    requires Monotone(calls) && LastCall(calls, now) <= now
    ensures forall i :: 0 <= i < |Accepted(max, calls)| ==> Accepted(max, calls)[i] <= now
  {
    AcceptedMonotone(max, calls);
  }

  /** The minute up to `now` already holds the limit of accepted calls. */
  predicate MinuteFull(max: nat, calls: seq<real>, now: real) {
    CountIn(Accepted(max, calls), now - 60.0, false, now) >= max
  }

  /** The list kept for a key, given all its calls. */
  ghost predicate Keeps(max: nat, calls: seq<real>, kept: seq<real>) {
    calls != [] && Monotone(calls) && kept == LastMinute(max, calls, calls[|calls| - 1])
  }

  /** One check: the decision is right, and the list is kept right. */
  lemma CheckOnce(max: nat, calls: seq<real>, now: real, kept: seq<real>)
    requires LastCall(calls, now) <= now && if calls == [] then kept == [] else Keeps(max, calls, kept)
    ensures
      var recent := After(kept, now - WINDOW_SECONDS);
      && (|recent| >= max <==> MinuteFull(max, calls, now))
      && Keeps(max, calls + [now], if |recent| >= max then recent else recent + [now])
  {
    CheckKeeps(max, calls, now, kept);
    MonotoneAppend(calls, now);
  }

  /** Every key that was called has its list. */
  ghost predicate AllKept(max: nat, calls: map<string, seq<real>>, log: map<string, seq<real>>) {
    log.Keys == calls.Keys && forall k :: k in calls ==> Keeps(max, calls[k], log[k])
  }

  lemma OneKeyKept(max: nat, calls: map<string, seq<real>>, log: map<string, seq<real>>, key: string,
                   history: seq<real>, kept: seq<real>)
    requires AllKept(max, calls, log) && Keeps(max, history, kept)
    ensures AllKept(max, calls[key := history], log[key := kept])
  {
  }

  class Limiter {
    const maxRequestsPerMinute: nat
    var requestLog: map<string, seq<real>>
    /** All calls so far, per key. */
    ghost var calls: map<string, seq<real>>

    ghost predicate Valid()
      reads this
    {
      AllKept(maxRequestsPerMinute, calls, requestLog)
    }

    ghost function History(key: string): seq<real>
      reads this
    {
      if key in calls then calls[key] else []
    }

    constructor (max: nat)
      ensures Valid() && maxRequestsPerMinute == max
      ensures forall key :: History(key) == []
    {
      maxRequestsPerMinute := max;
      requestLog := map[];
      calls := map[];
    }

    /** Rejects exactly when the last minute really holds the limit. The clock does not run back. */
    method IsRateLimited(key: string, now: real) returns (limited: bool)
      requires Valid() && LastCall(History(key), now) <= now
      modifies this
      ensures Valid()
      ensures calls == old(calls)[key := old(History(key)) + [now]]
      ensures limited <==> MinuteFull(maxRequestsPerMinute, old(History(key)), now)
    {
      hide LastMinute, MinuteFull, Monotone, After, CountIn, Accepted;
      ghost var before := History(key);
      var windowStart := now - WINDOW_SECONDS;
      var timestamps := if key in requestLog then requestLog[key] else [];
      assert before != [] ==> Keeps(maxRequestsPerMinute, before, timestamps);
      CheckOnce(maxRequestsPerMinute, before, now, timestamps);
      var recent := After(timestamps, windowStart);
      limited := |recent| >= maxRequestsPerMinute;
      var kept := if limited then recent else recent + [now];
      OneKeyKept(maxRequestsPerMinute, calls, requestLog, key, before + [now], kept);
      calls := calls[key := before + [now]];
      requestLog := requestLog[key := kept];
    }
  }
}
