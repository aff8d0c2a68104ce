/** A sliding-window limiter: per key, the times of the requests accepted in the last minute. */
module RateLimiter {
  import opened Basics

  datatype Outcome = Accepted | Rejected(retryAfter: int) | Crashed

  /** How many of the accepted requests fall into the closed minute that starts at `t`. */
  function InMinute(accepted: seq<real>, t: real): nat {
    if accepted == [] then 0
    else
      var last := accepted[|accepted| - 1];
      InMinute(accepted[..|accepted| - 1], t) + (if t <= last <= t + 60.0 then 1 else 0)
  }

  /** The queue without the requests that are more than a minute old. */
  function Recent(q: seq<real>, now: real): seq<real> {
    if q != [] && q[0] < now - 60.0 then Recent(q[1..], now) else q
  }

  function RetryAfter(oldest: real, now: real): int {
    Max(1, (60.0 - (now - oldest)).Floor)
  }

  predicate Sorted(s: seq<real>) { forall i, j :: 0 <= i < j < |s| ==> s[i] <= s[j] }

  /** `q` is what is left of the requests accepted up to `now`. */
  ghost predicate Tracks(limit: int, accepted: seq<real>, q: seq<real>, now: real) {
    && Sorted(accepted) && |q| <= |accepted| && q == accepted[|accepted| - |q|..]
    && |q| <= Max(0, limit) && (accepted == [] || limit >= 1)
    && (forall i :: 0 <= i < |accepted| ==> accepted[i] <= now)
    && (forall i :: 0 <= i < |accepted| - |q| ==> accepted[i] < now - 60.0)
    && Spread(limit, accepted)
  }

  /** Requests that are `limit` apart in number are more than a minute apart in time. */
  predicate Spread(limit: int, accepted: seq<real>) {
    forall i, j :: 0 <= i < j < |accepted| && j - i >= limit ==> accepted[j] - accepted[i] > 60.0
  }

  /* ---- Facts about the queue ---- */

  lemma {:induction false} RecentTracks(limit: int, accepted: seq<real>, q: seq<real>, was: real, now: real)
    requires Tracks(limit, accepted, q, was) && was <= now
    ensures Tracks(limit, accepted, Recent(q, now), now)
    ensures forall i :: 0 <= i < |Recent(q, now)| ==> Recent(q, now)[i] >= now - 60.0
    decreases |q|
  {
    hide Spread;
    if q != [] && q[0] < now - 60.0 {
      assert q[0] == accepted[|accepted| - |q|];
      assert q[1..] == accepted[|accepted| - |q| + 1..];
      DroppedOne(limit, accepted, q, was, now);
      RecentTracks(limit, accepted, q[1..], now, now);
    } else {
      assert forall i :: 0 <= i < |q| ==> q[i] == accepted[|accepted| - |q| + i];
    }
  }

  lemma DroppedOne(limit: int, accepted: seq<real>, q: seq<real>, was: real, now: real)
    requires Tracks(limit, accepted, q, was) && was <= now && q != [] && q[0] < now - 60.0
    ensures Tracks(limit, accepted, q[1..], now)
  {
    hide Spread;
    assert q[0] == accepted[|accepted| - |q|];
    assert q[1..] == accepted[|accepted| - |q| + 1..];
  }

  lemma {:induction false} NoneBefore(accepted: seq<real>, t: real, n: nat)
    requires n <= |accepted| && forall i :: 0 <= i < n ==> accepted[i] < t
    ensures InMinute(accepted, t) <= |accepted| - n
    ensures (forall i :: n <= i < |accepted| ==> t <= accepted[i] <= t + 60.0) ==> InMinute(accepted, t) == |accepted| - n
    decreases |accepted|
  {
    if accepted != [] {
      var front := accepted[..|accepted| - 1];
      NoneBefore(front, t, Min(n, |front|));
    }
  }

  /** The queue holds exactly the accepted requests of the last minute. */
  lemma QueueCountsMinute(limit: int, accepted: seq<real>, q: seq<real>, now: real)
    requires Tracks(limit, accepted, q, now) && forall i :: 0 <= i < |q| ==> q[i] >= now - 60.0
    ensures |q| == InMinute(accepted, now - 60.0)
  {
    hide Spread;
    assert forall i :: |accepted| - |q| <= i < |accepted| ==> accepted[i] == q[i - (|accepted| - |q|)];
    NoneBefore(accepted, now - 60.0, |accepted| - |q|);
  }

  lemma AcceptTracks(limit: int, accepted: seq<real>, q: seq<real>, now: real)
    requires Tracks(limit, accepted, q, now) && |q| < limit
    ensures Tracks(limit, accepted + [now], q + [now], now)
  {
    var all := accepted + [now];
    forall i, j | 0 <= i < j < |all| && j - i >= limit ensures all[j] - all[i] > 60.0 {
      if j == |accepted| {
        assert i < |accepted| - |q|;
      }
    }
    assert q + [now] == all[|all| - |q + [now]|..];
  }

  /** In no closed minute are more requests accepted than the limit. */
  lemma {:induction false} WindowHoldsLimit(limit: int, accepted: seq<real>, t: real)
    requires Sorted(accepted) && Spread(limit, accepted) && (accepted != [] ==> limit >= 1)
    ensures InMinute(accepted, t) <= Max(0, limit)
    decreases |accepted|
  {
    if accepted != [] {
      var n := |accepted| - 1;
      if t <= accepted[n] <= t + 60.0 {
        if n >= limit {
          assert accepted[n] - accepted[n - limit] > 60.0;
          NoneBefore(accepted, t, n - limit + 1);
        } else {
          NoneBefore(accepted, t, 0);
        }
      } else {
        WindowHoldsLimit(limit, accepted[..n], t);
      }
    }
  }

  /** A client that waits exactly as long as it was told is turned away again, unless less than a second
    * was missing: the wait is rounded down, and a request exactly a minute old still counts. */
  lemma RetryAfterIsEnoughIff(limit: int, q: seq<real>, now: real)
    requires limit >= 1 && |q| == limit && now - 60.0 <= q[0] <= now && Sorted(q)
    ensures var later := now + RetryAfter(q[0], now) as real;
            |Recent(q, later)| < limit <==> 60.0 - (now - q[0]) < 1.0
  {
    RecentIsShorter(q[1..], now + RetryAfter(q[0], now) as real);
  }

  lemma {:induction false} RecentIsShorter(q: seq<real>, now: real)
    ensures |Recent(q, now)| <= |q|
    decreases |q|
  {
    if q != [] && q[0] < now - 60.0 {
      RecentIsShorter(q[1..], now);
    }
  }

  class SlidingWindowRateLimiter {
    const limit: int
    var hits: map<string, seq<real>>
    /** The times of all accepted requests, and of the last call. */
    ghost var accepted: map<string, seq<real>>
    ghost var clock: real

    ghost predicate Valid()
      reads this
    {
      && hits.Keys == accepted.Keys
      && forall k :: k in hits ==> Tracks(limit, accepted[k], hits[k], clock)
    }

    constructor (limit: int)
      ensures Valid() && this.limit == limit && accepted == map[]
    {
      this.limit := limit;
      hits, accepted, clock := map[], map[], 0.0;
    }

    /** A request is accepted exactly when fewer than the limit were accepted in the last minute. With a
      * limit that admits none, the look at the oldest request of an empty queue fails. */
    method Check(key: string, now: real) returns (outcome: Outcome)
      requires Valid() && clock <= now
      modifies this
      ensures Valid() && clock == now
      ensures var before := if key in old(accepted) then old(accepted)[key] else [];
              && (outcome.Accepted? <==> InMinute(before, now - 60.0) < limit)
              && (outcome.Crashed? <==> limit <= 0)
              && accepted == old(accepted)[key := if outcome.Accepted? then before + [now] else before]
      ensures outcome.Rejected? ==> 1 <= outcome.retryAfter <= 60
    {
      hide Tracks, InMinute;
      var q := if key in hits then hits[key] else [];
      ghost var before := if key in accepted then accepted[key] else [];
      NothingTracks(limit, now);
      assert key in hits ==> Tracks(limit, accepted[key], hits[key], clock);
      ghost var recent := Recent(q, now);
      RecentTracks(limit, before, q, if key in hits then clock else now, now);
      QueueCountsMinute(limit, before, recent, now);
      OthersTrack(now);
      while q != [] && q[0] < now - 60.0
        invariant Recent(q, now) == recent
        decreases |q|
      {
        q := q[1..];
      }
      clock := now;
      QueueWithinLimit(limit, before, q, now);
      if |q| >= limit {
        hits, accepted := hits[key := q], accepted[key := before];
        if q == [] {
          return Crashed;
        }
        return Rejected(RetryAfter(q[0], now));
      }
      AcceptTracks(limit, before, q, now);
      hits, accepted := hits[key := q + [now]], accepted[key := before + [now]];
      return Accepted;
    }

    lemma OthersTrack(now: real)
      requires Valid() && clock <= now
      ensures forall k :: k in hits ==> Tracks(limit, accepted[k], hits[k], now)
    {
      hide Spread, Sorted;
    }

    /** Whatever calls were made: no closed minute holds more accepted requests of one key than the limit. */
    lemma NoWindowHoldsMore(key: string, t: real)
      requires Valid() && key in accepted
      ensures InMinute(accepted[key], t) <= Max(0, limit)
    {
      WindowHoldsLimit(limit, accepted[key], t);
    }
  }

  lemma NothingTracks(limit: int, now: real)
    ensures Tracks(limit, [], [], now)
  {
  }

  lemma QueueWithinLimit(limit: int, accepted: seq<real>, q: seq<real>, now: real)
    requires Tracks(limit, accepted, q, now)
    ensures |q| <= Max(0, limit) && forall i :: 0 <= i < |q| ==> q[i] <= now
  {
    hide Spread, Sorted;
    assert forall i :: 0 <= i < |q| ==> q[i] == accepted[|accepted| - |q| + i];
  }
}
