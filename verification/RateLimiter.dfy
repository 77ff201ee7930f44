/** The sliding-window limiter (joker/data/options_rate_limit.py). */
module RateLimiter {

  /** How many of the listed instants lie in [from, until). */
  function CountIn(ts: seq<real>, from: real, until: real): nat {
    if ts == [] then 0
    else CountIn(ts[..|ts| - 1], from, until) + (if from <= ts[|ts| - 1] < until then 1 else 0)
  }

  function Recent(ts: seq<real>, cutoff: real): seq<real> {
    if ts == [] then []
    else
      var rest, last := Recent(ts[..|ts| - 1], cutoff), ts[|ts| - 1];
      if last > cutoff then rest + [last] else rest
  }

  /** No half-open window of the given width holds more than `limit` of the instants. */
  ghost predicate Bounded(ts: seq<real>, limit: int, width: real) {
    forall from: real :: InWindow(ts, from, width) <= Allowed(limit)
  }

  function InWindow(ts: seq<real>, from: real, width: real): nat {
    CountIn(ts, from, from + width)
  }

  function Allowed(limit: int): nat {
    if limit > 0 then limit else 0
  }

  lemma {:induction false} RecentOfRecent(ts: seq<real>, cutoff: real, later: real)
    requires later >= cutoff
    ensures Recent(Recent(ts, cutoff), later) == Recent(ts, later)
  {
    if ts != [] {
      var rest, last := Recent(ts[..|ts| - 1], cutoff), ts[|ts| - 1];
      RecentOfRecent(ts[..|ts| - 1], cutoff, later);
      if last > cutoff {
        assert (rest + [last])[..|rest|] == rest;
      }
    }
  }

  lemma RecentAppend(ts: seq<real>, t: real, cutoff: real)
    ensures Recent(ts + [t], cutoff) == Recent(ts, cutoff) + (if t > cutoff then [t] else [])
  {
    assert (ts + [t])[..|ts|] == ts;
  }

  lemma CountAppend(ts: seq<real>, t: real, from: real, until: real)
    ensures CountIn(ts + [t], from, until) == CountIn(ts, from, until) + (if from <= t < until then 1 else 0)
  {
    assert (ts + [t])[..|ts|] == ts;
  }

  /** Whatever lies in a window that reaches past `cutoff` by its start is recent. */
  lemma {:induction false} WindowIsRecent(ts: seq<real>, from: real, until: real, cutoff: real)
    requires from > cutoff
    ensures CountIn(ts, from, until) <= |Recent(ts, cutoff)|
  {
    if ts != [] {
      WindowIsRecent(ts[..|ts| - 1], from, until, cutoff);
    }
  }

  /** Granting when fewer than the limit are recent keeps every window bounded. */
  lemma GrantKeepsBound(ts: seq<real>, now: real, limit: int, width: real)
    requires Bounded(ts, limit, width) && |Recent(ts, now - width)| < limit
    ensures Bounded(ts + [now], limit, width)
  {
    forall from: real ensures InWindow(ts + [now], from, width) <= Allowed(limit) {
      CountAppend(ts, now, from, from + width);
      assert InWindow(ts, from, width) <= Allowed(limit);
      if from <= now < from + width {
        WindowIsRecent(ts, from, from + width, now - width);
      }
    }
  }

  /** The grants over a whole history of requests. */
  function GrantsOver(nows: seq<real>, limit: int, width: real): seq<real> {
    if nows == [] then []
    else
      var before, now := GrantsOver(nows[..|nows| - 1], limit, width), nows[|nows| - 1];
      if |Recent(before, now - width)| < limit then before + [now] else before
  }

  /** Whatever the history, no window of the width ever holds more than the limit. */
  lemma {:induction false} EveryWindowIsBounded(nows: seq<real>, limit: int, width: real)
    ensures Bounded(GrantsOver(nows, limit, width), limit, width)
  {
    if nows == [] {
      assert forall from: real :: InWindow([], from, width) == 0;
    } else {
      var before, now := GrantsOver(nows[..|nows| - 1], limit, width), nows[|nows| - 1];
      EveryWindowIsBounded(nows[..|nows| - 1], limit, width);
      if |Recent(before, now - width)| < limit {
        GrantKeepsBound(before, now, limit, width);
      }
    }
  }

  class SlidingWindow {
    const maxRequests: int
    const windowSeconds: real
    var timestamps: seq<real>
    /** Every grant ever made, and the last clock reading if there was one. */
    ghost var granted: seq<real>
    ghost var asked: bool
    ghost var lastNow: real

    constructor (maxRequests: int, windowSeconds: real)
      ensures this.maxRequests == maxRequests && this.windowSeconds == windowSeconds
      ensures granted == [] && !asked && Valid()
    {
      this.maxRequests, this.windowSeconds := maxRequests, windowSeconds;
      timestamps, granted, asked, lastNow := [], [], false, 0.0;
    }

    /** From the last cutoff on, what is kept answers for the whole history, which is bounded. */
    ghost predicate Valid()
      reads this
    {
      && Bounded(granted, maxRequests, windowSeconds)
      && (!asked ==> timestamps == granted == [])
      && (asked ==> forall cutoff: real :: cutoff >= lastNow - windowSeconds ==>
            Recent(timestamps, cutoff) == Recent(granted, cutoff))
    }

    /**
     Grants the request exactly when, in the whole history, fewer than the limit were granted
     after `now - windowSeconds`. The clock is monotone.
     */
    method Acquire(now: real) returns (ok: bool)
      requires Valid() && (asked ==> lastNow <= now)
      modifies this
      ensures Valid() && asked && lastNow == now
      ensures ok <==> |Recent(old(granted), now - windowSeconds)| < maxRequests
      ensures granted == if ok then old(granted) + [now] else old(granted)
    {
      var cutoff := now - windowSeconds;
      ghost var kept := timestamps;
      Discard(cutoff);
      assert timestamps == Recent(granted, cutoff);
      forall c: real | c >= cutoff ensures Recent(timestamps, c) == Recent(granted, c) {
        RecentOfRecent(granted, cutoff, c);
      }
      asked, lastNow := true, now;
      if |timestamps| >= maxRequests {
        return false;
      }
      GrantKeepsBound(granted, now, maxRequests, windowSeconds);
      forall c: real | c >= cutoff ensures Recent(timestamps + [now], c) == Recent(granted + [now], c) {
        RecentAppend(timestamps, now, c);
        RecentAppend(granted, now, c);
      }
      timestamps, granted := timestamps + [now], granted + [now];
      ok := true;
    }

    method Discard(cutoff: real)
      modifies this`timestamps
      ensures timestamps == Recent(old(timestamps), cutoff)
    {
      var kept: seq<real> := [];
      for i := 0 to |timestamps|
        invariant kept == Recent(timestamps[..i], cutoff)
      {
        assert timestamps[..i + 1][..i] == timestamps[..i];
        if timestamps[i] > cutoff {
          kept := kept + [timestamps[i]];
        }
      }
      assert timestamps[..|timestamps|] == timestamps;
      timestamps := kept;
    }
  }
}
