/**
 * The fixed-window rate limiter for the public mock endpoints: a table
 * from requester key to the calls counted in its current window, and a
 * periodic sweep that forgets windows long expired. Times are
 * milliseconds, passed in.
 */
module RateLimiter {

  datatype Info = Info(count: int, resetTime: int)

  datatype Verdict = Verdict(allowed: bool, remaining: int, reset: int)

  /** The default `limit` and `windowMs` of `checkRateLimit`: a hundred calls a minute. */
  const DefaultLimit: int := 100
  const DefaultWindowMs: int := 60000
  /** How long past its reset time an entry is kept before a sweep may delete it; also the sweep period. */
  const SweepGraceMs: int := 300000

  /** The call opens a new window: no entry, or the old window has ended (strictly after its reset time). */
  predicate OpensWindow(table: map<string, Info>, key: string, now: int) {
    key !in table || now > table[key].resetTime
  }

  /** `checkRateLimit`: the new table and the answer. */
  function Transition(table: map<string, Info>, key: string, limit: int, windowMs: int, now: int): (r: (map<string, Info>, Verdict))
    ensures key in r.0 && r.1.reset == r.0[key].resetTime
    ensures forall k :: k != key ==> (k in r.0 <==> k in table) && (k in table ==> r.0[k] == table[k])
  {
    if OpensWindow(table, key, now) then
      (table[key := Info(1, now + windowMs)], Verdict(true, limit - 1, now + windowMs))
    else
      var info := table[key];
      if info.count >= limit then (table, Verdict(false, 0, info.resetTime))
      else
        var count := info.count + 1;
        (table[key := Info(count, info.resetTime)], Verdict(true, limit - count, info.resetTime))
  }

  /** A new window: allowed, counted once, resetting one window from now. */
  lemma NewWindow(table: map<string, Info>, key: string, limit: int, windowMs: int, now: int)
    requires OpensWindow(table, key, now)
    ensures var (t, v) := Transition(table, key, limit, windowMs, now);
      && v == Verdict(true, limit - 1, now + windowMs)
      && t[key] == Info(1, now + windowMs)
  {
  }

  /** A full window: denied with nothing remaining, and the table is left as it is. */
  lemma FullWindow(table: map<string, Info>, key: string, limit: int, windowMs: int, now: int)
    requires !OpensWindow(table, key, now) && table[key].count >= limit
    ensures Transition(table, key, limit, windowMs, now) == (table, Verdict(false, 0, table[key].resetTime))
  {
  }

  /** Room in the window: counted once more, the reset time kept. */
  lemma CountedInWindow(table: map<string, Info>, key: string, limit: int, windowMs: int, now: int)
    requires !OpensWindow(table, key, now) && table[key].count < limit
    ensures var (t, v) := Transition(table, key, limit, windowMs, now);
      && t[key] == Info(table[key].count + 1, table[key].resetTime)
      && v == Verdict(true, limit - t[key].count, table[key].resetTime)
  {
  }

  /** A call exactly at the reset time still belongs to the old window. */
  lemma ResetTimeIsInside(table: map<string, Info>, key: string, limit: int, windowMs: int)
    requires key in table && table[key].count >= limit
    ensures !Transition(table, key, limit, windowMs, table[key].resetTime).1.allowed
  {
  }

  /** Every stored count lies between one and the limit. */
  ghost predicate Bounded(table: map<string, Info>, limit: int) {
    forall k :: k in table ==> 1 <= table[k].count <= limit
  }

  /** With a limit of at least one, a check keeps every count within the limit. */
  lemma TransitionKeepsBounded(table: map<string, Info>, key: string, limit: int, windowMs: int, now: int)
    requires limit >= 1 && Bounded(table, limit)
    ensures Bounded(Transition(table, key, limit, windowMs, now).0, limit)
  {
  }

  /** The number of calls allowed when the same key checks in at the given times, in order. */
  function Allowances(table: map<string, Info>, key: string, limit: int, windowMs: int, times: seq<int>): nat
    decreases |times|
  {
    if times == [] then 0
    else
      var (t, v) := Transition(table, key, limit, windowMs, times[0]);
      (if v.allowed then 1 else 0) + Allowances(t, key, limit, windowMs, times[1..])
  }

  function Max0(n: int): nat {
    if n > 0 then n else 0
  }

  /** Within one window, no more calls are allowed than the window has room for. */
  lemma {:induction false} WindowBudget(table: map<string, Info>, key: string, limit: int, windowMs: int, times: seq<int>)
    requires key in table
    requires forall i :: 0 <= i < |times| ==> times[i] <= table[key].resetTime
    ensures Allowances(table, key, limit, windowMs, times) <= Max0(limit - table[key].count)
    decreases |times|
  {
    if times != [] {
      var (t, v) := Transition(table, key, limit, windowMs, times[0]);
      assert t[key].resetTime == table[key].resetTime;
      WindowBudget(t, key, limit, windowMs, times[1..]);
    }
  }

  /** Over a window opened by the first call, at most `limit` calls are allowed, for a limit of at least one. */
  lemma AtMostLimitPerWindow(table: map<string, Info>, key: string, limit: int, windowMs: int, times: seq<int>)
    requires limit >= 1 && |times| >= 1 && OpensWindow(table, key, times[0])
    requires forall i :: 1 <= i < |times| ==> times[i] <= times[0] + windowMs
    ensures Allowances(table, key, limit, windowMs, times) <= limit
  {
    var (t, v) := Transition(table, key, limit, windowMs, times[0]);
    WindowBudget(t, key, limit, windowMs, times[1..]);
  }

  /** At the default parameters of `checkRateLimit`, a minute opened by a call admits at most a hundred calls. */
  lemma DefaultsAllowHundredPerMinute(table: map<string, Info>, key: string, times: seq<int>)
    requires |times| >= 1 && OpensWindow(table, key, times[0])
    requires forall i :: 1 <= i < |times| ==> times[i] <= times[0] + DefaultWindowMs
    ensures Allowances(table, key, DefaultLimit, DefaultWindowMs, times) <= 100
  {
    AtMostLimitPerWindow(table, key, DefaultLimit, DefaultWindowMs, times);
  }

  /** An entry a sweep at `now` deletes. */
  predicate Stale(info: Info, now: int) {
    now > info.resetTime + SweepGraceMs
  }

  /** The table after a sweep at `now`. */
  function Expire(table: map<string, Info>, now: int): (r: map<string, Info>)
    ensures forall k :: k in r <==> k in table && !Stale(table[k], now)
    ensures forall k :: k in r ==> r[k] == table[k]
  {
    map k | k in table && !Stale(table[k], now) :: table[k]
  }

  /** A sweep never deletes an entry whose window is still open. */
  lemma SweepKeepsOpenWindows(table: map<string, Info>, now: int, key: string)
    requires key in table && now <= table[key].resetTime
    ensures key in Expire(table, now) && Expire(table, now)[key] == table[key]
  {
  }

  /** The module-level `rateLimitMap`. */
  class Limiter {
    var entries: map<string, Info>

    constructor ()
      ensures entries == map[]
    {
      entries := map[];
    }

    /** `checkRateLimit` at time `now`. */
    method Check(key: string, limit: int, windowMs: int, now: int) returns (v: Verdict)
      modifies this
      ensures (entries, v) == Transition(old(entries), key, limit, windowMs, now)
    {
      if key !in entries || now > entries[key].resetTime {
        var newInfo := Info(1, now + windowMs);
        entries := entries[key := newInfo];
        return Verdict(true, limit - 1, newInfo.resetTime);
      }
      var info := entries[key];
      if info.count >= limit {
        return Verdict(false, 0, info.resetTime);
      }
      entries := entries[key := info.(count := info.count + 1)];
      return Verdict(true, limit - entries[key].count, info.resetTime);
    }

    /** The body of the sweep timer, run at time `now`: each stale entry is deleted. */
    method Sweep(now: int)
      modifies this
      ensures entries == Expire(old(entries), now)
    {
      var pending := entries.Keys;
      while pending != {}
        invariant pending <= old(entries).Keys
        invariant forall k :: k in entries <==> k in old(entries) && (k in pending || !Stale(old(entries)[k], now))
        invariant forall k :: k in entries ==> entries[k] == old(entries)[k]
        decreases pending
      {
        var k :| k in pending;
        if now > entries[k].resetTime + SweepGraceMs {
          entries := entries - {k};
        }
        pending := pending - {k};
      }
    }
  }
}
