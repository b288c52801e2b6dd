/** The in-memory limiter of login failures (internal/auth/throttle.go). Times are integers on
    one clock; a zero `blockedUntil` of the source is None here. */
module LoginThrottle {
  import opened Wrappers

  datatype Limits = Limits(max: int, window: int, lockout: int) {
    predicate Proper() { 0 < max && 0 < window && 0 < lockout }
  }

  datatype Entry = Entry(failures: nat, windowStart: int, blockedUntil: Option<int>)

  const PRUNE_THRESHOLD := 1000
  const MAX_ENTRIES := 100000

  predicate Expired(e: Entry, l: Limits, now: int) {
    now - e.windowStart > l.window && (e.blockedUntil.None? || now > e.blockedUntil.value)
  }

  predicate Blocked(e: Option<Entry>, now: int) {
    e.Some? && e.value.blockedUntil.Some? && now < e.value.blockedUntil.value
  }

  /** The entry a failure works on: a fresh one when there is none or its window has passed. */
  function Current(e: Option<Entry>, l: Limits, now: int): Entry {
    if e.None? || now - e.value.windowStart > l.window then Entry(0, now, None) else e.value
  }

  function AfterFailure(e: Option<Entry>, l: Limits, now: int): Entry {
    var c := Current(e, l, now);
    if c.failures + 1 >= l.max then Entry(0, now, Some(now + l.lockout)) else c.(failures := c.failures + 1)
  }

  /** The lockout that a failure reports: only the one that blocks the key reports any. */
  function Lockout(e: Option<Entry>, l: Limits, now: int): int {
    if Current(e, l, now).failures + 1 >= l.max then l.lockout else 0
  }

  /** What Allow answers: permitted, or how long the lockout still lasts. */
  function Answer(e: Option<Entry>, now: int): (bool, int) {
    if Blocked(e, now) then (false, e.value.blockedUntil.value - now) else (true, 0)
  }

  type Entries = map<string, Entry>

  function Lookup(m: Entries, key: string): Option<Entry> {
    if key in m then Some(m[key]) else None
  }

  function WithoutExpired(m: Entries, l: Limits, now: int): Entries {
    map k | k in m && !Expired(m[k], l, now) :: m[k]
  }

  class Throttle {
    var entries: Entries
    const limits: Limits

    /** Limits that make no sense are replaced by the defaults: 5 failures, 5 and 15 minutes. */
    constructor (max: int, window: int, lockout: int)
      ensures entries == map[] && limits.Proper()
      ensures limits.max == (if max <= 0 then 5 else max)
        && limits.window == (if window <= 0 then 300 else window)
        && limits.lockout == (if lockout <= 0 then 900 else lockout)
    {
      entries := map[];
      limits := Limits(if max <= 0 then 5 else max, if window <= 0 then 300 else window,
                       if lockout <= 0 then 900 else lockout);
    }

    method Allow(key: string, now: int) returns (ok: bool, wait: int)
      modifies this
      ensures (ok, wait) == Answer(Lookup(old(entries), key), now)
      ensures !ok <==>
        key in old(entries) && old(entries)[key].blockedUntil.Some? && now < old(entries)[key].blockedUntil.value
      ensures wait == if ok then 0 else old(entries)[key].blockedUntil.value - now
      ensures entries == if key in old(entries) && Expired(old(entries)[key], limits, now)
        then old(entries) - {key} else old(entries)
    {
      if key !in entries {
        return true, 0;
      }
      var e := entries[key];
      if e.blockedUntil.Some? && now < e.blockedUntil.value {
        return false, e.blockedUntil.value - now;
      }
      if now - e.windowStart > limits.window && (e.blockedUntil.None? || now > e.blockedUntil.value) {
        entries := entries - {key};
      }
      return true, 0;
    }

    method Failure(key: string, now: int) returns (lockout: int)
      modifies this
      ensures lockout == Lockout(Lookup(AfterCleanup(old(entries), limits, now), key), limits, now)
      ensures entries == var m := AfterCleanup(old(entries), limits, now);
                         m[key := AfterFailure(Lookup(m, key), limits, now)]
      ensures key in entries && (lockout == 0 || lockout == limits.lockout)
      ensures |old(entries)| < 1000 ==>
        entries == old(entries)[key := entries[key]]
        && var start := if key !in old(entries) || now - old(entries)[key].windowStart > limits.window
                        then Entry(0, now, None) else old(entries)[key];
           if start.failures + 1 >= limits.max
           then entries[key] == Entry(0, now, Some(now + limits.lockout)) && lockout == limits.lockout
           else entries[key] == start.(failures := start.failures + 1) && lockout == 0
      ensures 1000 <= |old(entries)| < 100000 ==>
        forall k :: k != key ==>
          (k in entries <==>
             k in old(entries)
             && !(now - old(entries)[k].windowStart > limits.window
                  && (old(entries)[k].blockedUntil.None? || now > old(entries)[k].blockedUntil.value)))
      ensures forall k :: k in entries && k != key ==> k in old(entries) && entries[k] == old(entries)[k]
    {
      CleanUp(now);
      if key !in entries || now - entries[key].windowStart > limits.window {
        entries := entries[key := Entry(0, now, None)];
      }
      var e := entries[key];
      e := e.(failures := e.failures + 1);
      lockout := 0;
      if e.failures >= limits.max {
        e := Entry(0, now, Some(now + limits.lockout));
        lockout := limits.lockout;
      }
      entries := entries[key := e];
    }

    /** The opportunistic clean-up of a failure: from 1000 entries on the expired ones go, and a table that
        still has 100000 is emptied. */
    method CleanUp(now: int)
      modifies this
      ensures entries == AfterCleanup(old(entries), limits, now)
      ensures |old(entries)| < 1000 ==> entries == old(entries)
      ensures |entries| < 100000
      ensures 1000 <= |old(entries)| < 100000 ==>
        forall k :: k in entries <==>
          k in old(entries)
          && !(now - old(entries)[k].windowStart > limits.window
               && (old(entries)[k].blockedUntil.None? || now > old(entries)[k].blockedUntil.value))
      ensures entries == map[] || |old(entries)| < 1000
        || forall k :: k in old(entries) && k !in entries ==> now - old(entries)[k].windowStart > limits.window
      ensures forall k :: k in entries ==> k in old(entries) && entries[k] == old(entries)[k]
    {
      if |entries| >= PRUNE_THRESHOLD {
        ClearExpired(now);
        SubmapIsSmaller(entries, old(entries));
        if |entries| >= MAX_ENTRIES {
          entries := map[];
        }
      }
    }

    method Reset(key: string)
      modifies this
      ensures entries == old(entries) - {key}
    {
      entries := entries - {key};
    }

    method Prune(now: int) returns (evicted: nat)
      modifies this
      ensures entries == WithoutExpired(old(entries), limits, now) && evicted == |old(entries)| - |entries|
      ensures forall k :: k in entries <==>
        k in old(entries)
        && !(now - old(entries)[k].windowStart > limits.window
             && (old(entries)[k].blockedUntil.None? || now > old(entries)[k].blockedUntil.value))
    {
      var before := entries;
      ClearExpired(now);
      SubmapIsSmaller(entries, before);
      evicted := |before| - |entries|;
    }

    method ClearExpired(now: int)
      modifies this
      ensures entries == WithoutExpired(old(entries), limits, now)
    {
      var left := entries.Keys;
      ghost var before := entries;
      while left != {}
        invariant left <= before.Keys
        invariant entries == map k | k in before && (k in left || !Expired(before[k], limits, now)) :: before[k]
      {
        var k :| k in left;
        var e := entries[k];
        if (e.blockedUntil.None? || now > e.blockedUntil.value) && now - e.windowStart > limits.window {
          entries := entries - {k};
        }
        left := left - {k};
      }
    }
  }

  lemma SubmapIsSmaller(a: Entries, b: Entries)
    requires a.Keys <= b.Keys
    ensures |a| <= |b|
  {
    assert |b.Keys| == |a.Keys| + |b.Keys - a.Keys|;
  }

  /** The opportunistic cleanup of a failure: expired entries go, and a table that is still full
      is emptied. */
  function AfterCleanup(m: Entries, l: Limits, now: int): Entries {
    if |m| < PRUNE_THRESHOLD then m
    else if |WithoutExpired(m, l, now)| >= MAX_ENTRIES then map[]
    else WithoutExpired(m, l, now)
  }
}
