/** What the login limiter guarantees over whole runs: pruning that nobody can notice, a bound
    on the failures of one key in any window, and what emptying a full table may do. */
module ThrottleRuns {
  import opened Wrappers
  import opened LoginThrottle

  datatype Op = AllowOp(key: string) | FailureOp(key: string) | ResetOp(key: string) | PruneOp

  datatype Event = Event(op: Op, at: int)

  datatype Reply = Permit(ok: bool, wait: int) | Recorded(lockout: int) | Nothing

  // ---------------------------------------------------------------- pruning is invisible

  /** The limiter as written, one call. */
  function Real(m: Entries, l: Limits, e: Event): (Entries, Reply) {
    match e.op
    case AllowOp(k) =>
      var a := Answer(Lookup(m, k), e.at);
      (if k in m && Expired(m[k], l, e.at) then m - {k} else m, Permit(a.0, a.1))
    case FailureOp(k) =>
      var c := AfterCleanup(m, l, e.at);
      (c[k := AfterFailure(Lookup(c, k), l, e.at)], Recorded(Lockout(Lookup(c, k), l, e.at)))
    case ResetOp(k) => (m - {k}, Nothing)
    case PruneOp => (WithoutExpired(m, l, e.at), Nothing)
  }

  /** A limiter that never deletes an entry because it has expired, nor empties its table. */
  function Ideal(m: Entries, l: Limits, e: Event): (Entries, Reply) {
    match e.op
    case AllowOp(k) => var a := Answer(Lookup(m, k), e.at); (m, Permit(a.0, a.1))
    case FailureOp(k) => (m[k := AfterFailure(Lookup(m, k), l, e.at)], Recorded(Lockout(Lookup(m, k), l, e.at)))
    case ResetOp(k) => (m - {k}, Nothing)
    case PruneOp => (m, Nothing)
  }

  function RealReplies(m: Entries, l: Limits, events: seq<Event>): seq<Reply>
    decreases events
  {
    if events == [] then [] else [Real(m, l, events[0]).1] + RealReplies(Real(m, l, events[0]).0, l, events[1..])
  }

  function IdealReplies(m: Entries, l: Limits, events: seq<Event>): seq<Reply>
    decreases events
  {
    if events == [] then [] else [Ideal(m, l, events[0]).1] + IdealReplies(Ideal(m, l, events[0]).0, l, events[1..])
  }

  predicate Monotone(events: seq<Event>) {
    forall i, j :: 0 <= i < j < |events| ==> events[i].at <= events[j].at
  }

  /** No failure of the run finds the table still full after the expired entries are gone. */
  predicate NeverFull(m: Entries, l: Limits, events: seq<Event>)
    decreases events
  {
    events != [] ==>
      && (events[0].op.FailureOp? ==> |m| < PRUNE_THRESHOLD || |WithoutExpired(m, l, events[0].at)| < MAX_ENTRIES)
      && NeverFull(Real(m, l, events[0]).0, l, events[1..])
  }

  /** The two tables differ only in entries that have expired. */
  ghost predicate SameLive(actual: Entries, ideal: Entries, l: Limits, now: int) {
    forall k :: (k in actual ==> k in ideal && ideal[k] == actual[k])
             && (k in ideal && k !in actual ==> Expired(ideal[k], l, now))
  }

  /** An expired entry answers and counts exactly as no entry at all. */
  lemma ExpiredIsAbsent(e: Entry, l: Limits, now: int)
    requires Expired(e, l, now)
    ensures Answer(Some(e), now) == Answer(None, now)
    ensures AfterFailure(Some(e), l, now) == AfterFailure(None, l, now)
    ensures Lockout(Some(e), l, now) == Lockout(None, l, now)
  {
  }

  lemma StepKeepsSameLive(actual: Entries, ideal: Entries, l: Limits, e: Event)
    requires SameLive(actual, ideal, l, e.at)
    requires e.op.FailureOp? ==> |actual| < PRUNE_THRESHOLD || |WithoutExpired(actual, l, e.at)| < MAX_ENTRIES
    ensures Real(actual, l, e).1 == Ideal(ideal, l, e).1
    ensures SameLive(Real(actual, l, e).0, Ideal(ideal, l, e).0, l, e.at)
  {
    if e.op.FailureOp? {
      var c := AfterCleanup(actual, l, e.at);
      assert SameLive(c, ideal, l, e.at);
      if e.op.key in ideal && e.op.key !in c {
        ExpiredIsAbsent(ideal[e.op.key], l, e.at);
      }
    }
  }

  lemma SameLiveLater(actual: Entries, ideal: Entries, l: Limits, now: int, later: int)
    requires SameLive(actual, ideal, l, now) && now <= later
    ensures SameLive(actual, ideal, l, later)
  {
  }

  /** Below the hard cap the deletions in Allow, Failure and Prune cannot be noticed: the limiter
      answers every call of the run as one that never deletes an expired entry. */
  lemma {:induction false} PruningIsInvisible(actual: Entries, ideal: Entries, l: Limits, events: seq<Event>)
    requires Monotone(events) && NeverFull(actual, l, events)
    requires events != [] ==> SameLive(actual, ideal, l, events[0].at)
    ensures RealReplies(actual, l, events) == IdealReplies(ideal, l, events)
    decreases events
  {
    if events != [] {
      RestOfRun(actual, ideal, l, events);
      PruningIsInvisible(Real(actual, l, events[0]).0, Ideal(ideal, l, events[0]).0, l, events[1..]);
    }
  }

  lemma PruningIsInvisibleFromTheStart(l: Limits, events: seq<Event>)
    requires Monotone(events) && NeverFull(map[], l, events)
    ensures RealReplies(map[], l, events) == IdealReplies(map[], l, events)
  {
    PruningIsInvisible(map[], map[], l, events);
  }

  // ---------------------------------------------------------------- the rate bound

  /** The failures at times in the closed interval from lo to hi. */
  function Within(times: seq<int>, lo: int, hi: int): nat {
    if times == [] then 0
    else
      var last := times[|times| - 1];
      Within(times[..|times| - 1], lo, hi) + if lo <= last <= hi then 1 else 0
  }

  /** One key whose failures are all gated: each comes at a time when Allow permits it. */
  ghost predicate Gated(l: Limits, start: Option<Entry>, times: seq<int>) {
    times == [] ||
      var n := |times| - 1;
      Gated(l, start, times[..n]) && !Blocked(After(l, start, times[..n]), times[n])
      && (n > 0 ==> times[n - 1] <= times[n])
  }

  /** The entry of a key after failures at these times, when it was `start` before them. */
  function After(l: Limits, start: Option<Entry>, times: seq<int>): Option<Entry> {
    if times == [] then start
    else Some(AfterFailure(After(l, start, times[..|times| - 1]), l, times[|times| - 1]))
  }

  function EntryAfter(l: Limits, times: seq<int>): Option<Entry> {
    After(l, None, times)
  }

  /** At most this many failures of one key fit in any closed interval one window long. */
  function Bound(l: Limits): int {
    if l.max <= 1 then 1 else 2 * l.max - 2
  }

  lemma {:induction false} WithinSuffix(times: seq<int>, k: nat, lo: int, hi: int)
    requires k <= |times| && forall i :: 0 <= i < k ==> times[i] < lo
    ensures Within(times, lo, hi) <= |times| - k
  {
    if |times| > k {
      WithinSuffix(times[..|times| - 1], k, lo, hi);
    } else if times != [] {
      WithinSuffix(times[..|times| - 1], |times| - 1, lo, hi);
    }
  }

  lemma {:induction false} WithinShrinks(times: seq<int>, lo: int, hi: int, lo': int, hi': int)
    requires lo' <= lo && hi <= hi'
    ensures Within(times, lo, hi) <= Within(times, lo', hi')
  {
    if times != [] {
      WithinShrinks(times[..|times| - 1], lo, hi, lo', hi');
    }
  }

  lemma {:induction false} WithinSplits(times: seq<int>, k: nat, lo: int, hi: int)
    requires k <= |times|
    ensures Within(times, lo, hi) <= Within(times[..k], lo, hi) + |times| - k
  {
    if |times| > k {
      assert times[..|times| - 1][..k] == times[..k];
      WithinSplits(times[..|times| - 1], k, lo, hi);
    } else {
      assert times[..k] == times;
    }
  }

  predicate Sorted(times: seq<int>) {
    forall i, j :: 0 <= i < j < |times| ==> times[i] <= times[j]
  }

  /** Where a gated history stands. An open group is the last `failures` failures, all in the
      window that began with the first of them; what came before crowds at most max - 2
      failures into the window's length before it. After a block nothing is open. */
  ghost predicate Standing(l: Limits, times: seq<int>) {
    Sorted(times) &&
    match EntryAfter(l, times)
    case None => times == []
    case Some(e) =>
      && times != [] && e.windowStart <= times[|times| - 1]
      && if e.blockedUntil.Some? then
           e.failures == 0 && e.windowStart == times[|times| - 1] && e.blockedUntil.value == e.windowStart + l.lockout
         else
           && 0 < e.failures < l.max && e.failures <= |times|
           && times[|times| - e.failures] == e.windowStart
           && times[|times| - 1] - e.windowStart <= l.window
           && Within(times[..|times| - e.failures], e.windowStart - l.window, e.windowStart) <= l.max - 2
  }

  ghost predicate FitsFrom(l: Limits, times: seq<int>, lo: int) {
    Within(times, lo, lo + l.window) <= Bound(l)
  }

  ghost predicate Bounded(l: Limits, times: seq<int>) {
    forall lo :: FitsFrom(l, times, lo)
  }

  /** A failure that opens a new group: what lies in its window before it is at most max - 2. */
  lemma NewGroupIsClear(l: Limits, before: seq<int>, t: int)
    requires l.Proper() && l.window < l.lockout && Standing(l, before) && !Blocked(EntryAfter(l, before), t)
    requires before != [] ==> before[|before| - 1] <= t
    requires EntryAfter(l, before).None? || t - EntryAfter(l, before).value.windowStart > l.window
    ensures Within(before, t - l.window, t) <= if l.max <= 1 then 0 else l.max - 2
  {
    if before != [] {
      var e := EntryAfter(l, before).value;
      var k := if e.blockedUntil.Some? then |before| else |before| - e.failures + 1;
      WithinSuffix(before, k, t - l.window, t);
    }
  }

  lemma SameWindowContinues(l: Limits, before: seq<int>, t: int)
    requires l.Proper() && l.window < l.lockout && Standing(l, before) && !Blocked(EntryAfter(l, before), t)
    requires before != [] && before[|before| - 1] <= t && t - EntryAfter(l, before).value.windowStart <= l.window
    ensures EntryAfter(l, before).value.blockedUntil.None?
  {
  }

  lemma SortedAppends(times: seq<int>, t: int)
    requires Sorted(times) && (times != [] ==> times[|times| - 1] <= t)
    ensures Sorted(times + [t])
  {
  }

  /** A failure that opens a group, and one that joins the open group. */
  lemma OpeningStands(l: Limits, before: seq<int>, t: int)
    requires l.Proper() && Sorted(before + [t]) && EntryAfter(l, before + [t]) == Some(AfterFailure(None, l, t))
    requires Within(before, t - l.window, t) <= if l.max <= 1 then 0 else l.max - 2
    ensures Standing(l, before + [t])
  {
    assert (before + [t])[..|before|] == before;
  }

  lemma JoiningStands(l: Limits, before: seq<int>, t: int, e: Entry)
    requires l.Proper() && Standing(l, before) && Sorted(before + [t])
    requires EntryAfter(l, before) == Some(e) && e.blockedUntil.None? && t - e.windowStart <= l.window
    requires EntryAfter(l, before + [t]) == Some(AfterFailure(Some(e), l, t))
    ensures Standing(l, before + [t])
  {
    var times := before + [t];
    assert times[..|times| - (e.failures + 1)] == before[..|before| - e.failures];
  }

  /** One more gated failure, and the history still stands. */
  lemma OneMoreStands(l: Limits, before: seq<int>, t: int)
    requires l.Proper() && l.window < l.lockout && Standing(l, before) && !Blocked(EntryAfter(l, before), t)
    requires before != [] ==> before[|before| - 1] <= t
    ensures Standing(l, before + [t])
  {
    var e := EntryAfter(l, before);
    SortedAppends(before, t);
    AfterOneMore(l, None, before, t);
    if e.None? || t - e.value.windowStart > l.window {
      assert AfterFailure(e, l, t) == AfterFailure(None, l, t);
      NewGroupIsClear(l, before, t);
      OpeningStands(l, before, t);
    } else {
      SameWindowContinues(l, before, t);
      JoiningStands(l, before, t, e.value);
    }
  }

  lemma WithinAppends(times: seq<int>, t: int, lo: int, hi: int)
    ensures Within(times + [t], lo, hi) == Within(times, lo, hi) + if lo <= t <= hi then 1 else 0
  {
    assert (times + [t])[..|times|] == times;
  }

  lemma {:induction false} GatedStands(l: Limits, times: seq<int>)
    requires l.Proper() && l.window < l.lockout && Gated(l, None, times)
    ensures Standing(l, times) && Bounded(l, times)
  {
    if times != [] {
      var n := |times| - 1;
      var before, t := times[..n], times[n];
      GatedStands(l, before);
      OneMoreStands(l, before, t);
      assert before + [t] == times;
      forall lo
        ensures FitsFrom(l, times, lo)
      {
        LastFailureFits(l, before, t, lo);
        WithinAppends(before, t, lo, lo + l.window);
      }
    }
  }

  /** A failure that joins the open group: the group and what crowds before it stay within the bound. */
  lemma OpenGroupFits(l: Limits, before: seq<int>, t: int, e: Entry)
    requires l.Proper() && Standing(l, before) && EntryAfter(l, before) == Some(e) && e.blockedUntil.None?
    requires e.windowStart <= t <= e.windowStart + l.window
    ensures Within(before, t - l.window, t) + 1 <= Bound(l)
  {
    var k := |before| - e.failures;
    WithinSplits(before, k, t - l.window, t);
    assert forall i :: 0 <= i < k ==> before[i] <= e.windowStart;
    WithinUpTo(before[..k], t - l.window, t, e.windowStart);
    WithinShrinks(before[..k], t - l.window, e.windowStart, e.windowStart - l.window, e.windowStart);
  }

  /** Adding one gated failure keeps every interval within the bound. */
  lemma LastFailureFits(l: Limits, before: seq<int>, t: int, lo: int)
    requires l.Proper() && l.window < l.lockout && Standing(l, before) && Bounded(l, before)
    requires !Blocked(EntryAfter(l, before), t) && (before != [] ==> before[|before| - 1] <= t)
    ensures Within(before, lo, lo + l.window) + (if lo <= t <= lo + l.window then 1 else 0) <= Bound(l)
  {
    assert FitsFrom(l, before, lo);
    if lo <= t <= lo + l.window {
      WithinUpTo(before, lo, lo + l.window, t);
      WithinShrinks(before, lo, t, t - l.window, t);
      if EntryAfter(l, before).None? || t - EntryAfter(l, before).value.windowStart > l.window {
        NewGroupIsClear(l, before, t);
      } else {
        SameWindowContinues(l, before, t);
        OpenGroupFits(l, before, t, EntryAfter(l, before).value);
      }
    }
  }

  lemma {:induction false} WithinUpTo(times: seq<int>, lo: int, hi: int, top: int)
    requires forall i :: 0 <= i < |times| ==> times[i] <= top
    ensures Within(times, lo, hi) <= Within(times, lo, top)
  {
    if times != [] {
      WithinUpTo(times[..|times| - 1], lo, hi, top);
    }
  }

  /** With a lockout longer than the window, no closed interval one window long ever holds more
      than 2 * max - 2 gated failures of a key (one, when a single failure blocks). */
  lemma FailureRateIsBounded(l: Limits, times: seq<int>, lo: int)
    requires l.Proper() && l.window < l.lockout && Gated(l, None, times)
    ensures Within(times, lo, lo + l.window) <= Bound(l) <= 2 * l.max - 1
  {
    GatedStands(l, times);
    assert FitsFrom(l, times, lo);
  }

  /** The times of the failures of one key in a run. */
  function FailureTimes(events: seq<Event>, key: string): seq<int>
    decreases events
  {
    if events == [] then []
    else (if events[0].op == FailureOp(key) then [events[0].at] else []) + FailureTimes(events[1..], key)
  }

  /** Every failure of the key comes when the limiter, as it then is, would permit an attempt,
      and the key is never reset. */
  predicate GatedRun(m: Entries, l: Limits, events: seq<Event>, key: string)
    decreases events
  {
    events != [] ==>
      && events[0].op != ResetOp(key)
      && (events[0].op == FailureOp(key) ==> Answer(Lookup(m, key), events[0].at).0)
      && GatedRun(Real(m, l, events[0]).0, l, events[1..], key)
  }

  /** What one call of a gated run adds to the history of the key. */
  lemma GatedStep(actual: Entries, ideal: Entries, l: Limits, e: Event, key: string, before: seq<int>)
    requires SameLive(actual, ideal, l, e.at) && e.op != ResetOp(key)
    requires e.op == FailureOp(key) ==> Answer(Lookup(actual, key), e.at).0
    requires Lookup(ideal, key) == EntryAfter(l, before) && Gated(l, None, before)
    requires (before != [] ==> before[|before| - 1] <= e.at)
    ensures var after := before + FailureTimes([e], key);
      Gated(l, None, after) && Lookup(Ideal(ideal, l, e).0, key) == EntryAfter(l, after)
      && (after != [] ==> after[|after| - 1] <= e.at)
  {
    assert [e][1..] == [];
    if e.op == FailureOp(key) {
      assert (before + [e.at])[..|before|] == before;
      assert !Blocked(Lookup(ideal, key), e.at);
      assert before + FailureTimes([e], key) == before + [e.at];
    } else {
      assert before + FailureTimes([e], key) == before;
    }
  }

  lemma TimesSplit(events: seq<Event>, key: string)
    requires events != []
    ensures FailureTimes(events, key) == FailureTimes([events[0]], key) + FailureTimes(events[1..], key)
  {
    assert [events[0]][1..] == [];
  }

  lemma TimesSplitAfter(before: seq<int>, events: seq<Event>, key: string)
    requires events != []
    ensures before + FailureTimes(events, key)
      == before + FailureTimes([events[0]], key) + FailureTimes(events[1..], key)
  {
    TimesSplit(events, key);
  }

  /** After its first call a run is again one whose tables differ only in expired entries. */
  lemma RestOfRun(actual: Entries, ideal: Entries, l: Limits, events: seq<Event>)
    requires events != [] && Monotone(events) && NeverFull(actual, l, events)
    requires SameLive(actual, ideal, l, events[0].at)
    ensures var actual', ideal', rest := Real(actual, l, events[0]).0, Ideal(ideal, l, events[0]).0, events[1..];
      && Real(actual, l, events[0]).1 == Ideal(ideal, l, events[0]).1
      && Monotone(rest) && NeverFull(actual', l, rest)
      && (rest != [] ==> events[0].at <= rest[0].at && SameLive(actual', ideal', l, rest[0].at))
  {
    StepKeepsSameLive(actual, ideal, l, events[0]);
    if events[1..] != [] {
      SameLiveLater(Real(actual, l, events[0]).0, Ideal(ideal, l, events[0]).0, l, events[0].at, events[1].at);
    }
  }

  /** A gated run in progress: `before` are the failures of the key so far. */
  ghost predicate InProgress(
    actual: Entries, ideal: Entries, l: Limits, events: seq<Event>, key: string, before: seq<int>)
  {
    && Monotone(events) && NeverFull(actual, l, events) && GatedRun(actual, l, events, key)
    && Lookup(ideal, key) == EntryAfter(l, before) && Gated(l, None, before)
    && (events != [] ==>
          SameLive(actual, ideal, l, events[0].at) && (before != [] ==> before[|before| - 1] <= events[0].at))
  }

  lemma ProgressStep(actual: Entries, ideal: Entries, l: Limits, events: seq<Event>, key: string, before: seq<int>)
    requires events != [] && InProgress(actual, ideal, l, events, key, before)
    ensures InProgress(Real(actual, l, events[0]).0, Ideal(ideal, l, events[0]).0, l, events[1..], key,
                       before + FailureTimes([events[0]], key))
  {
    RestOfRun(actual, ideal, l, events);
    GatedStep(actual, ideal, l, events[0], key, before);
  }

  lemma {:induction false} GatedRunIsGated(
    actual: Entries, ideal: Entries, l: Limits, events: seq<Event>, key: string, before: seq<int>)
    requires InProgress(actual, ideal, l, events, key, before)
    ensures Gated(l, None, before + FailureTimes(events, key))
    decreases events
  {
    if events == [] {
      assert before + FailureTimes(events, key) == before;
    } else {
      var after, rest := before + FailureTimes([events[0]], key), events[1..];
      ProgressStep(actual, ideal, l, events, key, before);
      GatedRunIsGated(Real(actual, l, events[0]).0, Ideal(ideal, l, events[0]).0, l, rest, key, after);
      TimesSplitAfter(before, events, key);
    }
  }

  /** The bound for the limiter as written, under any mix of calls for any keys: below the hard
      cap, with a lockout longer than the window, no interval one window long holds more gated
      failures of a key than the bound. */
  lemma RunRateIsBounded(l: Limits, events: seq<Event>, key: string, lo: int)
    requires l.Proper() && l.window < l.lockout
    requires Monotone(events) && NeverFull(map[], l, events) && GatedRun(map[], l, events, key)
    ensures Within(FailureTimes(events, key), lo, lo + l.window) <= Bound(l)
  {
    GatedRunIsGated(map[], map[], l, events, key, []);
    assert [] + FailureTimes(events, key) == FailureTimes(events, key);
    FailureRateIsBounded(l, FailureTimes(events, key), lo);
  }

  lemma RepliesUnfold(m: Entries, l: Limits, events: seq<Event>, k: nat)
    requires k < |events|
    ensures RealReplies(m, l, events[k..])
      == [Real(m, l, events[k]).1] + RealReplies(Real(m, l, events[k]).0, l, events[k + 1..])
  {
    assert events[k..][1..] == events[k + 1..];
  }

  /** One call on a throttle object. */
  method Once(t: Throttle, event: Event) returns (reply: Reply)
    modifies t
    ensures (t.entries, reply) == Real(old(t.entries), t.limits, event)
  {
    reply := Nothing;
    match event.op {
      case AllowOp(key) =>
        var ok, wait := t.Allow(key, event.at);
        reply := Permit(ok, wait);
      case FailureOp(key) =>
        var lockout := t.Failure(key, event.at);
        reply := Recorded(lockout);
      case ResetOp(key) => t.Reset(key);
      case PruneOp =>
        var _ := t.Prune(event.at);
    }
  }

  /** A throttle object answers a run of calls as the limiter above does. */
  method Replay(t: Throttle, events: seq<Event>) returns (replies: seq<Reply>)
    modifies t
    ensures replies == RealReplies(old(t.entries), t.limits, events)
  {
    replies := [];
    for k := 0 to |events|
      invariant replies + RealReplies(t.entries, t.limits, events[k..]) == RealReplies(old(t.entries), t.limits, events)
    {
      RepliesUnfold(t.entries, t.limits, events, k);
      var reply := Once(t, events[k]);
      replies := replies + [reply];
    }
  }

  // ---------------------------------------------------------------- the bound is attained

  function Burst(times: seq<int>, t: int, n: nat): seq<int> {
    if n == 0 then times else Burst(times, t, n - 1) + [t]
  }

  lemma {:induction false} BurstShape(times: seq<int>, t: int, n: nat)
    ensures var r := Burst(times, t, n);
      |r| == |times| + n && times <= r && forall i :: |times| <= i < |r| ==> r[i] == t
  {
    if n > 0 {
      BurstShape(times, t, n - 1);
    }
  }

  lemma AfterOneMore(l: Limits, start: Option<Entry>, times: seq<int>, t: int)
    ensures After(l, start, times + [t]) == Some(AfterFailure(After(l, start, times), l, t))
  {
    assert (times + [t])[..|times|] == times;
  }

  lemma AfterOne(l: Limits, start: Option<Entry>, t: int)
    ensures After(l, start, [t]) == Some(AfterFailure(start, l, t))
  {
    assert [t][..0] == [];
  }

  lemma CountsOne(l: Limits, e: Entry, t: int)
    requires t - e.windowStart <= l.window && e.failures + 1 < l.max
    ensures AfterFailure(Some(e), l, t) == e.(failures := e.failures + 1)
  {
  }

  /** The entry after `n` more failures at one time. */
  function Repeated(l: Limits, start: Option<Entry>, t: int, n: nat): Option<Entry> {
    if n == 0 then start else Some(AfterFailure(Repeated(l, start, t, n - 1), l, t))
  }

  lemma {:induction false} BurstRepeats(l: Limits, start: Option<Entry>, times: seq<int>, t: int, n: nat)
    ensures After(l, start, Burst(times, t, n)) == Repeated(l, After(l, start, times), t, n)
  {
    if n > 0 {
      BurstRepeats(l, start, times, t, n - 1);
      AfterOneMore(l, start, Burst(times, t, n - 1), t);
    }
  }

  /** One failure and then `n` at another time. */
  lemma TwoGroups(l: Limits, start: Option<Entry>, t1: int, t2: int, n: nat)
    ensures After(l, start, Burst([t1], t2, n)) == Repeated(l, Some(AfterFailure(start, l, t1)), t2, n)
  {
    AfterOne(l, start, t1);
    BurstRepeats(l, start, [t1], t2, n);
  }

  /** Failures within the current window that stop short of the threshold only count. */
  lemma {:induction false} RepeatCounts(l: Limits, e: Entry, t: int, n: nat)
    requires t - e.windowStart <= l.window && e.failures + n < l.max
    ensures Repeated(l, Some(e), t, n) == Some(e.(failures := e.failures + n))
  {
    if n > 0 {
      RepeatCounts(l, e, t, n - 1);
      CountsOne(l, e.(failures := e.failures + n - 1), t);
    }
  }

  /** After the window they start over, and stay short of the threshold. */
  lemma {:induction false} RepeatStartsOver(l: Limits, start: Option<Entry>, t: int, n: nat)
    requires l.Proper() && 0 < n < l.max && (start.None? || t - start.value.windowStart > l.window)
    ensures Repeated(l, start, t, n) == Some(Entry(n, t, None))
  {
    if n > 1 {
      RepeatStartsOver(l, start, t, n - 1);
      CountsOne(l, Entry(n - 1, t, None), t);
    } else {
      assert Repeated(l, start, t, 0) == start;
    }
  }

  ghost predicate FreeAfter(l: Limits, start: Option<Entry>, t: int, k: nat) {
    !Blocked(Repeated(l, start, t, k), t)
  }

  lemma GatedAppends(l: Limits, start: Option<Entry>, times: seq<int>, t: int)
    requires Gated(l, start, times) && !Blocked(After(l, start, times), t) && (times != [] ==> times[|times| - 1] <= t)
    ensures Gated(l, start, times + [t])
  {
    assert (times + [t])[..|times|] == times;
  }

  /** A gated history that ends by `t`, `k` failures at `t` after one that left `entry`. */
  ghost predicate GrownTo(l: Limits, start: Option<Entry>, times: seq<int>, entry: Option<Entry>, t: int, k: nat) {
    && Gated(l, start, times) && (times != [] ==> times[|times| - 1] <= t)
    && After(l, start, times) == Repeated(l, entry, t, k)
  }

  lemma GrowsByOne(l: Limits, start: Option<Entry>, times: seq<int>, entry: Option<Entry>, t: int, k: nat)
    requires GrownTo(l, start, times, entry, t, k) && FreeAfter(l, entry, t, k)
    ensures GrownTo(l, start, times + [t], entry, t, k + 1)
  {
    GatedAppends(l, start, times, t);
    AfterOneMore(l, start, times, t);
  }

  lemma {:induction false} BurstGrows(
    l: Limits, start: Option<Entry>, times: seq<int>, entry: Option<Entry>, t: int, n: nat)
    requires GrownTo(l, start, times, entry, t, 0)
    requires forall k :: 0 <= k < n ==> FreeAfter(l, entry, t, k)
    ensures GrownTo(l, start, Burst(times, t, n), entry, t, n)
  {
    if n > 0 {
      BurstGrows(l, start, times, entry, t, n - 1);
      assert FreeAfter(l, entry, t, n - 1);
      GrowsByOne(l, start, Burst(times, t, n - 1), entry, t, n - 1);
    }
  }

  lemma BurstIsGated(l: Limits, start: Option<Entry>, times: seq<int>, t: int, n: nat)
    requires Gated(l, start, times) && (times != [] ==> times[|times| - 1] <= t)
    requires forall k :: 0 <= k < n ==> FreeAfter(l, After(l, start, times), t, k)
    ensures Gated(l, start, Burst(times, t, n))
  {
    BurstGrows(l, start, times, After(l, start, times), t, n);
  }

  lemma {:induction false} BurstWithin(times: seq<int>, t: int, n: nat, lo: int, hi: int)
    requires lo <= t <= hi
    ensures Within(Burst(times, t, n), lo, hi) == Within(times, lo, hi) + n
  {
    if n > 0 {
      var before := Burst(times, t, n - 1);
      BurstWithin(times, t, n - 1, lo, hi);
      assert (before + [t])[..|before|] == before;
    }
  }

  /** One failure, max - 2 more as its window ends, and max just after it. */
  function Worst(l: Limits): seq<int>
    requires l.Proper() && 1 < l.max
  {
    Burst(Burst([0], l.window, l.max - 2), l.window + 1, l.max)
  }

  lemma OneIsGated(l: Limits)
    ensures Gated(l, None, [0]) && Within([0], 1, 1 + l.window) == 0
    ensures Within([0], 0, 0 + l.window) == if l.window >= 0 then 1 else 0
  {
    assert [0][..0] == [];
    assert Gated(l, None, []) && Within([], 0, 0 + l.window) == 0 && Within([], 1, 1 + l.window) == 0;
  }

  lemma FirstGroupIsGated(l: Limits)
    requires l.Proper() && 1 < l.max
    ensures var first := Burst([0], l.window, l.max - 2);
      && Gated(l, None, first) && first[|first| - 1] <= l.window
      && EntryAfter(l, first) == Some(Entry(l.max - 1, 0, None))
  {
    var e, n, t := Entry(1, 0, None), l.max - 2, l.window;
    AfterOne(l, None, 0);
    OneIsGated(l);
    forall k | 0 <= k < n
      ensures FreeAfter(l, Some(e), t, k)
    {
      RepeatCounts(l, e, t, k);
    }
    BurstIsGated(l, None, [0], t, n);
    BurstRepeats(l, None, [0], t, n);
    RepeatCounts(l, e, t, n);
    BurstShape([0], t, n);
  }

  lemma FreeInTheSecondBurst(l: Limits, e: Entry, t: int, k: nat)
    requires l.Proper() && k < l.max && t - e.windowStart > l.window && e.blockedUntil.None?
    ensures FreeAfter(l, Some(e), t, k)
  {
    if k > 0 {
      RepeatStartsOver(l, Some(e), t, k);
    }
  }

  lemma WorstIsGated(l: Limits)
    requires l.Proper() && 1 < l.max
    ensures Gated(l, None, Worst(l))
  {
    var first, t := Burst([0], l.window, l.max - 2), l.window + 1;
    FirstGroupIsGated(l);
    BurstShape([0], l.window, l.max - 2);
    forall k | 0 <= k < l.max
      ensures FreeAfter(l, EntryAfter(l, first), t, k)
    {
      FreeInTheSecondBurst(l, Entry(l.max - 1, 0, None), t, k);
    }
    BurstIsGated(l, None, first, t, l.max);
  }

  ghost predicate Attains(l: Limits, times: seq<int>, lo: int) {
    Gated(l, None, times) && Within(times, lo, lo + l.window) == Bound(l)
  }

  /** The bound cannot be improved: for all proper limits some gated history attains it. */
  lemma BoundIsAttained(l: Limits)
    requires l.Proper()
    ensures exists times, lo :: Attains(l, times, lo)
  {
    if l.max == 1 {
      OneIsGated(l);
      assert Attains(l, [0], 0);
    } else {
      WorstIsGated(l);
      BurstWithin([0], l.window, l.max - 2, 1, 1 + l.window);
      BurstWithin(Burst([0], l.window, l.max - 2), l.window + 1, l.max, 1, 1 + l.window);
      OneIsGated(l);
      assert Attains(l, Worst(l), 1);
    }
  }

  // ---------------------------------------------------------------- counting and locking out

  lemma {:induction false} CountInOneWindow(l: Limits, times: seq<int>)
    requires l.Proper() && 0 < |times| < l.max && Sorted(times) && times[|times| - 1] - times[0] <= l.window
    ensures EntryAfter(l, times) == Some(Entry(|times|, times[0], None))
  {
    var n := |times| - 1;
    if n > 0 {
      CountInOneWindow(l, times[..n]);
      CountsOne(l, Entry(n, times[0], None), times[n]);
    } else {
      assert times[..0] == [] && EntryAfter(l, times[..0]) == None;
      assert AfterFailure(None, l, times[0]) == Entry(1, times[0], None);
    }
  }

  /** Fewer than max failures of a key within one window leave it permitted; the one that makes them max locks
      it out for exactly the lockout, and every answer in that time says how much of it is left. */
  lemma MaxFailuresLockOut(l: Limits, times: seq<int>, t: int)
    requires l.Proper() && 0 < |times| <= l.max && Sorted(times) && times[|times| - 1] - times[0] <= l.window
    ensures |times| < l.max ==> Answer(EntryAfter(l, times), t) == (true, 0)
    ensures |times| == l.max ==>
      var end := times[|times| - 1] + l.lockout;
      Answer(EntryAfter(l, times), t) == if t < end then (false, end - t) else (true, 0)
    ensures Lockout(EntryAfter(l, times[..|times| - 1]), l, times[|times| - 1])
      == if |times| < l.max then 0 else l.lockout
  {
    var n := |times| - 1;
    if n > 0 {
      CountInOneWindow(l, times[..n]);
    } else {
      assert times[..0] == [];
    }
    assert EntryAfter(l, times) == Some(AfterFailure(EntryAfter(l, times[..n]), l, times[n]));
  }

  // ---------------------------------------------------------------- emptying a full table

  ghost predicate Later(times: seq<int>, now: int, t: int) {
    Sorted(times) && (forall i :: 0 <= i < |times| ==> now <= times[i] <= t) && now <= t
  }

  /** Forgetting this entry now is never held against anybody: whatever failures follow, the key
      is permitted at every later time at which it would have been permitted with the entry. */
  ghost predicate OnlyMorePermissive(e: Entry, l: Limits, now: int) {
    forall times, t :: Later(times, now, t) && !Blocked(After(l, Some(e), times), t) ==>
      !Blocked(After(l, None, times), t)
  }

  lemma {:induction false} ForgettingIsUnnoticed(e: Entry, l: Limits, now: int, times: seq<int>)
    requires l.Proper() && times != [] && forall i :: 0 <= i < |times| ==> now <= times[i]
    requires l.max == 1 || now - e.windowStart > l.window
    ensures After(l, Some(e), times) == After(l, None, times)
  {
    if |times| > 1 {
      ForgettingIsUnnoticed(e, l, now, times[..|times| - 1]);
    } else {
      assert times[..0] == [];
    }
  }

  /** Failures that get the key blocked without the entry and leave it permitted with it: one
      as the window of the entry ends, and max - 1 just after. */
  function Trap(e: Entry, l: Limits): seq<int>
    requires l.Proper()
  {
    Burst([e.windowStart + l.window], e.windowStart + l.window + 1, l.max - 1)
  }

  /** Without the entry the last of the burst is failure number max of its window. */
  lemma RepeatBlocks(l: Limits, t1: int, t2: int)
    requires l.Proper() && l.max > 1 && t1 <= t2 <= t1 + l.window
    ensures Repeated(l, Some(Entry(1, t1, None)), t2, l.max - 1) == Some(Entry(0, t2, Some(t2 + l.lockout)))
  {
    RepeatCounts(l, Entry(1, t1, None), t2, l.max - 2);
    assert AfterFailure(Some(Entry(l.max - 1, t1, None)), l, t2) == Entry(0, t2, Some(t2 + l.lockout));
  }

  lemma TrapBlocksWithoutTheEntry(l: Limits, t1: int, t2: int)
    requires l.Proper() && l.max > 1 && t1 <= t2 <= t1 + l.window
    ensures After(l, None, Burst([t1], t2, l.max - 1)) == Some(Entry(0, t2, Some(t2 + l.lockout)))
  {
    TwoGroups(l, None, t1, t2, l.max - 1);
    RepeatBlocks(l, t1, t2);
  }

  lemma TrapPermitsWithTheEntry(e: Entry, l: Limits, t1: int, t2: int)
    requires l.Proper() && l.max > 1 && e.failures < l.max && t1 == e.windowStart + l.window && t2 == t1 + 1
    ensures !Blocked(After(l, Some(e), Burst([t1], t2, l.max - 1)), t1 + l.lockout)
  {
    var n := l.max - 1;
    TwoGroups(l, Some(e), t1, t2, n);
    if e.failures + 1 < l.max {
      RepeatStartsOver(l, Some(AfterFailure(Some(e), l, t1)), t2, n);
    } else {
      RepeatCounts(l, AfterFailure(Some(e), l, t1), t2, n);
    }
  }

  /** Clearing a full table can make the limiter less permissive later on. For a key it is
      harmless exactly when a single failure blocks anyway or the key's window has passed. */
  lemma FlushIsHarmlessExactlyWhen(e: Entry, l: Limits, now: int)
    requires l.Proper() && e.failures < l.max && e.windowStart <= now
    ensures OnlyMorePermissive(e, l, now) <==> l.max == 1 || now - e.windowStart > l.window
  {
    if l.max == 1 || now - e.windowStart > l.window {
      forall times, t | Later(times, now, t) && !Blocked(After(l, Some(e), times), t)
        ensures !Blocked(After(l, None, times), t)
      {
        if times != [] {
          ForgettingIsUnnoticed(e, l, now, times);
        }
      }
    } else {
      TrapTells(e, l, now);
    }
  }

  lemma TrapTells(e: Entry, l: Limits, now: int)
    requires l.Proper() && l.max > 1 && e.failures < l.max && e.windowStart <= now <= e.windowStart + l.window
    ensures var t := e.windowStart + l.window + l.lockout;
      Later(Trap(e, l), now, t) && !Blocked(After(l, Some(e), Trap(e, l)), t) && Blocked(After(l, None, Trap(e, l)), t)
  {
    var t1, t2 := e.windowStart + l.window, e.windowStart + l.window + 1;
    TrapBlocksWithoutTheEntry(l, t1, t2);
    TrapPermitsWithTheEntry(e, l, t1, t2);
    BurstIsLater(t1, t2, l.max - 1, now, t1 + l.lockout);
  }

  /** What a table holds for a key: a running count, or a lockout that began with the window and what was
      counted in that window since. */
  predicate Shaped(e: Entry, l: Limits) {
    if e.blockedUntil.Some? then e.failures < l.max && e.blockedUntil.value == e.windowStart + l.lockout
    else 0 < e.failures < l.max
  }

  ghost predicate AllShaped(m: Entries, l: Limits, now: int) {
    forall k :: k in m ==> Shaped(m[k], l) && m[k].windowStart <= now
  }

  lemma ShapesStay(m: Entries, l: Limits, e: Event)
    requires l.Proper() && AllShaped(m, l, e.at)
    ensures AllShaped(Real(m, l, e).0, l, e.at)
  {
    if e.op.FailureOp? {
      var before := AfterCleanup(m, l, e.at);
      var after := AfterFailure(Lookup(before, e.op.key), l, e.at);
      assert AllShaped(before, l, e.at) && Shaped(after, l);
    }
  }

  /** As OnlyMorePermissive, over the failures that the limiter with the entry lets through. */
  ghost predicate OnlyMorePermissiveWhenGated(e: Entry, l: Limits, now: int) {
    forall times, t :: Later(times, now, t) && Gated(l, Some(e), times) && !Blocked(After(l, Some(e), times), t) ==>
      !Blocked(After(l, None, times), t)
  }

  /** A running count that the next failure does not end, in a window that has not ended. */
  predicate CountMatters(e: Entry, l: Limits, now: int) {
    e.blockedUntil.None? && 1 <= e.failures <= l.max - 2 && now - e.windowStart <= l.window
  }

  /** With and without the entry the key stands the same, or the entry has just blocked it. */
  ghost predicate JustBlocked(with: Option<Entry>, without: Option<Entry>, l: Limits) {
    exists at :: with == Some(Entry(0, at, Some(at + l.lockout))) && without == Some(Entry(1, at, None))
  }

  lemma {:induction false} ForgettingHelps(e: Entry, l: Limits, now: int, times: seq<int>)
    requires l.Proper() && l.window < l.lockout && Shaped(e, l) && !CountMatters(e, l, now)
    requires times != [] && (forall i :: 0 <= i < |times| ==> now <= times[i]) && Gated(l, Some(e), times)
    ensures var with, without := After(l, Some(e), times), After(l, None, times);
      with == without || (1 < l.max && JustBlocked(with, without, l))
  {
    var n := |times| - 1;
    var before, t := times[..n], times[n];
    if n > 0 {
      ForgettingHelps(e, l, now, before);
    } else {
      assert AfterFailure(None, l, t) == if l.max == 1 then Entry(0, t, Some(t + l.lockout)) else Entry(1, t, None);
    }
  }

  /** The failures that show a difference: the trap, or, when the next failure blocks the key, that one and
      max - 1 more as its lockout ends within the window. */
  function GatedTrap(e: Entry, l: Limits): seq<int>
    requires l.Proper()
  {
    var t1 := e.windowStart + l.window;
    if e.failures + 1 < l.max then Trap(e, l) else Burst([t1], t1 + l.lockout, l.max - 1)
  }

  /** For the entries that a table can hold, and failures that were let through: with a lockout longer than
      the window, clearing a full table is harmless exactly when the entry is no running count that matters;
      with a shorter one, exactly when a single failure blocks anyway or the window has passed. */
  lemma GatedFlushIsHarmlessExactlyWhen(e: Entry, l: Limits, now: int)
    requires l.Proper() && Shaped(e, l) && e.windowStart <= now
    ensures OnlyMorePermissiveWhenGated(e, l, now) <==>
      if l.window < l.lockout then !CountMatters(e, l, now) else l.max == 1 || now - e.windowStart > l.window
  {
    if l.max == 1 || now - e.windowStart > l.window || (l.window < l.lockout && !CountMatters(e, l, now)) {
      forall times, t | Later(times, now, t) && Gated(l, Some(e), times) && !Blocked(After(l, Some(e), times), t)
        ensures !Blocked(After(l, None, times), t)
      {
        if times != [] {
          if l.window < l.lockout && !CountMatters(e, l, now) { ForgettingHelps(e, l, now, times); }
          else { ForgettingIsUnnoticed(e, l, now, times); }
        }
      }
    } else if e.failures + 1 < l.max {
      TrapShowsIt(e, l, now);
    } else {
      LockoutTrapShowsIt(e, l, now);
    }
  }

  /** A later time at which the key is permitted with the entry and not without it. */
  ghost predicate Shows(e: Entry, l: Limits, now: int, times: seq<int>, t: int) {
    && Later(times, now, t) && Gated(l, Some(e), times)
    && !Blocked(After(l, Some(e), times), t) && Blocked(After(l, None, times), t)
  }

  lemma BurstIsLater(t1: int, t2: int, n: nat, now: int, t: int)
    requires now <= t1 <= t2 <= t
    ensures Later(Burst([t1], t2, n), now, t)
  {
    BurstShape([t1], t2, n);
    var times := Burst([t1], t2, n);
    assert times[0] == [t1][0] == t1;
    assert forall i :: 1 <= i < |times| ==> times[i] == t2;
  }

  lemma TrapShowsIt(e: Entry, l: Limits, now: int)
    requires l.Proper() && Shaped(e, l) && e.failures + 1 < l.max && e.windowStart <= now <= e.windowStart + l.window
    requires e.blockedUntil.None? || l.lockout <= l.window
    ensures Shows(e, l, now, GatedTrap(e, l), e.windowStart + l.window + l.lockout)
  {
    TrapTells(e, l, now);
    TrapIsGated(e, l, e.windowStart + l.window, e.windowStart + l.window + 1);
  }

  lemma ShownBy(e: Entry, l: Limits, now: int, times: seq<int>, t: int, kept: Entry, forgotten: Entry)
    requires Later(times, now, t) && Gated(l, Some(e), times)
    requires After(l, Some(e), times) == Some(kept) && After(l, None, times) == Some(forgotten)
    requires !Blocked(Some(kept), t) && Blocked(Some(forgotten), t)
    ensures Shows(e, l, now, times, t)
  {
  }

  lemma LastFailureBlocks(e: Entry, l: Limits, t1: int, t2: int)
    requires e.failures + 1 == l.max && t1 == e.windowStart + l.window && t2 == t1 + l.lockout
    ensures AfterFailure(Some(e), l, t1) == Entry(0, t1, Some(t2))
  {
  }

  lemma LockoutTrapPermits(e: Entry, l: Limits, t1: int, t2: int, n: nat)
    requires e.failures + 1 == l.max == n + 1 && t1 == e.windowStart + l.window
    requires t2 == t1 + l.lockout <= t1 + l.window
    ensures After(l, Some(e), Burst([t1], t2, n)) == Some(Entry(n, t1, Some(t2)))
  {
    var blocked := Entry(0, t1, Some(t2));
    LastFailureBlocks(e, l, t1, t2);
    RepeatCounts(l, blocked, t2, n);
    assert Repeated(l, Some(blocked), t2, n) == Some(Entry(n, t1, Some(t2)));
    TwoGroups(l, Some(e), t1, t2, n);
  }

  lemma LockoutTrapShowsIt(e: Entry, l: Limits, now: int)
    requires l.Proper() && Shaped(e, l) && e.failures + 1 == l.max > 1 && l.lockout <= l.window
    requires e.windowStart <= now <= e.windowStart + l.window
    ensures Shows(e, l, now, GatedTrap(e, l), e.windowStart + l.window + l.lockout)
  {
    var t1, t2 := e.windowStart + l.window, e.windowStart + l.window + l.lockout;
    TrapBlocksWithoutTheEntry(l, t1, t2);
    LockoutTrapIsGated(e, l, t1, t2);
    LockoutTrapPermits(e, l, t1, t2, l.max - 1);
    BurstIsLater(t1, t2, l.max - 1, now, t2);
    var before, after := Entry(l.max - 1, t1, Some(t2)), Entry(0, t2, Some(t2 + l.lockout));
    ShownBy(e, l, now, Burst([t1], t2, l.max - 1), t2, before, after);
  }

  lemma LockoutTrapIsGated(e: Entry, l: Limits, t1: int, t2: int)
    requires l.Proper() && Shaped(e, l) && e.failures + 1 == l.max > 1 && t1 == e.windowStart + l.window
    requires t2 == t1 + l.lockout <= t1 + l.window
    ensures Gated(l, Some(e), Burst([t1], t2, l.max - 1))
  {
    GatedAppends(l, Some(e), [], t1);
    assert [] + [t1] == [t1];
    forall k | 0 <= k < l.max - 1
      ensures FreeAfter(l, Some(Entry(0, t1, Some(t2))), t2, k)
    {
      RepeatCounts(l, Entry(0, t1, Some(t2)), t2, k);
    }
    AfterOne(l, Some(e), t1);
    BurstIsGated(l, Some(e), [t1], t2, l.max - 1);
  }

  lemma TrapIsGated(e: Entry, l: Limits, t1: int, t2: int)
    requires l.Proper() && e.failures + 1 < l.max && (e.blockedUntil.Some? ==> e.blockedUntil.value <= t1)
    requires t1 == e.windowStart + l.window && t2 == t1 + 1
    ensures Gated(l, Some(e), Burst([t1], t2, l.max - 1))
  {
    GatedAppends(l, Some(e), [], t1);
    AfterOne(l, Some(e), t1);
    forall k | 0 <= k < l.max - 1
      ensures FreeAfter(l, After(l, Some(e), [t1]), t2, k)
    {
      if k > 0 {
        RepeatStartsOver(l, After(l, Some(e), [t1]), t2, k);
      }
    }
    assert [] + [t1] == [t1];
    BurstIsGated(l, Some(e), [t1], t2, l.max - 1);
  }
}
