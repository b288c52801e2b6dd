/** Per-server bookkeeping of the two idle managers: the second-level claim and the clock of
    the current uninterrupted idle streak (internal/docker/idle.go). */
module IdleTracker {
  import opened Wrappers
  import opened ServerTransitions

  /** What the clock has been told about one server, in order. */
  datatype Sighting = Idle(at: int) | Active

  /** When the idle streak that is still running was first seen. */
  function StreakStart(history: seq<Sighting>): Option<int> {
    if history == [] then None
    else
      var last := history[|history| - 1];
      if last.Active? then None
      else
        var before := StreakStart(history[..|history| - 1]);
        if before.Some? then before else Some(last.at)
  }

  ghost predicate StreakBeginsAt(history: seq<Sighting>, i: int, start: int) {
    && 0 <= i < |history| && history[i] == Idle(start)
    && (forall k :: i <= k < |history| ==> history[k].Idle?)
    && (i == 0 || history[i - 1].Active?)
  }

  /** The streak is real: it began with a sighting at that time, has been idle at every
      sighting since, and was preceded by activity or by nothing. */
  lemma {:induction false} StreakIsUninterrupted(history: seq<Sighting>)
    requires StreakStart(history).Some?
    ensures exists i :: StreakBeginsAt(history, i, StreakStart(history).value)
  {
    var front := history[..|history| - 1];
    if StreakStart(front).Some? {
      StreakIsUninterrupted(front);
      var i :| StreakBeginsAt(front, i, StreakStart(front).value);
      assert forall k :: 0 <= k < |front| ==> history[k] == front[k];
      assert StreakBeginsAt(history, i, StreakStart(history).value);
    } else {
      assert StreakBeginsAt(history, |front|, StreakStart(history).value);
    }
  }

  /** A streak runs exactly when the last sighting was idle. */
  lemma StreakRunsExactlyWhenIdle(history: seq<Sighting>)
    ensures StreakStart(history).Some? <==> history != [] && history[|history| - 1].Idle?
  {
  }

  /** The row fields and the player count that a sweep reads. */
  datatype ServerView = ServerView(
    id: string, optedIn: bool, running: bool, hasContainer: bool, players: int, timeoutMinutes: int)

  predicate LooksIdle(v: ServerView) {
    v.optedIn && v.running && v.hasContainer && v.players <= 0
  }

  function TimeoutSeconds(v: ServerView, defaultMinutes: nat): int {
    60 * if v.timeoutMinutes <= 0 then defaultMinutes else v.timeoutMinutes
  }

  predicate Due(v: ServerView, defaultMinutes: nat, streak: Option<int>, now: int) {
    LooksIdle(v) && streak.Some? && now - streak.value >= TimeoutSeconds(v, defaultMinutes)
  }

  class Tracker {
    const table: TransitionTable
    var since: map<string, int>
    var inflight: map<string, Transition>
    ghost var sightings: map<string, seq<Sighting>>

    constructor (table: TransitionTable)
      ensures this.table == table && since == map[] && inflight == map[] && sightings == map[]
    {
      this.table := table;
      since, inflight, sightings := map[], map[], map[];
    }

    ghost function History(id: string): seq<Sighting>
      reads this
    {
      HistoryIn(sightings, id)
    }

    /** The clock shows, for every server, the start of its running idle streak. */
    ghost predicate ClockValid()
      reads this
    {
      forall id :: (if id in since then Some(since[id]) else None) == StreakStart(History(id))
    }

    /** Every recorded claim is the current owner of its server. */
    ghost predicate ClaimsValid()
      reads `inflight, table, set id | id in inflight :: inflight[id]
    {
      SoundRegistry(table.registry)
      && forall id :: id in inflight ==> inflight[id].serverId == id && table.Owns(inflight[id])
    }

    /** Nobody owns the server and this tracker has no entry for it. */
    predicate Free(serverId: string)
      reads `inflight, table
    {
      CanClaim(table.registry, serverId) && serverId !in inflight
    }

    /** Claims a server, first globally and then in this tracker. */
    method TryBegin(serverId: string) returns (ok: bool)
      requires SoundRegistry(table.registry)
      modifies this`inflight, table
      ensures SoundRegistry(table.registry)
      ensures old(ClaimsValid()) ==> ClaimsValid() && ok == CanClaim(old(table.registry), serverId)
      ensures ok == old(Free(serverId))
      ensures ok ==> table.registry == Claimed(old(table.registry), serverId)
      ensures ok ==>
        serverId in inflight && inflight == old(inflight)[serverId := inflight[serverId]] && fresh(inflight[serverId])
      ensures ok ==> table.Owns(inflight[serverId]) && inflight[serverId].serverId == serverId
      ensures !ok ==> inflight == old(inflight) && table.registry == ClaimAndRelease(old(table.registry), serverId)
    {
      var transition := table.TryBeginServerTransition(serverId);
      if transition == null {
        return false;
      }
      if serverId in inflight {
        assert !old(ClaimsValid());
        table.Release(transition);
        return false;
      }
      inflight := inflight[serverId := transition];
      return true;
    }

    /** Forgets the local claim and releases whatever handle it was. */
    method End(serverId: string)
      modifies this`inflight, table, if serverId in inflight then {inflight[serverId]} else {}
      ensures inflight == old(inflight) - {serverId}
      ensures old(ClaimsValid()) ==> ClaimsValid()
      ensures (serverId in old(inflight) && old(inflight)[serverId].serverId == serverId
        && old(SoundRegistry(table.registry) && table.Owns(inflight[serverId]))) ==>
        SoundRegistry(table.registry)
        && table.registry == Released(old(table.registry), serverId, old(inflight)[serverId].done)
      ensures serverId !in old(inflight) ==> table.registry == old(table.registry)
    {
      var transition: Transition? := if serverId in inflight then inflight[serverId] else null;
      inflight := inflight - {serverId};
      if transition != null {
        table.Release(transition);
      }
    }

    method RecordActivity(serverId: string)
      modifies this`since, this`sightings
      ensures since == old(since) - {serverId}
      ensures sightings == old(sightings)[serverId := old(History(serverId)) + [Active]]
      ensures old(ClockValid()) ==> ClockValid()
    {
      since := since - {serverId};
      sightings := sightings[serverId := History(serverId) + [Active]];
      assert StreakStart(History(serverId)) == None;
    }

    /** Sees the server idle; the first sighting of a streak starts the clock. */
    method IdleFor(serverId: string, now: int) returns (duration: int, tracked: bool)
      modifies this`since, this`sightings
      ensures tracked == (serverId in old(since)) && duration == if tracked then now - old(since)[serverId] else 0
      ensures since == if tracked then old(since) else old(since)[serverId := now]
      ensures sightings == old(sightings)[serverId := old(History(serverId)) + [Idle(now)]]
      ensures old(ClockValid()) ==> ClockValid()
    {
      tracked := serverId in since;
      duration := if tracked then now - since[serverId] else 0;
      if !tracked {
        since := since[serverId := now];
      }
      ghost var h := History(serverId);
      sightings := sightings[serverId := h + [Idle(now)]];
      assert (h + [Idle(now)])[..|h|] == h;
    }

    /** One server of a sweep; `asleep` says whether the mode's sleep action was called. */
    method SweepOne(v: ServerView, defaultMinutes: nat, now: int, sleepSucceeds: bool) returns (asleep: bool)
      requires ClockValid() && 0 < defaultMinutes
      modifies this`since, this`sightings
      ensures ClockValid() && forall id :: id != v.id ==> HistoryIn(sightings, id) == HistoryIn(old(sightings), id)
      ensures asleep == Due(v, defaultMinutes, StreakStart(old(History(v.id))), now)
      ensures StreakStart(History(v.id)) ==
        StreakAfter(v, defaultMinutes, StreakStart(old(History(v.id))), now, sleepSucceeds)
    {
      if !LooksIdle(v) {
        RecordActivity(v.id);
        return false;
      }
      ghost var streak := StreakStart(History(v.id));
      assert (if v.id in since then Some(since[v.id]) else None) == streak;
      var duration, tracked := IdleFor(v.id, now);
      assert (if v.id in since then Some(since[v.id]) else None) == StreakStart(History(v.id));
      if !tracked || duration < TimeoutSeconds(v, defaultMinutes) {
        return false;
      }
      if sleepSucceeds {
        RecordActivity(v.id);
        assert v.id !in since;
      }
      return true;
    }

    /** One sweep. A server is put to sleep exactly when it still looks idle and its idle streak
        began at least its timeout ago; a successful sleep starts its clock afresh. */
    method Sweep(servers: seq<ServerView>, defaultMinutes: nat, now: int, sleepSucceeds: string -> bool)
      returns (slept: seq<string>)
      requires ClockValid() && 0 < defaultMinutes
      requires forall i, j :: 0 <= i < j < |servers| ==> servers[i].id != servers[j].id
      modifies this`since, this`sightings
      ensures ClockValid()
      ensures forall i :: 0 <= i < |servers| ==>
        Swept(servers[i], defaultMinutes, now, sleepSucceeds(servers[i].id), old(sightings), sightings, slept)
      ensures forall id :: id !in Ids(servers) ==> id !in slept && History(id) == old(History(id))
      ensures forall i :: 0 <= i < |servers| ==>
        (servers[i].players > 0 || !servers[i].optedIn || !servers[i].running || !servers[i].hasContainer ==>
           servers[i].id !in slept && StreakStart(History(servers[i].id)) == None)
      ensures forall i :: 0 <= i < |servers| ==>
        (servers[i].players <= 0 && servers[i].optedIn && servers[i].running && servers[i].hasContainer ==>
           var streak := StreakStart(old(History(servers[i].id)));
           && (streak.None? ==> servers[i].id !in slept && StreakStart(History(servers[i].id)) == Some(now))
           && (streak.Some? ==>
                 (servers[i].id in slept <==>
                    now - streak.value
                    >= 60 * if servers[i].timeoutMinutes <= 0 then defaultMinutes else servers[i].timeoutMinutes))
           && (streak.Some? && !(servers[i].id in slept && sleepSucceeds(servers[i].id)) ==>
                 StreakStart(History(servers[i].id)) == streak)
           && (servers[i].id in slept && sleepSucceeds(servers[i].id) ==>
                 StreakStart(History(servers[i].id)) == None))
    {
      slept := [];
      ghost var before := sightings;
      for k := 0 to |servers|
        invariant ClockValid()
        invariant forall i :: 0 <= i < k ==>
          Swept(servers[i], defaultMinutes, now, sleepSucceeds(servers[i].id), before, sightings, slept)
        invariant forall i :: k <= i < |servers| ==> Untouched(servers[i].id, before, sightings, slept)
        invariant forall id :: id !in Ids(servers) ==> Untouched(id, before, sightings, slept)
      {
        var v := servers[k];
        ghost var mid, called := sightings, slept;
        var asleep := SweepOne(v, defaultMinutes, now, sleepSucceeds(v.id));
        if asleep {
          slept := slept + [v.id];
        }
        SweptMore(servers, k, defaultMinutes, now, sleepSucceeds, before, mid, sightings, called, slept);
      }
    }
  }

  /** One more server swept leaves the verdicts on the others as they were. */
  lemma SweptMore(servers: seq<ServerView>, k: nat, defaultMinutes: nat, now: int, sleepSucceeds: string -> bool,
                  before: map<string, seq<Sighting>>, mid: map<string, seq<Sighting>>,
                  after: map<string, seq<Sighting>>,
                  called: seq<string>, slept: seq<string>)
    requires k < |servers| && forall i, j :: 0 <= i < j < |servers| ==> servers[i].id != servers[j].id
    requires forall i :: 0 <= i < k ==>
      Swept(servers[i], defaultMinutes, now, sleepSucceeds(servers[i].id), before, mid, called)
    requires forall i :: k <= i < |servers| ==> Untouched(servers[i].id, before, mid, called)
    requires forall id :: id !in Ids(servers) ==> Untouched(id, before, mid, called)
    requires forall id :: id != servers[k].id ==> HistoryIn(after, id) == HistoryIn(mid, id)
    requires slept == called
      || (slept == called + [servers[k].id]
          && Due(servers[k], defaultMinutes, StreakStart(HistoryIn(mid, servers[k].id)), now))
    requires slept == called ==> !Due(servers[k], defaultMinutes, StreakStart(HistoryIn(mid, servers[k].id)), now)
    requires StreakStart(HistoryIn(after, servers[k].id)) == StreakAfter(servers[k], defaultMinutes,
               StreakStart(HistoryIn(mid, servers[k].id)), now, sleepSucceeds(servers[k].id))
    ensures forall i :: 0 <= i <= k ==>
      Swept(servers[i], defaultMinutes, now, sleepSucceeds(servers[i].id), before, after, slept)
    ensures forall i :: k < i < |servers| ==> Untouched(servers[i].id, before, after, slept)
    ensures forall id :: id !in Ids(servers) ==> Untouched(id, before, after, slept)
  {
    forall i | 0 <= i <= k
      ensures Swept(servers[i], defaultMinutes, now, sleepSucceeds(servers[i].id), before, after, slept)
    {
      if i < k {
        assert Swept(servers[i], defaultMinutes, now, sleepSucceeds(servers[i].id), before, mid, called);
      } else {
        assert Untouched(servers[k].id, before, mid, called);
      }
    }
    forall i | k < i < |servers|
      ensures Untouched(servers[i].id, before, after, slept)
    {
      assert Untouched(servers[i].id, before, mid, called) && servers[i].id != servers[k].id;
    }
    forall id | id !in Ids(servers)
      ensures Untouched(id, before, after, slept)
    {
      assert Untouched(id, before, mid, called) && id != servers[k].id by {
        assert servers[k].id in Ids(servers);
      }
    }
  }

  function HistoryIn(sightings: map<string, seq<Sighting>>, id: string): seq<Sighting> {
    if id in sightings then sightings[id] else []
  }

  ghost predicate Untouched(
    id: string, before: map<string, seq<Sighting>>, after: map<string, seq<Sighting>>, slept: seq<string>)
  {
    id !in slept && HistoryIn(after, id) == HistoryIn(before, id)
  }

  /** What a sweep did with one server: its sleep action ran exactly when it was due, and its
      clock moved accordingly. */
  ghost predicate Swept(v: ServerView, defaultMinutes: nat, now: int, sleeps: bool,
                        before: map<string, seq<Sighting>>, after: map<string, seq<Sighting>>, slept: seq<string>) {
    var streak := StreakStart(HistoryIn(before, v.id));
    && (v.id in slept <==> Due(v, defaultMinutes, streak, now))
    && StreakStart(HistoryIn(after, v.id)) == StreakAfter(v, defaultMinutes, streak, now, sleeps)
  }

  function Ids(servers: seq<ServerView>): set<string> {
    set i | 0 <= i < |servers| :: servers[i].id
  }

  /** The streak after a sweep: ended by activity or a successful sleep, begun at the first idle
      sighting, and otherwise unchanged. */
  function StreakAfter(v: ServerView, defaultMinutes: nat, streak: Option<int>, now: int, sleeps: bool): Option<int> {
    if !LooksIdle(v) then None
    else if streak.None? then Some(now)
    else if Due(v, defaultMinutes, streak, now) && sleeps then None
    else streak
  }
}
