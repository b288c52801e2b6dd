/** Pausing idle servers with the cgroup freezer and resuming them, with compensation when the
    container and the stored status would part ways (internal/docker/freezer.go). */
module Freezer {
  import opened Wrappers
  import opened ContainerWorld
  import opened ServerTransitions
  import opened IdleTracker

  /** `writeLost`: the returned error carries a status write that failed. */
  datatype FreezeResult = Refused | PauseFailed | Frozen | FreezeFailed(writeLost: bool)

  datatype ThawResult = ThawRefused | AlreadyRunning | Thawed | ThawFailed(writeLost: bool)

  /** PAUSED over a container seen paused, or what is stored agrees unless the error carries the failed
      write; a pause that failed leaves RUNNING alone. */
  ghost predicate FrozenHonestly(r: FreezeResult, rows: map<string, Server>, known: map<string, Seen>, id: string) {
    && (r.Frozen? ==> id in rows && rows[id].status == Paused
                      && rows[id].containerId in known && known[rows[id].containerId] == Paused)
    && (r.PauseFailed? ==> id in rows && rows[id].status == Running)
    && (r.FreezeFailed? ==> id in rows && (r.writeLost || Agrees(rows[id].status, known, rows[id].containerId)))
  }

  /** What a hibernation does when nothing fails but perhaps the pause: it succeeds exactly when the pause
      did, and a pause whose reply was lost leaves RUNNING over a paused container. */
  ghost predicate FrozenReliably(
    r: FreezeResult, pause: Fault, rows: map<string, Server>,
    rows': map<string, Server>, state: map<string, Seen>, id: string)
  {
    && (if pause == NoFault then r.Frozen? else r.PauseFailed?)
    && (pause.LostReply? ==>
          rows' == rows && id in rows && rows[id].containerId in state && state[rows[id].containerId] == Paused)
  }

  /** The same for a wake, against the rows and knowledge before it. */
  ghost predicate ThawedHonestly(
    r: ThawResult, rows: map<string, Server>, known: map<string, Seen>,
    rows': map<string, Server>, known': map<string, Seen>, id: string)
  {
    && (r.ThawRefused? || r.AlreadyRunning? ==> rows' == rows && known' == known)
    && (r.Thawed? ==> id in rows' && rows'[id].status == Running
                      && rows'[id].containerId in known' && known'[rows'[id].containerId] == Running)
    && (r.ThawFailed? ==> id in rows' && (r.writeLost || Agrees(rows'[id].status, known', rows'[id].containerId)))
  }

  class HibernationManager {
    const cluster: Cluster
    const store: ServerStore
    const tracker: Tracker
    var wakeCallbacks: seq<nat>
    var hibernatedTotal: nat
    var wokenTotal: nat
    /** History: which callback was fired for which server. */
    ghost var fired: seq<(nat, string)>

    constructor (cluster: Cluster, store: ServerStore, tracker: Tracker)
      ensures this.cluster == cluster && this.store == store && this.tracker == tracker
      ensures wakeCallbacks == [] && hibernatedTotal == wokenTotal == 0 && fired == []
    {
      this.cluster, this.store, this.tracker := cluster, store, tracker;
      wakeCallbacks, hibernatedTotal, wokenTotal, fired := [], 0, 0, [];
    }

    method RegisterWakeCallback(callback: nat)
      modifies this`wakeCallbacks
      ensures wakeCallbacks == old(wakeCallbacks) + [callback]
    {
      wakeCallbacks := wakeCallbacks + [callback];
    }

    /** Undoes a pause. Either the container is verified running again and the row is left alone,
        or ERROR is written, and a failure of that write is reported. */
    method RestoreRunningContainer(d: DaemonId, id: string, c: string) returns (restored: bool, writeLost: bool)
      requires id in store.rows
      modifies cluster, store
      ensures restored ==> store.rows == old(store.rows) && Agrees(Running, cluster.known, c) && !writeLost
      ensures store.reliable ==> !writeLost
      ensures !restored ==> store.rows == if writeLost then old(store.rows)
                                          else old(store.rows)[id := old(store.rows)[id].(status := Error)]
      ensures cluster.Reaches(d, c) ==> restored
    {
      var resumed := cluster.UnpauseContainer(d, c);
      if resumed {
        var seen := cluster.GetContainerStatus(d, c);
        if seen == Some(Running) {
          return true, false;
        }
      }
      var ok := store.UpdateServerStatus(id, Error);
      return false, !ok;
    }

    /** The daemon paused the container of this server and the reply was lost. */
    predicate PauseHid(id: string, pause: Fault)
      requires id in store.rows
      reads store`rows
    {
      pause.LostReply? && cluster.Controller(store.rows[id].nodeId).Some?
      && cluster.Hosts(cluster.Controller(store.rows[id].nodeId).value, store.rows[id].containerId)
    }

    /** Freezes a running server. PAUSED is stored only after the container was seen paused. */
    method HibernateClaimed(id: string, pause: Fault) returns (r: FreezeResult)
      modifies cluster, store, tracker`since, tracker`sightings, this`hibernatedTotal
      ensures r.Refused? ==> store.rows == old(store.rows) && cluster.known == old(cluster.known)
      ensures !r.Refused? ==> id in store.rows && id in old(store.rows) && old(store.rows)[id].status == Running
      ensures !r.Refused? ==> store.rows == old(store.rows)[id := old(store.rows)[id].(status := store.rows[id].status)]
      ensures r.PauseFailed? ==> store.rows[id].status == Running
      ensures r.PauseFailed? && !PauseHid(id, pause) ==> cluster.known == old(cluster.known)
      ensures r.PauseFailed? && PauseHid(id, pause) ==>
        store.rows[id].containerId !in cluster.known && cluster.Is(store.rows[id].containerId, Paused)
      ensures r.Frozen? ==> store.rows[id].status == Paused && Agrees(Paused, cluster.known, store.rows[id].containerId)
      ensures r.FreezeFailed? ==> store.rows[id].status in {Running, Error} && (r.writeLost ==> !store.reliable)
      ensures r.FreezeFailed? && !r.writeLost ==>
        Agrees(store.rows[id].status, cluster.known, store.rows[id].containerId)
      ensures hibernatedTotal == old(hibernatedTotal) + if r.Frozen? then 1 else 0
      ensures old(Works(cluster, store, id) && store.rows[id].status == Running) ==>
        if pause == NoFault then r.Frozen? else r.PauseFailed?
    {
      var found := store.GetServer(id);
      if found.None? {
        return Refused;
      }
      var srv := found.value;
      var c := srv.containerId;
      var ctrl := cluster.Controller(srv.nodeId);
      if c == "" || srv.status != Running || ctrl.None? {
        return Refused;
      }
      var paused := cluster.PauseContainer(ctrl.value, c, pause);
      if !paused {
        return PauseFailed;
      }
      r := FinishHibernation(ctrl.value, id, c);
    }

    /** The pause was accepted: look whether it took hold, store PAUSED, or undo it. */
    method FinishHibernation(d: DaemonId, id: string, c: string) returns (r: FreezeResult)
      requires id in store.rows && store.rows[id].containerId == c && store.rows[id].status == Running
      modifies cluster, store, tracker`since, tracker`sightings, this`hibernatedTotal
      ensures r.Frozen? || r.FreezeFailed?
      ensures id in store.rows
      ensures store.rows == old(store.rows)[id := old(store.rows)[id].(status := store.rows[id].status)]
      ensures r.Frozen? ==> store.rows[id].status == Paused && Agrees(Paused, cluster.known, c)
      ensures r.FreezeFailed? ==> store.rows[id].status in {Running, Error} && (r.writeLost ==> !store.reliable)
      ensures r.FreezeFailed? && !r.writeLost ==> Agrees(store.rows[id].status, cluster.known, c)
      ensures hibernatedTotal == old(hibernatedTotal) + if r.Frozen? then 1 else 0
      ensures store.reliable && cluster.Reaches(d, c) && old(cluster.Is(c, Paused)) ==> r.Frozen?
    {
      var seen := cluster.GetContainerStatus(d, c);
      var stored := false;
      if seen == Some(Paused) {
        stored := store.UpdateServerStatus(id, Paused);
      }
      if !stored {
        var _, lost := RestoreRunningContainer(d, id, c);
        return FreezeFailed(lost);
      }
      tracker.RecordActivity(id);
      hibernatedTotal := hibernatedTotal + 1;
      return Frozen;
    }

    /** A failed unpause: the row takes the observed state if that is not PAUSED, else ERROR. */
    method RecordFailedUnpause(d: DaemonId, id: string, c: string) returns (writeLost: bool)
      requires id in store.rows
      modifies cluster`known, store
      ensures writeLost ==> !store.reliable && store.rows == old(store.rows)
      ensures id in store.rows && (!writeLost ==> store.rows[id].status != Paused)
      ensures !writeLost ==> store.rows == old(store.rows)[id := old(store.rows)[id].(status := store.rows[id].status)]
      ensures !writeLost ==> Agrees(store.rows[id].status, cluster.known, c)
      ensures store.reliable && cluster.Reaches(d, c) && c in cluster.state ==>
        store.rows[id].status == if cluster.state[c] != Paused then cluster.state[c] else Error
    {
      var seen := cluster.GetContainerStatus(d, c);
      var persist := if seen.Some? && seen.value != Paused then seen.value else Error;
      var ok := store.UpdateServerStatus(id, persist);
      return !ok;
    }

    /** RUNNING could not be stored: pause again and verify it, or record ERROR. */
    method RestorePausedContainer(
      d: DaemonId, id: string, c: string, pause: Fault)
      returns (restored: bool, writeLost: bool)
      requires id in store.rows
      modifies cluster, store
      ensures restored ==> store.rows == old(store.rows) && Agrees(Paused, cluster.known, c) && !writeLost
      ensures store.reliable ==> !writeLost
      ensures !restored ==> store.rows == if writeLost then old(store.rows)
                                          else old(store.rows)[id := old(store.rows)[id].(status := Error)]
      ensures cluster.Reaches(d, c) && pause == NoFault ==> restored
    {
      var paused := cluster.PauseContainer(d, c, pause);
      if paused {
        var seen := cluster.GetContainerStatus(d, c);
        if seen == Some(Paused) {
          return true, false;
        }
      }
      var ok := store.UpdateServerStatus(id, Error);
      return false, !ok;
    }

    /** Thaws a paused server and, on success, fires every registered callback once, in order. */
    method WakeClaimed(id: string, rePause: Fault) returns (r: ThawResult)
      modifies cluster, store, tracker`since, tracker`sightings, this`wokenTotal, this`fired
      ensures r.ThawRefused? || r.AlreadyRunning? ==>
        store.rows == old(store.rows) && cluster.known == old(cluster.known)
      ensures r.AlreadyRunning? ==> id in store.rows && store.rows[id].status == Running
      ensures r.Thawed? || r.ThawFailed? ==>
        id in store.rows && id in old(store.rows) && old(store.rows)[id].status == Paused
      ensures r.Thawed? || r.ThawFailed? ==>
        store.rows == old(store.rows)[id := old(store.rows)[id].(status := store.rows[id].status)]
      ensures r.Thawed? ==>
        store.rows[id].status == Running && Agrees(Running, cluster.known, store.rows[id].containerId)
      ensures r.ThawFailed? && r.writeLost ==> !store.reliable && store.rows[id].status == Paused
      ensures r.ThawFailed? && !r.writeLost ==> Agrees(store.rows[id].status, cluster.known, store.rows[id].containerId)
      ensures wokenTotal == old(wokenTotal) + if r.Thawed? then 1 else 0
      ensures fired == old(fired) + if r.Thawed? then Firings(wakeCallbacks, id) else []
      ensures old(Works(cluster, store, id) && store.rows[id].status == Paused) ==> r.Thawed?
      ensures old(Works(cluster, store, id) && store.rows[id].status == Running) ==> r.AlreadyRunning?
    {
      var found := store.GetServer(id);
      if found.None? || found.value.containerId == "" {
        return ThawRefused;
      }
      var srv := found.value;
      if srv.status == Running {
        return AlreadyRunning;
      }
      var ctrl := cluster.Controller(srv.nodeId);
      if srv.status != Paused || ctrl.None? {
        return ThawRefused;
      }
      r := ResumeContainer(ctrl.value, id, srv.containerId, rePause);
    }

    /** A paused server: resume its container and store RUNNING, or record what became of it. */
    method ResumeContainer(d: DaemonId, id: string, c: string, rePause: Fault) returns (r: ThawResult)
      requires id in store.rows && store.rows[id].containerId == c && store.rows[id].status == Paused
      modifies cluster, store, tracker`since, tracker`sightings, this`wokenTotal, this`fired
      ensures r.Thawed? || r.ThawFailed?
      ensures id in store.rows
      ensures store.rows == old(store.rows)[id := old(store.rows)[id].(status := store.rows[id].status)]
      ensures r.Thawed? ==> store.rows[id].status == Running && Agrees(Running, cluster.known, c)
      ensures r.ThawFailed? && r.writeLost ==> !store.reliable && store.rows[id].status == Paused
      ensures r.ThawFailed? && !r.writeLost ==> Agrees(store.rows[id].status, cluster.known, c)
      ensures wokenTotal == old(wokenTotal) + if r.Thawed? then 1 else 0
      ensures fired == old(fired) + if r.Thawed? then Firings(wakeCallbacks, id) else []
      ensures store.reliable && cluster.Reaches(d, c) ==> r.Thawed?
    {
      var resumed := cluster.UnpauseContainer(d, c);
      if !resumed {
        var lost := RecordFailedUnpause(d, id, c);
        return ThawFailed(lost);
      }
      var stored := store.UpdateServerStatus(id, Running);
      if !stored {
        var _, lost := RestorePausedContainer(d, id, c, rePause);
        return ThawFailed(lost);
      }
      tracker.RecordActivity(id);
      wokenTotal := wokenTotal + 1;
      FireCallbacks(id);
      return Thawed;
    }

    /** The container's part of a hibernation, in the terms of its caller. */
    method HibernateContainer(id: string, pause: Fault) returns (r: FreezeResult)
      modifies cluster, store, tracker`since, tracker`sightings, this`hibernatedTotal
      ensures r.Refused? ==> store.rows == old(store.rows) && cluster.known == old(cluster.known)
      ensures FrozenHonestly(r, store.rows, cluster.known, id)
      ensures old(Works(cluster, store, id) && store.rows[id].status == Running) ==>
        FrozenReliably(r, pause, old(store.rows), store.rows, cluster.state, id)
    {
      r := HibernateClaimed(id, pause);
    }

    /** The whole hibernation: the claim is taken first and always given back. */
    method HibernateServer(id: string, pause: Fault) returns (r: FreezeResult)
      requires SoundRegistry(tracker.table.registry)
      modifies cluster, store, tracker`inflight, tracker`since, tracker`sightings, tracker.table, this`hibernatedTotal
      ensures tracker.table.registry == ClaimAndRelease(old(tracker.table.registry), id)
      ensures !CanClaim(old(tracker.table.registry), id) ==> r.Refused?
      ensures r.Refused? ==> store.rows == old(store.rows) && cluster.known == old(cluster.known)
      ensures FrozenHonestly(r, store.rows, cluster.known, id)
      ensures old(Works(cluster, store, id) && store.rows[id].status == Running && tracker.Free(id)) ==>
        FrozenReliably(r, pause, old(store.rows), store.rows, cluster.state, id)
    {
      var claimed := tracker.TryBegin(id);
      assert unchanged(store) && unchanged(cluster) && unchanged(this);
      if !claimed {
        return Refused;
      }
      r := HibernateContainer(id, pause);
      label done_:
      tracker.End(id);
      assert unchanged@done_(store) && unchanged@done_(cluster);
    }

    /** The whole wake, likewise. */
    method WakeServer(id: string, rePause: Fault) returns (r: ThawResult)
      requires SoundRegistry(tracker.table.registry)
      modifies cluster, store, tracker`inflight, tracker`since, tracker`sightings,
               tracker.table, this`wokenTotal, this`fired
      ensures tracker.table.registry == ClaimAndRelease(old(tracker.table.registry), id)
      ensures !CanClaim(old(tracker.table.registry), id) ==> r.ThawRefused?
      ensures ThawedHonestly(r, old(store.rows), old(cluster.known), store.rows, cluster.known, id)
      ensures r.Thawed? ==> Fired(old(fired), fired, wakeCallbacks, id)
      ensures old(Works(cluster, store, id) && store.rows[id].status == Paused && tracker.Free(id)) ==> r.Thawed?
    {
      var claimed := tracker.TryBegin(id);
      assert unchanged(store) && unchanged(cluster) && unchanged(this);
      if !claimed {
        return ThawRefused;
      }
      r := WakeClaimed(id, rePause);
      assert ThawedHonestly(r, old(store.rows), old(cluster.known), store.rows, cluster.known, id);
      assert r.Thawed? ==> Fired(old(fired), fired, wakeCallbacks, id);
      label done_:
      tracker.End(id);
      assert unchanged@done_(store) && unchanged@done_(cluster) && unchanged@done_(this);
    }

    method FireCallbacks(id: string)
      modifies this`fired
      ensures fired == old(fired) + Firings(wakeCallbacks, id)
    {
      var callbacks := wakeCallbacks;
      ghost var before := fired;
      for k := 0 to |callbacks|
        invariant fired == before + Firings(callbacks[..k], id)
      {
        assert callbacks[..k + 1][..k] == callbacks[..k];
        fired := fired + [(callbacks[k], id)];
      }
      assert callbacks[..|callbacks|] == callbacks;
    }
  }

  /** Each callback once, in the order of registration. */
  function Firings(callbacks: seq<nat>, id: string): (r: seq<(nat, string)>)
    ensures |r| == |callbacks| && forall i :: 0 <= i < |r| ==> r[i] == (callbacks[i], id)
  {
    if callbacks == [] then []
    else Firings(callbacks[..|callbacks| - 1], id) + [(callbacks[|callbacks| - 1], id)]
  }

  ghost predicate Fired(before: seq<(nat, string)>, after: seq<(nat, string)>, callbacks: seq<nat>, id: string) {
    after == before + Firings(callbacks, id)
  }

  /** Whatever was registered before a wake is fired by it, in the order of registration. */
  method RegisterAndWake(m: HibernationManager, callbacks: seq<nat>, id: string, rePause: Fault) returns (r: ThawResult)
    requires SoundRegistry(m.tracker.table.registry)
    modifies m.cluster, m.store, m.tracker`inflight, m.tracker`since, m.tracker`sightings, m.tracker.table
    modifies m`wakeCallbacks, m`wokenTotal, m`fired
    ensures m.wakeCallbacks == old(m.wakeCallbacks) + callbacks
    ensures r.Thawed? ==> Fired(old(m.fired), m.fired, old(m.wakeCallbacks) + callbacks, id)
  {
    for k := 0 to |callbacks|
      invariant m.wakeCallbacks == old(m.wakeCallbacks) + callbacks[..k]
      invariant SoundRegistry(m.tracker.table.registry) && m.fired == old(m.fired)
    {
      m.RegisterWakeCallback(callbacks[k]);
      assert callbacks[..k + 1] == callbacks[..k] + [callbacks[k]];
    }
    assert callbacks[..|callbacks|] == callbacks;
    r := m.WakeServer(id, rePause);
  }

  datatype Call = Hibernate(pause: Fault) | Wake(rePause: Fault)

  /** What one call does to the agreement of the stored status with the container. A call that did
      something leaves it in place, whatever held before, except in two cases: its error carries a failed
      status write, or it is a hibernation whose pause took hold while its reply was lost. In the second
      case nothing is recorded: RUNNING stays stored over a paused container. */
  method OneCall(m: HibernationManager, id: string, call: Call) returns (lost: bool, ghost effect: Effect)
    requires id in m.store.rows
    modifies m.cluster, m.store, m.tracker`since, m.tracker`sightings, m`hibernatedTotal, m`wokenTotal, m`fired
    ensures id in m.store.rows && (lost <==> effect == WriteLost) && (m.store.reliable ==> !lost)
    ensures effect == Untouched ==> m.store.rows == old(m.store.rows) && m.cluster.known == old(m.cluster.known)
    ensures effect == Settled ==> Agrees(m.store.rows[id].status, m.cluster.known, m.store.rows[id].containerId)
    ensures effect == PauseHidden ==>
      call.Hibernate? && m.PauseHid(id, call.pause)
      && m.store.rows == old(m.store.rows) && m.store.rows[id].status == Running
    ensures effect == PauseHidden ==>
      m.cluster.Is(m.store.rows[id].containerId, Paused)
      && !Agrees(m.store.rows[id].status, m.cluster.known, m.store.rows[id].containerId)
    ensures call.Hibernate? && old(Works(m.cluster, m.store, id) && m.store.rows[id].status == Running) ==>
      (effect == PauseHidden <==> call.pause.LostReply?)
    ensures old(Agrees(m.store.rows[id].status, m.cluster.known, m.store.rows[id].containerId)) && !lost ==>
      (effect == PauseHidden <==> !Agrees(m.store.rows[id].status, m.cluster.known, m.store.rows[id].containerId))
  {
    match call {
      case Hibernate(pause) =>
        var r := m.HibernateClaimed(id, pause);
        lost := r.FreezeFailed? && r.writeLost;
        effect := if lost then WriteLost
                  else if r.Refused? then Untouched
                  else if r.PauseFailed? then if m.PauseHid(id, pause) then PauseHidden else Untouched
                  else Settled;
      case Wake(rePause) =>
        var r := m.WakeClaimed(id, rePause);
        lost := r.ThawFailed? && r.writeLost;
        effect := if lost then WriteLost else if r.Thawed? || r.ThawFailed? then Settled else Untouched;
    }
  }

  /** Any sequence of hibernations and wakes of one server: at the end RUNNING and PAUSED say what was
      last established about the container, unless the last call that did something reported a lost
      status write or hid a pause, and in the latter case they certainly do not. */
  method AnyCalls(
    m: HibernationManager, id: string, calls: seq<Call>)
    returns (lost: seq<bool>, ghost effects: seq<Effect>)
    requires id in m.store.rows
    modifies m.cluster, m.store, m.tracker`since, m.tracker`sightings, m`hibernatedTotal, m`wokenTotal, m`fired
    ensures id in m.store.rows && |effects| == |lost| == |calls|
    ensures forall k :: 0 <= k < |calls| ==> (lost[k] <==> effects[k] == WriteLost) && (m.store.reliable ==> !lost[k])
    ensures forall k :: 0 <= k < |calls| && effects[k] == PauseHidden ==>
      calls[k].Hibernate? && calls[k].pause.LostReply?
    ensures Latest(effects) == Settled ==>
      Agrees(m.store.rows[id].status, m.cluster.known, m.store.rows[id].containerId)
    ensures Latest(effects) == Settled && m.store.rows[id].status in {Paused, Running} ==>
      m.store.rows[id].containerId in m.cluster.known
      && m.cluster.known[m.store.rows[id].containerId] == m.store.rows[id].status
    ensures Latest(effects) == PauseHidden ==>
      !Agrees(m.store.rows[id].status, m.cluster.known, m.store.rows[id].containerId)
    ensures Latest(effects) == Untouched ==>
      m.store.rows == old(m.store.rows) && m.cluster.known == old(m.cluster.known)
  {
    lost, effects := [], [];
    for k := 0 to |calls|
      invariant id in m.store.rows && |effects| == |lost| == k
      invariant forall j :: 0 <= j < k ==> (lost[j] <==> effects[j] == WriteLost) && (m.store.reliable ==> !lost[j])
      invariant forall j :: 0 <= j < k && effects[j] == PauseHidden ==> calls[j].Hibernate? && calls[j].pause.LostReply?
      invariant Latest(effects) == Settled ==>
        Agrees(m.store.rows[id].status, m.cluster.known, m.store.rows[id].containerId)
      invariant Latest(effects) == PauseHidden ==>
        !Agrees(m.store.rows[id].status, m.cluster.known, m.store.rows[id].containerId)
      invariant Latest(effects) == Untouched ==>
        m.store.rows == old(m.store.rows) && m.cluster.known == old(m.cluster.known)
    {
      var l, e := OneCall(m, id, calls[k]);
      LatestOf(effects, e);
      lost, effects := lost + [l], effects + [e];
    }
  }

  /** The hole at one input: a running server over a running container, nothing fails but the reply of
      the pause. The row goes on saying RUNNING, the container is paused. */
  method HiddenPause() returns (stored: Status, actual: Status)
    ensures stored == Running && actual == Paused
  {
    var cluster := new Cluster(map["node" := 0], None, map["box" := 0], true, map["box" := Running]);
    var store := new ServerStore(map["srv" := Server("node", "box", Running, false, None)], true);
    var table := new TransitionTable();
    var tracker := new Tracker(table);
    var m := new HibernationManager(cluster, store, tracker);
    var r := m.HibernateServer("srv", LostReply);
    return store.rows["srv"].status, cluster.state["box"];
  }
}
