/** Stopping idle servers and booting them on demand, with a rollback on every failure edge
    (internal/docker/sleep.go). The claims are about what a call leaves behind: the status in
    the store against what was last established about the container. */
module DeepSleep {
  import opened Wrappers
  import opened ContainerWorld
  import opened ServerTransitions
  import opened IdleTracker
  import opened WakeWait

  /** `statusWriteFailed` is set when the returned error carries a failed status write;
      `putBack` when a wake was undone and its container confirmed stopped again. */
  datatype SleepResult = Refused | Asleep | SleepFailed(statusWriteFailed: bool)

  datatype WakeResult = WakeRefused | AlreadyRunning | Awake | WakeFailed(putBack: bool, statusWriteFailed: bool)

  function WithStatus(rows: map<string, Server>, id: string, status: Status): map<string, Server> {
    if id in rows then rows[id := rows[id].(status := status)] else rows
  }

  /** What a finished sleep call leaves: asleep over a container established as stopped, or a status
      that agrees with the container unless the error carries the failed write. */
  ghost predicate Honest(r: SleepResult, rows: map<string, Server>, known: map<string, Seen>, id: string) {
    !r.Refused? ==>
      && id in rows
      && (r.Asleep? ==>
            rows[id].status == DeepSleep && rows[id].containerId in known && known[rows[id].containerId] == Stopped)
      && (r.SleepFailed? && !Agrees(rows[id].status, known, rows[id].containerId) ==> r.statusWriteFailed)
  }

  /** What a finished wake leaves, against the rows and knowledge it claimed the server over: RUNNING
      over a container seen up, ERROR, or the old status over a container confirmed down again, unless
      the closing write failed. */
  ghost predicate WokenHonestly(r: WakeResult, w: World, rows: map<string, Server>, known: map<string, Seen>,
                                id: string, now: int, writeFailed: bool) {
    && (r.WakeRefused? || r.AlreadyRunning? ==> rows == w.rows && known == w.known)
    && (r.AlreadyRunning? ==> id in rows && rows[id].status == Running)
    && (r.Awake? || r.WakeFailed? ==>
          id in w.rows && id in rows && MayWake(w.rows[id]) && rows == w.rows[id := rows[id]])
    && (r.Awake? ==> rows[id].status == Running && rows[id].lastStarted == Some(now)
                     && rows[id].containerId in known && known[rows[id].containerId] == Running)
    && (r.WakeFailed? ==> rows[id].status in {Error, w.rows[id].status})
    && (r.WakeFailed? && rows[id].status != Error ==> r.putBack || writeFailed)
    && (r.WakeFailed? && r.putBack ==> Agrees(DeepSleep, known, rows[id].containerId))
  }

  ghost predicate SoundTurns(turns: seq<Turn>) {
    forall k :: 0 <= k < |turns| ==> SoundRegistry(turns[k].wait.registry) && SoundRegistry(turns[k].next.registry)
  }

  class Manager {
    const cluster: Cluster
    const store: ServerStore
    const tracker: Tracker
    const hasCommander: bool
    const hasPreparer: bool

    constructor (cluster: Cluster, store: ServerStore, tracker: Tracker, hasCommander: bool, hasPreparer: bool)
      ensures this.cluster == cluster && this.store == store && this.tracker == tracker
      ensures this.hasCommander == hasCommander && this.hasPreparer == hasPreparer
    {
      this.cluster, this.store, this.tracker := cluster, store, tracker;
      this.hasCommander, this.hasPreparer := hasCommander, hasPreparer;
    }

    /** A running server over a running container, with nothing that can fail. */
    ghost predicate SleepsReliably(id: string)
      reads store`rows, cluster`state
    {
      Works(cluster, store, id) && store.rows[id].status == Running && cluster.Is(store.rows[id].containerId, Running)
    }

    /** Restores a status that matches the observed container, or ERROR when it is not known. */
    method RollbackSleep(id: string, c: string) returns (statusWriteFailed: bool)
      requires id in store.rows
      modifies cluster`known, store
      ensures store.rows.Keys == old(store.rows).Keys
      ensures store.rows == WithStatus(old(store.rows), id, store.rows[id].status)
      ensures store.writeFailed ==> statusWriteFailed && store.rows == old(store.rows)
      ensures store.reliable ==> !store.writeFailed
      ensures !store.writeFailed ==> Agrees(store.rows[id].status, cluster.known, c)
      ensures !store.writeFailed ==> store.rows[id].status in {DeepSleep, Running, Starting, Unhealthy, Error}
      ensures old(Works(cluster, store, id) && store.rows[id].containerId == c && c in cluster.state) ==>
        store.rows[id].status ==
          if cluster.state[c] in {Running, Starting, Unhealthy} then cluster.state[c]
          else if cluster.state[c] == Stopped then DeepSleep
          else Error
    {
      var node := "";
      var row := store.GetServer(id);
      if row.Some? {
        node := row.value.nodeId;
      }
      var ctrl := cluster.Controller(node);
      var target := Error;
      if ctrl.Some? {
        var seen := cluster.GetContainerStatus(ctrl.value, c);
        if seen.Some? {
          match seen.value {
            case Running => target := Running;
            case Starting => target := Starting;
            case Unhealthy => target := Unhealthy;
            case Stopped => target := DeepSleep;
            case _ =>
          }
        }
      }
      var ok := store.UpdateServerStatus(id, target);
      statusWriteFailed := !ok;
      if !ok && target != Error {
        var _ := store.UpdateServerStatus(id, Error);
      }
    }

    /** A failed wake is recorded as ERROR; the write itself may fail, and is then only logged. */
    method RollbackWake(id: string)
      requires id in store.rows
      modifies store
      ensures store.rows == if store.writeFailed then old(store.rows) else WithStatus(old(store.rows), id, Error)
      ensures store.reliable ==> !store.writeFailed
    {
      var _ := store.UpdateServerStatus(id, Error);
    }

    /** The container is up but RUNNING could not be stored: put it back down, or record ERROR. */
    method RollbackWakePersistenceFailure(
      d: DaemonId, id: string, c: string)
      returns (stopped: bool, statusWriteFailed: bool)
      requires id in store.rows
      modifies cluster, store
      ensures stopped ==>
        store.rows == old(store.rows) && c in cluster.known && cluster.known[c] == Stopped && !statusWriteFailed
      ensures !stopped ==> statusWriteFailed == store.writeFailed && (store.reliable ==> !store.writeFailed)
      ensures !stopped ==>
        store.rows == if store.writeFailed then old(store.rows) else WithStatus(old(store.rows), id, Error)
      ensures cluster.Reaches(d, c) ==> stopped
    {
      var found, _ := cluster.StopContainer(d, c);
      if found {
        var seen := cluster.GetContainerStatus(d, c);
        if seen == Some(Stopped) {
          return true, false;
        }
      }
      var ok := store.UpdateServerStatus(id, Error);
      return false, !ok;
    }

    /** Pins the restart policy, asks the game to exit, waits for it, and forces the container
        down if it is still up. `polls` is how many looks fit before the stop deadline. */
    method BringDown(d: DaemonId, c: string, polls: nat) returns (down: bool)
      modifies cluster
      ensures down ==> c in cluster.known && cluster.known[c] == Stopped
      ensures cluster.Reaches(d, c) && old(cluster.Is(c, Running)) ==> down && cluster.Is(c, Stopped)
    {
      var pinned := cluster.SetRestartPolicy(d, c);
      if !pinned {
        return false;
      }
      if hasCommander {
        cluster.SendCommands(c);
      }
      var left := polls;
      while true
        invariant old(cluster.Is(c, Running)) ==> cluster.Is(c, Running) || cluster.Is(c, Stopped)
        decreases left
      {
        var seen := cluster.GetContainerStatus(d, c);
        if seen == Some(Stopped) {
          break;
        }
        if seen != Some(Running) {
          return false;
        }
        if left == 0 {
          break;
        }
        var cancelled := cluster.Cancelled();
        if cancelled {
          return false;
        }
        left := left - 1;
      }
      var seen := cluster.GetContainerStatus(d, c);
      if seen == Some(Running) {
        var found, _ := cluster.StopContainer(d, c);
        return found;
      }
      return seen == Some(Stopped);
    }

    /** Puts a running server to sleep. The status is set to DEEPSLEEP before the container goes
        down; when the call returns, it stands only over a container established as stopped,
        unless the write that should have replaced it failed, which the error then reports. */
    method SleepClaimed(id: string, polls: nat) returns (r: SleepResult)
      modifies cluster, store, tracker`since, tracker`sightings
      ensures r.Refused? ==> store.rows == old(store.rows) && cluster.known == old(cluster.known)
      ensures !r.Refused? ==> id in old(store.rows) && old(store.rows)[id].status == Running
      ensures !r.Refused? ==> id in store.rows && store.rows == WithStatus(old(store.rows), id, store.rows[id].status)
      ensures r.Asleep? ==>
        store.rows[id].status == DeepSleep && Agrees(DeepSleep, cluster.known, store.rows[id].containerId)
      ensures r.SleepFailed? && !store.writeFailed ==>
        Agrees(store.rows[id].status, cluster.known, store.rows[id].containerId)
      ensures r.SleepFailed? && store.writeFailed ==> r.statusWriteFailed && store.rows[id].status == DeepSleep
      ensures r.SleepFailed? && store.reliable ==> !store.writeFailed
      ensures old(SleepsReliably(id)) ==> r.Asleep? && cluster.Is(store.rows[id].containerId, Stopped)
    {
      var found := store.GetServer(id);
      if found.None? {
        return Refused;
      }
      var srv := found.value;
      var ctrl := cluster.Controller(srv.nodeId);
      if srv.containerId == "" || srv.status != Running || ctrl.None? {
        return Refused;
      }
      var preset := store.UpdateServerStatus(id, DeepSleep);
      if !preset {
        return Refused;
      }
      r := BringAsleep(ctrl.value, id, srv.containerId, polls);
    }

    /** The status says DEEPSLEEP already: bring the container down, or put the status right. */
    method BringAsleep(d: DaemonId, id: string, c: string, polls: nat) returns (r: SleepResult)
      requires id in store.rows && store.rows[id].status == DeepSleep && store.rows[id].containerId == c
      modifies cluster, store, tracker`since, tracker`sightings
      ensures r.Asleep? || r.SleepFailed?
      ensures id in store.rows && store.rows == WithStatus(old(store.rows), id, store.rows[id].status)
      ensures r.Asleep? ==> store.rows[id].status == DeepSleep && Agrees(DeepSleep, cluster.known, c)
      ensures r.SleepFailed? && !store.writeFailed ==> Agrees(store.rows[id].status, cluster.known, c)
      ensures r.SleepFailed? && store.writeFailed ==> r.statusWriteFailed && store.rows[id].status == DeepSleep
      ensures r.SleepFailed? && store.reliable ==> !store.writeFailed
      ensures cluster.Reaches(d, c) && old(cluster.Is(c, Running)) ==> r.Asleep? && cluster.Is(c, Stopped)
    {
      var down := BringDown(d, c, polls);
      if !down {
        var lost := RollbackSleep(id, c);
        return SleepFailed(lost);
      }
      tracker.RecordActivity(id);
      return Asleep;
    }

    /** Applies staged configuration before a cold wake; it may persist a replacement container. */
    method PrepareWake(id: string, srv: Server) returns (r: Option<Server>)
      requires id in store.rows && store.rows[id] == srv
      modifies cluster, store
      ensures id in store.rows && store.rows == old(store.rows)[id := store.rows[id]]
      ensures store.rows[id] == srv.(containerId := store.rows[id].containerId)
      ensures r.Some? ==> r.value == store.rows[id]
    {
      var ok: bool := *;
      var swapped: bool := *;
      var c: string := *;
      if swapped {
        var saved := store.UpdateServer(id, srv.(containerId := c));
        ok := ok && saved;
      }
      r := if ok then Some(store.rows[id]) else None;
    }

    /** Starts the container and waits until it is observed up; one that goes down again, a
        deadline or a cancelled context ends the wait. */
    method BringUp(d: DaemonId, c: string, polls: nat) returns (up: bool)
      modifies cluster
      ensures up ==> c in cluster.known && cluster.known[c] == Running
      ensures cluster.Reaches(d, c) ==> up && cluster.Is(c, Running)
    {
      var restored := cluster.SetRestartPolicy(d, c);
      if !restored {
        return false;
      }
      var started := cluster.StartContainer(d, c);
      if !started {
        return false;
      }
      var left := polls;
      while true
        invariant cluster.Is(c, Running)
        decreases left
      {
        var seen := cluster.GetContainerStatus(d, c);
        if seen == Some(Running) {
          return true;
        }
        var cancelled := cluster.Cancelled();
        if seen == Some(Stopped) || seen == Some(Error) || left == 0 || cancelled {
          return false;
        }
        left := left - 1;
      }
    }

    /** Boots a sleeping server. RUNNING is stored only for a container observed up. A wake that
        fails leaves ERROR, or the old status over a container confirmed stopped, or, when the
        ERROR write itself failed, the old status. */
    method WakeClaimed(id: string, polls: nat, now: int) returns (r: WakeResult)
      modifies cluster, store, tracker`since, tracker`sightings
      ensures r.WakeRefused? || r.AlreadyRunning? ==>
        store.rows == old(store.rows) && cluster.known == old(cluster.known)
      ensures r.AlreadyRunning? ==> id in store.rows && store.rows[id].status == Running
      ensures r.Awake? || r.WakeFailed? ==> id in old(store.rows) && id in store.rows && MayWake(old(store.rows)[id])
      ensures r.Awake? || r.WakeFailed? ==> store.rows == old(store.rows)[id := store.rows[id]]
      ensures r.Awake? ==>
        store.rows[id].status == Running && Agrees(Running, cluster.known, store.rows[id].containerId)
      ensures r.Awake? ==> store.rows[id].lastStarted == Some(now)
      ensures r.WakeFailed? ==> store.rows[id].status in {Error, old(store.rows)[id].status}
      ensures r.WakeFailed? && store.rows[id].status != Error && !store.writeFailed ==> r.putBack
      ensures r.WakeFailed? && r.putBack ==> Agrees(DeepSleep, cluster.known, store.rows[id].containerId)
      ensures r.WakeFailed? && r.statusWriteFailed ==> store.writeFailed
      ensures r.WakeFailed? && store.reliable ==> !store.writeFailed
      ensures !hasPreparer && store.reliable && old(CanBeWoken(cluster, store.rows, id)) ==> r.Awake?
      ensures !hasPreparer && r.Awake? ==>
        store.rows[id] == old(store.rows)[id].(status := Running, lastStarted := Some(now))
      ensures !hasPreparer && old(Works(cluster, store, id)) && old(store.rows)[id].status == DeepSleep ==>
        r.Awake? && cluster.Is(store.rows[id].containerId, Running)
      ensures !hasPreparer && old(Works(cluster, store, id)) && old(store.rows)[id].autoDeepSleep ==>
        (old(store.rows)[id].status in {Stopped, Creating} ==> r.Awake?)
      ensures store.reliable && id in old(store.rows) && old(store.rows)[id].status == Running ==> r.AlreadyRunning?
      ensures id in old(store.rows) && old(store.rows)[id].status !in {DeepSleep, Running, Stopped, Creating} ==>
        r.WakeRefused?
      ensures id in old(store.rows) && !old(store.rows)[id].autoDeepSleep ==>
        (old(store.rows)[id].status in {Stopped, Creating} ==> r.WakeRefused?)
    {
      var found := store.GetServer(id);
      if found.None? {
        return WakeRefused;
      }
      var srv := found.value;
      if srv.status == Running {
        return AlreadyRunning;
      }
      if !MayWake(srv) {
        return WakeRefused;
      }
      var ready := Some(srv);
      if hasPreparer {
        ready := PrepareWake(id, srv);
      }
      if ready.None? {
        RollbackWake(id);
        return WakeFailed(false, false);
      }
      r := WakePrepared(id, ready.value, polls, now);
    }

    method WakePrepared(id: string, srv: Server, polls: nat, now: int) returns (r: WakeResult)
      requires id in store.rows && store.rows[id] == srv && MayWake(srv)
      modifies cluster, store, tracker`since, tracker`sightings
      ensures r.Awake? || r.WakeFailed?
      ensures id in store.rows && store.rows == old(store.rows)[id := store.rows[id]]
      ensures r.Awake? ==> store.rows[id] == srv.(status := Running, lastStarted := Some(now))
      ensures r.Awake? ==> Agrees(Running, cluster.known, srv.containerId)
      ensures r.WakeFailed? ==> store.rows[id] == srv || store.rows[id] == srv.(status := Error)
      ensures r.WakeFailed? && store.rows[id] == srv && !store.writeFailed ==> r.putBack
      ensures r.WakeFailed? && r.putBack ==> Agrees(DeepSleep, cluster.known, srv.containerId)
      ensures r.WakeFailed? && r.statusWriteFailed ==> store.writeFailed
      ensures r.WakeFailed? && store.reliable ==> !store.writeFailed
      ensures old(Works(cluster, store, id)) ==> r.Awake? && cluster.Is(srv.containerId, Running)
    {
      var ctrl := cluster.Controller(srv.nodeId);
      if srv.containerId == "" || ctrl.None? {
        RollbackWake(id);
        return WakeFailed(false, false);
      }
      var up := BringUp(ctrl.value, srv.containerId, polls);
      if !up {
        RollbackWake(id);
        return WakeFailed(false, false);
      }
      var saved := store.UpdateServer(id, srv.(status := Running, lastStarted := Some(now)));
      if !saved {
        var stopped, lost := RollbackWakePersistenceFailure(ctrl.value, id, srv.containerId);
        return WakeFailed(stopped, lost);
      }
      tracker.RecordActivity(id);
      return Awake;
    }

    /** The container's part of a sleep, in the terms of its caller. */
    method SleepContainer(id: string, polls: nat) returns (r: SleepResult)
      modifies cluster, store, tracker`since, tracker`sightings
      ensures !r.Refused? ==> id in old(store.rows) && old(store.rows)[id].status == Running
      ensures r.Refused? ==> store.rows == old(store.rows) && cluster.known == old(cluster.known)
      ensures Honest(r, store.rows, cluster.known, id)
      ensures old(SleepsReliably(id)) ==> r.Asleep?
    {
      r := SleepClaimed(id, polls);
    }

    /** The whole sleep call: the claim is taken first and always given back. */
    method SleepServer(id: string, polls: nat) returns (r: SleepResult)
      requires SoundRegistry(tracker.table.registry)
      modifies cluster, store, tracker`inflight, tracker`since, tracker`sightings, tracker.table
      ensures tracker.table.registry == ClaimAndRelease(old(tracker.table.registry), id)
      ensures !CanClaim(old(tracker.table.registry), id) ==> r.Refused?
      ensures !r.Refused? ==> id in old(store.rows) && old(store.rows)[id].status == Running
      ensures r.Refused? ==> store.rows == old(store.rows) && cluster.known == old(cluster.known)
      ensures Honest(r, store.rows, cluster.known, id)
      ensures old(SleepsReliably(id) && tracker.Free(id)) ==> r.Asleep?
    {
      var claimed := tracker.TryBegin(id);
      if !claimed {
        return Refused;
      }
      r := SleepContainer(id, polls);
      label done_:
      tracker.End(id);
      assert unchanged@done_(store) && unchanged@done_(cluster);
    }

    ghost function Now(): World
      reads cluster`known, cluster`state, store`rows, tracker`inflight, tracker.table
    {
      World(tracker.table.registry, tracker.inflight, store.rows, cluster.known, cluster.state)
    }

    /** Other callers leave this world behind while this one waits. */
    method LetOthers(w: World)
      modifies cluster, store`rows, tracker`inflight, tracker.table
      ensures Now() == w
    {
      tracker.table.registry, tracker.inflight := w.registry, w.inflight;
      store.rows, cluster.known, cluster.state := w.rows, w.known, w.state;
    }

    /** One look: the claim is taken when the server is free, and the table is sound either way. */
    method TryClaim(id: string) returns (claimed: bool)
      requires SoundRegistry(tracker.table.registry)
      modifies tracker`inflight, tracker.table
      ensures SoundRegistry(tracker.table.registry) && claimed == old(FreeIn(Now(), id))
      ensures claimed ==> id in tracker.inflight && fresh(tracker.inflight[id])
      ensures claimed ==> tracker.inflight[id].serverId == id && tracker.table.Owns(tracker.inflight[id])
      ensures claimed ==>
        Now() == old(Now()).(registry := Claimed(old(Now()).registry, id), inflight := tracker.inflight)
      ensures !claimed ==> Now() == Looked(old(Now()), id)
      ensures !claimed ==> (id in tracker.table.registry.active <==> id in old(tracker.table.registry.active))
    {
      claimed := tracker.TryBegin(id);
      assert unchanged(store) && unchanged(cluster);
      ClaimAndReleaseFrees(old(tracker.table.registry), id);
    }

    /** One claim and, when it fails, one wait; `over` says that the loop ends here. */
    method LookOnce(id: string, turns: seq<Turn>, look: nat, patience: nat)
      returns (claimed: bool, over: bool, gaveUp: bool)
      requires SoundRegistry(tracker.table.registry) && SoundTurns(turns) && look <= |turns|
      modifies cluster, store`rows, tracker`inflight, tracker.table
      ensures SoundRegistry(tracker.table.registry) && claimed == old(FreeIn(Now(), id))
      ensures claimed ==> id in tracker.inflight && fresh(tracker.inflight[id]) && tracker.inflight[id].serverId == id
      ensures claimed ==> tracker.table.Owns(tracker.inflight[id])
      ensures claimed ==> Now() == ClaimedWorld(old(Now()), id, tracker.inflight)
      ensures claimed ==> over && !gaveUp
      ensures var wait := AwaitFrom(old(Now()), turns, look, patience, id);
        over ==> wait == if claimed then Claims(old(Now())) else if gaveUp then GaveUp(Now())
                         else if look == |turns| then Looking(Now()) else Blocked(Now())
      ensures var wait := AwaitFrom(old(Now()), turns, look, patience, id);
        !over ==> look < |turns| && wait == AwaitFrom(Now(), turns, look + 1, patience, id)
    {
      AwaitOnce(Now(), turns, look, patience, id);
      claimed := TryClaim(id);
      if claimed || look == |turns| {
        return claimed, true, false;
      }
      var passed := WaitForServerTransition(id, turns[look], patience <= look);
      return false, !passed, !passed && patience <= look;
    }

    /** Claims the server for a wake, waiting for its owner as often as it takes. */
    method WaitAndClaim(id: string, turns: seq<Turn>, patience: nat)
      returns (claimed: bool, gaveUp: bool, ghost wait: Waited)
      requires SoundRegistry(tracker.table.registry) && SoundTurns(turns)
      modifies cluster, store`rows, tracker`inflight, tracker.table
      ensures wait == old(Await(Now(), turns, patience, id)) && claimed == wait.Claims? && gaveUp == wait.GaveUp?
      ensures SoundRegistry(tracker.table.registry)
      ensures !wait.Claims? ==> Now() == wait.world
      ensures claimed ==> CanClaim(wait.world.registry, id) && id in tracker.inflight
      ensures claimed ==> tracker.inflight[id].serverId == id && tracker.table.Owns(tracker.inflight[id])
      ensures claimed ==> fresh(tracker.inflight[id])
      ensures claimed ==> Now() == ClaimedWorld(wait.world, id, tracker.inflight)
    {
      var look := 0;
      wait := Await(Now(), turns, patience, id);
      assert turns[0..] == turns;
      while true
        invariant look <= |turns| && SoundRegistry(tracker.table.registry)
        invariant wait == AwaitFrom(Now(), turns, look, patience, id)
        decreases |turns| - look
      {
        var over: bool;
        claimed, over, gaveUp := LookOnce(id, turns, look, patience);
        if over {
          return;
        }
        look := look + 1;
      }
    }

    /** Looks for an owner and waits for its release or for the end of the context. */
    method WaitForServerTransition(id: string, turn: Turn, ended: bool) returns (passed: bool)
      requires SoundRegistry(turn.wait.registry) && SoundRegistry(turn.next.registry)
      modifies cluster, store`rows, tracker`inflight, tracker.table
      ensures passed == Passes(turn, id, ended)
      ensures passed <==>
        id !in turn.wait.registry.active
        || (turn.wait.registry.active[id] in turn.next.registry.closed && !(ended && !turn.picksDone))
      ensures Now() == if passed then turn.next else turn.wait
    {
      LetOthers(turn.wait);
      var owned := tracker.table.ServerTransitionInFlight(id);
      if owned {
        var done := tracker.table.registry.active[id];
        if done !in turn.next.registry.closed || (ended && !turn.picksDone) {
          return false;
        }
      }
      LetOthers(turn.next);
      return true;
    }

    /** The whole wake call. It wakes the server over the world in which its wait ended, and gives the
        claim back; the result is None while the wait is not over. */
    method WakeServer(id: string, polls: nat, now: int, turns: seq<Turn>, patience: nat) returns (r: Option<WakeResult>)
      requires SoundRegistry(tracker.table.registry) && SoundTurns(turns)
      modifies cluster, store, tracker`inflight, tracker`since, tracker`sightings, tracker.table
      ensures var wait := old(Await(Now(), turns, patience, id));
        !wait.Claims? ==> Now() == wait.world && r == if wait.GaveUp? then Some(WakeRefused) else None
      ensures var wait := old(Await(Now(), turns, patience, id));
        wait.Claims? ==> r.Some? && tracker.table.registry == ClaimAndRelease(wait.world.registry, id)
      ensures var wait := old(Await(Now(), turns, patience, id));
        wait.Claims? ==> WokenHonestly(r.value, wait.world, store.rows, cluster.known, id, now, store.writeFailed)
      ensures var wait := old(Await(Now(), turns, patience, id));
        wait.Claims? && !hasPreparer && store.reliable && CanBeWoken(cluster, wait.world.rows, id) ==> r == Some(Awake)
      ensures var wait := old(Await(Now(), turns, patience, id));
        var w := wait.world.rows;
        wait.Claims? && id in w ==>
          && (!hasPreparer && store.reliable && WorksOver(cluster, w, id) && w[id].status == DeepSleep ==>
                r == Some(Awake))
          && (!hasPreparer && store.reliable && WorksOver(cluster, w, id) && w[id].autoDeepSleep ==>
                (w[id].status in {Stopped, Creating} ==> r == Some(Awake)))
          && (store.reliable && w[id].status == Running ==> r == Some(AlreadyRunning))
          && (w[id].status !in {DeepSleep, Running, Stopped, Creating} ==> r == Some(WakeRefused))
          && (w[id].status in {Stopped, Creating} && !w[id].autoDeepSleep ==> r == Some(WakeRefused))
    {
      var claimed, gaveUp, wait := WaitAndClaim(id, turns, patience);
      if !claimed {
        return if gaveUp then Some(WakeRefused) else None;
      }
      var woken := WakeClaimed(id, polls, now);
      assert WokenHonestly(woken, wait.world, store.rows, cluster.known, id, now, store.writeFailed);
      label done_:
      tracker.End(id);
      assert unchanged@done_(store) && unchanged@done_(cluster);
      return Some(woken);
    }
  }

  datatype Call = Sleep(polls: nat) | Wake(polls: nat, now: int)

  /** What one call does to the agreement of the stored status with the container: it does nothing, or
      leaves them in agreement whatever held before, or the status write that closes it failed. */
  method OneCall(m: Manager, id: string, call: Call) returns (ghost effect: Effect)
    requires id in m.store.rows
    modifies m.cluster, m.store, m.tracker`since, m.tracker`sightings
    ensures id in m.store.rows && effect != PauseHidden && (m.store.reliable ==> effect != WriteLost)
    ensures effect == Untouched ==> m.store.rows == old(m.store.rows) && m.cluster.known == old(m.cluster.known)
    ensures effect == Settled ==> Agrees(m.store.rows[id].status, m.cluster.known, m.store.rows[id].containerId)
    ensures effect == WriteLost ==> m.store.writeFailed
    ensures call.Sleep? && old(m.SleepsReliably(id)) ==> effect == Settled
    ensures call.Wake? && !m.hasPreparer && m.store.reliable && old(CanBeWoken(m.cluster, m.store.rows, id)) ==>
      effect == Settled
  {
    match call {
      case Sleep(polls) =>
        var r := m.SleepClaimed(id, polls);
        effect := if r.Refused? then Untouched else if r.SleepFailed? && m.store.writeFailed then WriteLost
                          else Settled;
      case Wake(polls, now) =>
        var r := m.WakeClaimed(id, polls, now);
        effect := if r.WakeRefused? || r.AlreadyRunning? then Untouched
                  else if r.WakeFailed? && m.store.writeFailed && !r.putBack then WriteLost
                  else Settled;
    }
  }

  /** Any sequence of sleeps and wakes of one server: at the end the store says of the container what was
      last established about it, unless the last call that did something lost its closing write. */
  method AnyCalls(m: Manager, id: string, calls: seq<Call>) returns (ghost effects: seq<Effect>)
    requires id in m.store.rows
    modifies m.cluster, m.store, m.tracker`since, m.tracker`sightings
    ensures id in m.store.rows && |effects| == |calls|
    ensures forall k :: 0 <= k < |calls| ==> effects[k] != PauseHidden && (m.store.reliable ==> effects[k] != WriteLost)
    ensures Latest(effects) == Settled ==>
      Agrees(m.store.rows[id].status, m.cluster.known, m.store.rows[id].containerId)
    ensures Latest(effects) == Settled && m.store.rows[id].status in {DeepSleep, Running} ==>
      m.store.rows[id].containerId in m.cluster.known
      && m.cluster.known[m.store.rows[id].containerId]
         == if m.store.rows[id].status == DeepSleep then Stopped else Running
    ensures Latest(effects) == Untouched ==>
      m.store.rows == old(m.store.rows) && m.cluster.known == old(m.cluster.known)
    ensures Latest(effects) in {Untouched, Settled, WriteLost}
  {
    effects := [];
    for k := 0 to |calls|
      invariant id in m.store.rows && |effects| == k
      invariant forall j :: 0 <= j < k ==> effects[j] != PauseHidden && (m.store.reliable ==> effects[j] != WriteLost)
      invariant Latest(effects) == Settled ==>
        Agrees(m.store.rows[id].status, m.cluster.known, m.store.rows[id].containerId)
      invariant Latest(effects) == Untouched ==>
        m.store.rows == old(m.store.rows) && m.cluster.known == old(m.cluster.known)
      invariant Latest(effects) in {Untouched, Settled, WriteLost}
    {
      ghost var effect := OneCall(m, id, calls[k]);
      LatestOf(effects, effect);
      effects := effects + [effect];
    }
  }

  predicate MayWake(srv: Server) {
    srv.status == DeepSleep || (srv.autoDeepSleep && (srv.status == Stopped || srv.status == Creating))
  }

  ghost predicate CanBeWoken(cluster: Cluster, rows: map<string, Server>, id: string) {
    WorksOver(cluster, rows, id) && MayWake(rows[id])
  }

  /** One world in which nothing fails: a server with this status over a container in this state. */
  method OneServer(status: Status, state: Seen) returns (m: Manager)
    ensures fresh(m) && fresh(m.cluster) && fresh(m.store) && fresh(m.tracker) && !m.hasPreparer && !m.hasCommander
    ensures m.store.rows == map["srv" := Server("node", "box", status, true, None)] && m.store.reliable
    ensures m.cluster.reliable && m.cluster.state == map["box" := state] && m.cluster.host == map["box" := 0]
    ensures m.cluster.resolver == map["node" := 0]
  {
    var cluster := new Cluster(map["node" := 0], None, map["box" := 0], true, map["box" := state]);
    var store := new ServerStore(map["srv" := Server("node", "box", status, true, None)], true);
    var table := new TransitionTable();
    var tracker := new Tracker(table);
    m := new Manager(cluster, store, tracker, false, false);
  }

  /** There a sleep puts the container down, and a wake brings it up again. */
  method SleepsAtOneInput() returns (status: Status, state: Status)
    ensures status == DeepSleep && state == Stopped
  {
    var m := OneServer(Running, Running);
    assert Works(m.cluster, m.store, "srv");
    var _ := m.SleepClaimed("srv", 0);
    return m.store.rows["srv"].status, m.cluster.state["box"];
  }

  method WakesAtOneInput(now: int) returns (status: Status, state: Status)
    ensures status == Running && state == Running
  {
    var m := OneServer(DeepSleep, Stopped);
    assert Works(m.cluster, m.store, "srv");
    var _ := m.WakeClaimed("srv", 0, now);
    return m.store.rows["srv"].status, m.cluster.state["box"];
  }
}
