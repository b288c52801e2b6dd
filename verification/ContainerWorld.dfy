/** The two things the idle managers act on: containers behind Docker daemons, and server rows
    in the store. Every call may fail. What a container really is stays unknown; `known` is
    what the calls made so far have established about it. */
module ContainerWorld {
  import opened Wrappers

  datatype Status = Stopped | Starting | Running | Stopping | Error | Unhealthy | Creating | Paused | DeepSleep

  /** A status that a look at a container can show. */
  type Seen = s: Status | s != DeepSleep witness Stopped

  type DaemonId = nat

  /** What a stored status says about the container, if anything. */
  function Says(status: Status): Option<Seen> {
    match status
    case DeepSleep => Some(Stopped)
    case Running => Some(Running)
    case Paused => Some(Paused)
    case Starting => Some(Starting)
    case Unhealthy => Some(Unhealthy)
    case _ => None
  }

  /** A stored status that speaks of the container says what was last established about it. */
  ghost predicate Agrees(status: Status, known: map<string, Seen>, c: string) {
    Says(status).Some? ==> c in known && known[c] == Says(status).value
  }

  /** What one call of a manager did: nothing; something that left the stored status in agreement; a
      closing status write that failed; or a pause that took hold although it was reported as failed. */
  datatype Effect = Untouched | Settled | WriteLost | PauseHidden

  /** The effect of the last call that did something. */
  function Latest(effects: seq<Effect>): Effect {
    if effects == [] then Untouched
    else if effects[|effects| - 1] != Untouched then effects[|effects| - 1]
    else Latest(effects[..|effects| - 1])
  }

  /** The daemons of all nodes. A container lives on one daemon; through any other it is not found. */
  class Cluster {
    const resolver: map<string, DaemonId>
    const fallback: Option<DaemonId>
    const host: map<string, DaemonId>
    /** With `reliable` set, no call for a container on its own daemon fails, nobody gives up waiting,
        and containers do what they are asked: `state` is then how they really are. */
    const reliable: bool
    var state: map<string, Seen>
    ghost var known: map<string, Seen>

    constructor (resolver: map<string, DaemonId>, fallback: Option<DaemonId>, host: map<string, DaemonId>,
                 reliable: bool, state: map<string, Seen>)
      ensures this.resolver == resolver && this.fallback == fallback && this.host == host
      ensures this.reliable == reliable && this.state == state && known == map[]
    {
      this.resolver, this.fallback, this.host := resolver, fallback, host;
      this.reliable, this.state := reliable, state;
      known := map[];
    }

    /** The daemon that serves a node. Only the local node may fall back to the default one. */
    function Controller(nodeId: string): (d: Option<DaemonId>)
      ensures d.Some? && nodeId !in {"", "local", "default"} ==> nodeId in resolver && d.value == resolver[nodeId]
      ensures nodeId in resolver ==> d == Some(resolver[nodeId])
      ensures nodeId !in resolver && nodeId in {"", "local", "default"} ==> d == fallback
      ensures nodeId !in resolver && nodeId !in {"", "local", "default"} ==> d == None
    {
      if nodeId in resolver then Some(resolver[nodeId])
      else if nodeId == "" || nodeId == "local" || nodeId == "default" then fallback
      else None
    }

    predicate Hosts(d: DaemonId, c: string) {
      c in host && host[c] == d
    }

    /** Calls for this container through this daemon cannot fail. */
    predicate Reaches(d: DaemonId, c: string) {
      reliable && Hosts(d, c)
    }

    predicate Is(c: string, status: Status)
      reads this`state
    {
      c in state && state[c] == status
    }

    ghost function Forget(c: string): map<string, Seen>
      reads this`known
    {
      known - {c}
    }

    method GetContainerStatus(d: DaemonId, c: string) returns (r: Option<Seen>)
      modifies this`known
      ensures r.Some? ==> Hosts(d, c) && known == old(known)[c := r.value]
      ensures r.None? ==> known == old(known)
      ensures Reaches(d, c) && c in state ==> r == Some(state[c])
    {
      var answers: bool := *;
      if !Hosts(d, c) || (!answers && !reliable) {
        return None;
      }
      var status: Seen := *;
      if reliable && c in state { status := state[c]; }
      known := known[c := status];
      return Some(status);
    }

    /** Start, stop and unpause. Some calls that succeed establish the state they ask for; of the others
        it must still be observed. A call that fails may have taken effect before the error. */
    method Change(d: DaemonId, c: string, target: Seen, establishes: bool) returns (ok: bool)
      modifies this`known, this`state
      ensures ok ==> Hosts(d, c) && Is(c, target)
      ensures ok ==> known == if establishes then old(known)[c := target] else old(Forget(c))
      ensures !ok ==> known == old(known) || known == old(Forget(c))
      ensures Reaches(d, c) ==> ok
    {
      var accepted: bool := *;
      ok := Hosts(d, c) && (accepted || reliable);
      if ok {
        known := if establishes then known[c := target] else known - {c};
        state := state[c := target];
      } else {
        var tookEffect: bool := *;
        if tookEffect && Hosts(d, c) {
          known := known - {c};
          state := state - {c};
        }
      }
    }

    method StartContainer(d: DaemonId, c: string) returns (ok: bool)
      modifies this`known, this`state
      ensures ok ==> Hosts(d, c) && known == old(Forget(c)) && Is(c, Running)
      ensures !ok ==> known == old(known) || known == old(Forget(c))
      ensures Reaches(d, c) ==> ok
    {
      ok := Change(d, c, Running, false);
    }

    /** Stopping reports whether the container was found; one that was found is down. */
    method StopContainer(d: DaemonId, c: string) returns (found: bool, ok: bool)
      modifies this`known, this`state
      ensures found ==> ok && Hosts(d, c) && known == old(known)[c := Stopped] && Is(c, Stopped)
      ensures !found ==> known == old(known) || known == old(Forget(c))
      ensures Reaches(d, c) ==> found
    {
      var gone: bool := *;
      if gone && !Reaches(d, c) {
        known, state := known - {c}, state - {c};
        return false, true;
      }
      ok := Change(d, c, Stopped, true);
      found := ok;
    }

    /** Pausing only asks; that the freezer took hold must still be observed. With a lost reply the
        daemon did it and reported a failure. */
    method PauseContainer(d: DaemonId, c: string, fault: Fault) returns (ok: bool)
      modifies this`known, this`state
      ensures ok <==> Hosts(d, c) && fault == NoFault
      ensures if Hosts(d, c) && fault.Effective() then known == old(Forget(c)) && Is(c, Paused)
              else known == old(known) && state == old(state)
    {
      if Hosts(d, c) && fault.Effective() {
        known, state := known - {c}, state[c := Paused];
      }
      return Hosts(d, c) && fault == NoFault;
    }

    method UnpauseContainer(d: DaemonId, c: string) returns (ok: bool)
      modifies this`known, this`state
      ensures ok ==> Hosts(d, c) && known == old(known)[c := Running] && Is(c, Running)
      ensures !ok ==> known == old(known) || known == old(Forget(c))
      ensures Reaches(d, c) ==> ok
    {
      ok := Change(d, c, Running, true);
    }

    method SetRestartPolicy(d: DaemonId, c: string) returns (ok: bool)
      ensures ok ==> Hosts(d, c)
      ensures Reaches(d, c) ==> ok
    {
      var accepted: bool := *;
      ok := Hosts(d, c) && (accepted || reliable);
    }

    /** Console commands ask the game to save and exit, so the container may go down by itself. */
    method SendCommands(c: string)
      modifies this`known, this`state
      ensures known == old(known) - {c}
      ensures old(Is(c, Running)) ==> Is(c, Running) || Is(c, Stopped)
    {
      known := known - {c};
      var exits: bool := *;
      if exits && c in state { state := state[c := Stopped]; }
    }

    /** Whether a wait is given up early. */
    method Cancelled() returns (cancelled: bool)
      ensures reliable ==> !cancelled
    {
      cancelled := *;
      cancelled := cancelled && !reliable;
    }
  }

  datatype Server = Server(nodeId: string, containerId: string,
    status: Status, autoDeepSleep: bool, lastStarted: Option<int>)

  /** Server rows. A write that fails leaves the row as it was; with `reliable` set nothing fails. */
  class ServerStore {
    const reliable: bool
    var rows: map<string, Server>
    /** History: whether the latest write failed. */
    ghost var writeFailed: bool

    constructor (rows: map<string, Server>, reliable: bool)
      ensures this.rows == rows && this.reliable == reliable && !writeFailed
    {
      this.rows, this.reliable := rows, reliable;
      writeFailed := false;
    }

    method GetServer(id: string) returns (r: Option<Server>)
      ensures r.Some? ==> id in rows && r.value == rows[id]
      ensures reliable && id in rows ==> r.Some?
    {
      var answers: bool := *;
      r := if (answers || reliable) && id in rows then Some(rows[id]) else None;
    }

    method UpdateServerStatus(id: string, status: Status) returns (ok: bool)
      modifies this
      ensures writeFailed == !ok && (reliable ==> ok)
      ensures ok ==> rows == if id in old(rows) then old(rows)[id := old(rows)[id].(status := status)] else old(rows)
      ensures !ok ==> rows == old(rows)
    {
      ok := *;
      ok := ok || reliable;
      writeFailed := !ok;
      if ok && id in rows {
        rows := rows[id := rows[id].(status := status)];
      }
    }

    method UpdateServer(id: string, server: Server) returns (ok: bool)
      modifies this
      ensures writeFailed == !ok && (reliable ==> ok)
      ensures rows == if ok then old(rows)[id := server] else old(rows)
    {
      ok := *;
      ok := ok || reliable;
      writeFailed := !ok;
      if ok {
        rows := rows[id := server];
      }
    }
  }

  lemma LatestOf(effects: seq<Effect>, e: Effect)
    ensures Latest(effects + [e]) == if e != Untouched then e else Latest(effects)
  {
    assert (effects + [e])[..|effects|] == effects;
  }

  /** Nothing can fail for this server: its container is behind the daemon its node leads to. */
  ghost predicate Works(cluster: Cluster, store: ServerStore, id: string)
    reads store`rows
  {
    store.reliable && WorksOver(cluster, store.rows, id)
  }

  ghost predicate WorksOver(cluster: Cluster, rows: map<string, Server>, id: string) {
    cluster.reliable && id in rows && rows[id].containerId != ""
    && cluster.Controller(rows[id].nodeId).Some?
    && cluster.Hosts(cluster.Controller(rows[id].nodeId).value, rows[id].containerId)
  }
}
