/** The process-wide claim on a server's lifecycle and its ownership-checked handle
    (internal/docker/transition.go). Channels are numbered in the order they are made. */
module ServerTransitions {
  /** Who owns which server, by the channel that will be closed on release. */
  datatype Registry = Registry(active: map<string, nat>, closed: set<nat>, made: nat)

  const EmptyRegistry := Registry(map[], {}, 0)

  /** Registered channels are open and belong to one server; every channel ever made is
      registered or closed, so nobody can wait on one that will never be closed. */
  ghost predicate SoundRegistry(r: Registry) {
    && (forall s :: s in r.active ==> s != "" && r.active[s] < r.made && r.active[s] !in r.closed)
    && (forall s, t :: s in r.active && t in r.active && r.active[s] == r.active[t] ==> s == t)
    && (forall c :: c in r.closed ==> c < r.made)
    && (forall c: nat :: c < r.made ==> c in r.closed || Registered(r, c))
  }

  ghost predicate Registered(r: Registry, c: nat) {
    exists s :: s in r.active && r.active[s] == c
  }

  predicate CanClaim(r: Registry, serverId: string) {
    serverId != "" && serverId !in r.active
  }

  function Claimed(r: Registry, serverId: string): Registry {
    r.(active := r.active[serverId := r.made], made := r.made + 1)
  }

  /** The first release of a handle: its registration goes only if it is still the owner. */
  function Released(r: Registry, serverId: string, c: nat): Registry {
    r.(active := if serverId in r.active && r.active[serverId] == c then r.active - {serverId} else r.active,
       closed := r.closed + {c})
  }

  lemma ClaimKeepsSound(r: Registry, serverId: string)
    requires SoundRegistry(r) && CanClaim(r, serverId)
    ensures SoundRegistry(Claimed(r, serverId))
  {
    var r' := Claimed(r, serverId);
    forall c: nat | c < r'.made
      ensures c in r'.closed || Registered(r', c)
    {
      if c == r.made {
        assert r'.active[serverId] == c;
      } else if c !in r.closed {
        var s :| s in r.active && r.active[s] == c;
        assert s in r'.active && r'.active[s] == c;
      }
    }
  }

  lemma ReleaseKeepsSound(r: Registry, serverId: string, c: nat)
    requires SoundRegistry(r) && serverId in r.active && r.active[serverId] == c
    ensures SoundRegistry(Released(r, serverId, c))
  {
    var r' := Released(r, serverId, c);
    forall d: nat | d < r'.made
      ensures d in r'.closed || Registered(r', d)
    {
      if d != c && d !in r.closed {
        var s :| s in r.active && r.active[s] == d;
        assert s in r'.active && r'.active[s] == d;
      }
    }
  }

  /** A claim that was taken and given back: only its channel is left, closed. */
  function ClaimAndRelease(r: Registry, serverId: string): Registry {
    if CanClaim(r, serverId) then Released(Claimed(r, serverId), serverId, r.made) else r
  }

  lemma ClaimAndReleaseFrees(r: Registry, serverId: string)
    requires SoundRegistry(r)
    ensures SoundRegistry(ClaimAndRelease(r, serverId)) && ClaimAndRelease(r, serverId).active == r.active
  {
    if CanClaim(r, serverId) {
      ClaimKeepsSound(r, serverId);
      ReleaseKeepsSound(Claimed(r, serverId), serverId, r.made);
    }
  }

  /** A handle on a claim. Only its holder can release the claim, and only once. */
  class Transition {
    const serverId: string
    const done: nat
    var released: bool

    constructor (serverId: string, done: nat)
      ensures this.serverId == serverId && this.done == done && !released
    {
      this.serverId := serverId;
      this.done := done;
      released := false;
    }
  }

  class TransitionTable {
    var registry: Registry

    constructor ()
      ensures registry == EmptyRegistry && SoundRegistry(registry)
    {
      registry := EmptyRegistry;
    }

    /** A handle not yet released is the current owner of its server. */
    ghost predicate Owns(t: Transition)
      reads this, t
    {
      !t.released && t.serverId in registry.active && registry.active[t.serverId] == t.done
    }

    /** A handle is consistent when it is the owner, or has been released and its channel closed. */
    ghost predicate Knows(t: Transition)
      reads this, t
    {
      if t.released then t.done in registry.closed else Owns(t)
    }

    method TryBeginServerTransition(serverId: string) returns (t: Transition?)
      requires SoundRegistry(registry)
      modifies this
      ensures SoundRegistry(registry)
      ensures t != null <==> CanClaim(old(registry), serverId)
      ensures t == null ==> registry == old(registry)
      ensures t != null ==>
        fresh(t) && t.serverId == serverId && Owns(t) && registry == Claimed(old(registry), serverId)
    {
      if serverId == "" || serverId in registry.active {
        return null;
      }
      ClaimKeepsSound(registry, serverId);
      t := new Transition(serverId, registry.made);
      registry := Claimed(registry, serverId);
    }

    /** Idempotent. A handle that is not the owner changes no registration, so a stale one
        cannot evict a later owner. */
    method Release(t: Transition?)
      modifies this, t
      ensures t == null || old(t.released) ==> registry == old(registry)
      ensures t != null ==> t.released
      ensures t != null && !old(t.released) ==> registry == Released(old(registry), t.serverId, t.done)
      ensures t != null ==> forall s :: s in old(registry).active && old(registry).active[s] != t.done ==>
        s in registry.active && registry.active[s] == old(registry).active[s]
      ensures old(SoundRegistry(registry)) && (t != null ==> old(Knows(t))) ==>
        SoundRegistry(registry) && (t != null ==> Knows(t))
    {
      if t == null || t.released {
        return;
      }
      ghost var before := registry;
      registry := Released(registry, t.serverId, t.done);
      t.released := true;
      if SoundRegistry(before) && old(Knows(t)) {
        ReleaseKeepsSound(before, t.serverId, t.done);
      }
    }

    method ServerTransitionInFlight(serverId: string) returns (busy: bool)
      ensures busy == (serverId in registry.active)
    {
      busy := serverId in registry.active;
    }
  }
}
