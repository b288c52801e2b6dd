/** The wait of a wake for the current owner of its server (internal/docker/sleep.go:430-438,
    internal/docker/transition.go:72-142). The claim and the wait are two critical sections, so other
    callers act between them. */
module WakeWait {
  import opened ContainerWorld
  import opened ServerTransitions

  /** What a wake shares with every other caller. */
  datatype World = World(
    registry: Registry, inflight: map<string, Transition>, rows: map<string, Server>,
    known: map<string, Seen>, state: map<string, Seen>)

  /** What follows a claim that failed: the world in which the wait looks for an owner, the world of the
      next claim, and whether a wait that could end either way ends with the owner's release. */
  datatype Turn = Turn(wait: World, next: World, picksDone: bool)

  /** How the wait ends: with a claim; with the end of the context; not yet, for an owner; or not yet,
      because every claim failed and every wait was over at once or ended with a release. */
  datatype Waited = Claims(world: World) | GaveUp(world: World) | Blocked(world: World) | Looking(world: World)

  ghost predicate FreeIn(w: World, id: string) {
    CanClaim(w.registry, id) && id !in w.inflight
  }

  /** WaitForServerTransition returns without an error: nobody owns the server, or the owner that was
      seen has released it, and if the context has ended too the release is what was picked. */
  predicate Passes(t: Turn, id: string, ended: bool) {
    id !in t.wait.registry.active
    || (t.wait.registry.active[id] in t.next.registry.closed && (!ended || t.picksDone))
  }

  /** A claim that fails leaves at most a closed channel behind. */
  function Looked(w: World, id: string): World {
    w.(registry := ClaimAndRelease(w.registry, id))
  }

  /** A claim that succeeds. */
  function ClaimedWorld(w: World, id: string, inflight: map<string, Transition>): World {
    w.(registry := Claimed(w.registry, id), inflight := inflight)
  }

  /** The whole wait, from a claim in world `w` on; from wait number `patience` on the context has ended. */
  ghost function Await(w: World, turns: seq<Turn>, patience: nat, id: string): Waited
    decreases |turns|
  {
    if FreeIn(w, id) then Claims(w)
    else if turns == [] then Looking(Looked(w, id))
    else if Passes(turns[0], id, patience == 0) then
      Await(turns[0].next, turns[1..], if patience == 0 then 0 else patience - 1, id)
    else if patience == 0 then GaveUp(turns[0].wait)
    else Blocked(turns[0].wait)
  }

  /** The wait from claim number `look` on. */
  ghost function AwaitFrom(w: World, turns: seq<Turn>, look: nat, patience: nat, id: string): Waited
    requires look <= |turns|
  {
    Await(w, turns[look..], if patience <= look then 0 else patience - look, id)
  }

  lemma AwaitOnce(w: World, turns: seq<Turn>, look: nat, patience: nat, id: string)
    requires look <= |turns|
    ensures AwaitFrom(w, turns, look, patience, id) ==
      if FreeIn(w, id) then Claims(w)
      else if look == |turns| then Looking(Looked(w, id))
      else if Passes(turns[look], id, patience <= look) then AwaitFrom(turns[look].next, turns, look + 1, patience, id)
      else if patience <= look then GaveUp(turns[look].wait)
      else Blocked(turns[look].wait)
  {
    if look < |turns| {
      assert turns[look..][1..] == turns[look + 1..];
    }
  }

  /** The world of claim number `k`. */
  function ClaimWorld(w: World, turns: seq<Turn>, k: nat): World
    requires k <= |turns|
  {
    if k == 0 then w else turns[k - 1].next
  }

  ghost predicate EveryClaimFails(w: World, turns: seq<Turn>, id: string) {
    forall k: nat :: k <= |turns| ==> !FreeIn(ClaimWorld(w, turns, k), id)
  }

  ghost predicate EveryWaitPasses(turns: seq<Turn>, patience: nat, id: string) {
    forall k: nat :: k < |turns| ==> Passes(turns[k], id, patience <= k)
  }

  lemma ClaimsShift(w: World, turns: seq<Turn>, id: string)
    requires turns != []
    ensures EveryClaimFails(w, turns, id) <==> !FreeIn(w, id) && EveryClaimFails(turns[0].next, turns[1..], id)
  {
    forall k: nat | k < |turns|
      ensures ClaimWorld(turns[0].next, turns[1..], k) == ClaimWorld(w, turns, k + 1)
    {
    }
    if EveryClaimFails(w, turns, id) {
      assert ClaimWorld(w, turns, 0) == w;
      forall k: nat | k <= |turns[1..]| ensures !FreeIn(ClaimWorld(turns[0].next, turns[1..], k), id) {
        assert !FreeIn(ClaimWorld(w, turns, k + 1), id);
      }
    } else {
      var k: nat :| k <= |turns| && FreeIn(ClaimWorld(w, turns, k), id);
      if k > 0 { assert FreeIn(ClaimWorld(turns[0].next, turns[1..], k - 1), id); }
    }
  }

  lemma WaitsShift(turns: seq<Turn>, patience: nat, id: string)
    requires turns != []
    ensures EveryWaitPasses(turns, patience, id) <==>
      Passes(turns[0], id, patience == 0)
      && EveryWaitPasses(turns[1..], if patience == 0 then 0 else patience - 1, id)
  {
    var rest, left := turns[1..], if patience == 0 then 0 else patience - 1;
    forall k: nat | k < |rest|
      ensures Passes(rest[k], id, left <= k) <==> Passes(turns[k + 1], id, patience <= k + 1)
    {
    }
    if Passes(turns[0], id, patience == 0) && EveryWaitPasses(rest, left, id) {
      forall k: nat | k < |turns| ensures Passes(turns[k], id, patience <= k) {
        if k > 0 { assert Passes(rest[k - 1], id, left <= k - 1); }
      }
    }
  }

  /** The wait is still going on after any number of turns exactly when every claim failed and every wait
      passed: whenever the context had ended, either nobody owned the server at that moment, or the owner
      that was seen had just released it. A wait is blocked only before its context ends. */
  lemma {:induction false} WaitGoesOnExactlyWhen(w: World, turns: seq<Turn>, patience: nat, id: string)
    ensures Await(w, turns, patience, id).Looking? <==>
      EveryClaimFails(w, turns, id) && EveryWaitPasses(turns, patience, id)
    ensures patience == 0 ==> !Await(w, turns, patience, id).Blocked?
    decreases |turns|
  {
    if turns == [] {
      assert ClaimWorld(w, turns, 0) == w;
    } else {
      ClaimsShift(w, turns, id);
      WaitsShift(turns, patience, id);
      WaitGoesOnExactlyWhen(turns[0].next, turns[1..], if patience == 0 then 0 else patience - 1, id);
    }
  }

  /** Nobody waits for a server without a name: a wake for it goes on looking, its context ended or not. */
  lemma NamelessWaitGoesOn(w: World, turns: seq<Turn>, patience: nat)
    requires forall k: nat :: k < |turns| ==> SoundRegistry(turns[k].wait.registry)
    ensures Await(w, turns, patience, "").Looking?
  {
    WaitGoesOnExactlyWhen(w, turns, patience, "");
  }

  /** With its context alive, a wake is let through by the release it waited for, and then claims the server
      if that is free. */
  lemma ReleaseLetsThrough(w: World, t: Turn, patience: nat, id: string)
    requires !FreeIn(w, id) && patience > 0 && id in t.wait.registry.active
    requires t.wait.registry.active[id] in t.next.registry.closed
    requires id != "" && id !in t.next.registry.active && id !in t.next.inflight
    ensures Await(w, [t], patience, id) == Claims(t.next)
  {
  }

  /** It is not let through while the owner it saw holds on: it stays blocked, or gives up once its context
      has ended. */
  lemma OwnerHoldsItBack(w: World, t: Turn, patience: nat, id: string)
    requires !FreeIn(w, id) && id in t.wait.registry.active
    requires t.wait.registry.active[id] !in t.next.registry.closed
    ensures Await(w, [t], patience, id) == if patience == 0 then GaveUp(t.wait) else Blocked(t.wait)
  {
  }

  // ---------------------------------------------------------------- a named server passed around

  function ChannelsBelow(n: nat): (channels: set<nat>)
    ensures forall c: nat :: c in channels <==> c < n
  {
    if n == 0 then {} else ChannelsBelow(n - 1) + {n - 1}
  }

  /** Channel `n` owns the server, and all earlier ones are closed. */
  function Taken(id: string, n: nat): World {
    World(Registry(map[id := n], ChannelsBelow(n), n + 1), map[], map[], map[], map[])
  }

  /** That owner has released it. */
  function Given(n: nat): World {
    World(Registry(map[], ChannelsBelow(n + 1), n + 1), map[], map[], map[], map[])
  }

  /** One caller after the other takes the server just before each claim and gives it back just before
      each wait. */
  function PassedAround(id: string, n: nat): seq<Turn> {
    seq(n, k requires 0 <= k < n => Turn(Given(k), Taken(id, k + 1), false))
  }

  lemma TakenIsSound(id: string, n: nat)
    requires id != ""
    ensures SoundRegistry(Taken(id, n).registry) && SoundRegistry(Given(n).registry)
  {
    assert Registered(Taken(id, n).registry, n) by { assert Taken(id, n).registry.active[id] == n; }
  }

  lemma PassingTurn(id: string, n: nat, k: nat)
    requires k < n
    ensures PassedAround(id, n)[k] == Turn(Given(k), Taken(id, k + 1), false)
    ensures Passes(PassedAround(id, n)[k], id, true) && !FreeIn(PassedAround(id, n)[k].next, id)
  {
  }

  /** So a wake of a named server whose context has ended can be kept looking for any number of turns. */
  lemma NamedWaitCanGoOn(id: string, n: nat)
    requires id != ""
    ensures SoundRegistry(Taken(id, 0).registry)
    ensures forall k: nat :: k < n ==>
      SoundRegistry(PassedAround(id, n)[k].wait.registry) && SoundRegistry(PassedAround(id, n)[k].next.registry)
    ensures Await(Taken(id, 0), PassedAround(id, n), 0, id).Looking?
  {
    TakenIsSound(id, 0);
    var turns := PassedAround(id, n);
    forall k: nat | k < n
      ensures SoundRegistry(turns[k].wait.registry) && SoundRegistry(turns[k].next.registry)
    {
      TakenIsSound(id, k);
      TakenIsSound(id, k + 1);
      PassingTurn(id, n, k);
    }
    NobodyStopsIt(id, n);
    WaitGoesOnExactlyWhen(Taken(id, 0), turns, 0, id);
  }

  lemma NobodyStopsIt(id: string, n: nat)
    ensures EveryClaimFails(Taken(id, 0), PassedAround(id, n), id) && EveryWaitPasses(PassedAround(id, n), 0, id)
  {
    var turns := PassedAround(id, n);
    forall k: nat | k <= n ensures !FreeIn(ClaimWorld(Taken(id, 0), turns, k), id) {
      if k > 0 { PassingTurn(id, n, k - 1); }
    }
    forall k: nat | k < n ensures Passes(turns[k], id, 0 <= k) {
      PassingTurn(id, n, k);
    }
  }
}
