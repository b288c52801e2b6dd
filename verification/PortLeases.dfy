/** Backend ports held per node for one server each: first-fit reservation of a game port with the
    RCON port ten above it (internal/db/portlease.go). */
module PortLeases {
  import opened Wrappers

  const START := 25566
  const END := 30000
  const GAP := 10
  const ATTEMPTS := 8

  /** The primary key of a lease: no node port can have two holders. */
  datatype Slot = Slot(node: string, port: int)

  type Leases = map<Slot, string>

  /** The fields of a server row that reservations look at. */
  datatype ServerRow = ServerRow(node: string, port: int)

  datatype Failure = BadRequest | NoBackendPort | KeyTaken | StoreFailed

  datatype World = World(leases: Leases, servers: map<string, ServerRow>)

  /** The server holds exactly the pair (p, p + 10) on the node. */
  ghost predicate HoldsPair(leases: Leases, server: string, node: string, p: int) {
    && START <= p && p + GAP <= END
    && forall slot :: slot in leases && leases[slot] == server <==> slot in {Slot(node, p), Slot(node, p + GAP)}
  }

  ghost predicate HoldsNothing(leases: Leases, server: string) {
    forall slot :: slot in leases ==> leases[slot] != server
  }

  /** Every server holds nothing or one pair on one node. */
  ghost predicate Sound(leases: Leases) {
    forall server :: HoldsNothing(leases, server) || exists node, p :: HoldsPair(leases, server, node, p)
  }

  function Without(leases: Leases, server: string): Leases {
    map slot | slot in leases && leases[slot] != server :: leases[slot]
  }

  /** A port of the node that a lease or a row of another server blocks. */
  predicate Used(leases: Leases, servers: map<string, ServerRow>, node: string, except: string, port: int) {
    || (Slot(node, port) in leases && leases[Slot(node, port)] != except)
    || exists s :: s in servers && s != except && servers[s].node == node && servers[s].port > 0
                   && (port == servers[s].port || port == servers[s].port + GAP)
  }

  predicate Candidate(blocked: set<int>, p: int) {
    START <= p && p + GAP <= END && p !in blocked && p + GAP !in blocked
  }

  /** The pair starting at `p` is in range, and neither port is taken by another server's lease or row
      or by what the node already publishes. */
  predicate PairFree(
    leases: Leases, servers: map<string, ServerRow>, node: string, server: string, extra: set<int>, p: int)
  {
    && START <= p && p + GAP <= END && p !in extra && p + GAP !in extra
    && !Used(leases, servers, node, server, p) && !Used(leases, servers, node, server, p + GAP)
  }

  ghost predicate NoneFree(
    leases: Leases, servers: map<string, ServerRow>, node: string, server: string, extra: set<int>)
  {
    forall p :: !PairFree(leases, servers, node, server, extra, p)
  }

  /** A server holds the same ports in both tables. */
  ghost predicate SameHolding(a: Leases, b: Leases, server: string) {
    forall slot :: slot in a && a[slot] == server <==> slot in b && b[slot] == server
  }

  // ---------------------------------------------------------------- one attempt

  /** The table an attempt leaves when it may write the pair starting at `p`. */
  function WithPair(leases: Leases, node: string, p: int, server: string): Leases {
    Without(leases, server)[Slot(node, p) := server][Slot(node, p + GAP) := server]
  }

  /** Giving a server a pair that nobody else holds keeps the table sound. */
  lemma WithPairKeepsSound(leases: Leases, node: string, p: int, server: string)
    requires Sound(leases) && START <= p && p + GAP <= END
    requires Slot(node, p) !in Without(leases, server) && Slot(node, p + GAP) !in Without(leases, server)
    ensures Sound(WithPair(leases, node, p, server)) && HoldsPair(WithPair(leases, node, p, server), server, node, p)
    ensures forall other :: other != server ==> SameHolding(WithPair(leases, node, p, server), leases, other)
  {
    var after := WithPair(leases, node, p, server);
    assert HoldsPair(after, server, node, p);
    forall other | other != server
      ensures SameHolding(after, leases, other)
      ensures HoldsNothing(after, other) || exists n, q :: HoldsPair(after, other, n, q)
    {
      OthersKeepTheirs(leases, after, other);
    }
  }

  lemma OthersKeepTheirs(leases: Leases, after: Leases, other: string)
    requires Sound(leases) && SameHolding(after, leases, other)
    ensures HoldsNothing(after, other) || exists n, q :: HoldsPair(after, other, n, q)
  {
    if !HoldsNothing(leases, other) {
      var n, q :| HoldsPair(leases, other, n, q);
      assert HoldsPair(after, other, n, q);
    }
  }

  lemma WithoutKeepsSound(leases: Leases, server: string)
    requires Sound(leases)
    ensures Sound(Without(leases, server)) && HoldsNothing(Without(leases, server), server)
  {
    forall other | other != server
      ensures HoldsNothing(Without(leases, server), other)
        || exists n, q :: HoldsPair(Without(leases, server), other, n, q)
    {
      OthersKeepTheirs(leases, Without(leases, server), other);
    }
  }

  lemma CandidatesAreFree(
    leases: Leases, servers: map<string, ServerRow>, node: string, server: string, used: set<int>, extra: set<int>)
    requires forall port :: port in used <==> Used(leases, servers, node, server, port)
    ensures forall p :: Candidate(used + extra, p) <==> PairFree(leases, servers, node, server, extra, p)
  {
    forall p ensures Candidate(used + extra, p) <==> PairFree(leases, servers, node, server, extra, p) {
      assert p in used + extra <==> p in used || p in extra;
      assert p + GAP in used + extra <==> p + GAP in used || p + GAP in extra;
    }
  }

  /** What a transaction meets: the tables when it looks for a pair, the tables as other transactions have
      left them when it writes, and whether the store fails it for a reason other than a taken key. */
  datatype Round = Round(look: World, write: World, fails: bool)

  /** Nobody else reserves for this server meanwhile. */
  ghost predicate Possible(round: Round, server: string) {
    Sound(round.look.leases) && Sound(round.write.leases) && SameHolding(round.look.leases, round.write.leases, server)
  }

  /** The first pair that the look finds free. */
  ghost predicate Least(w: World, node: string, server: string, extra: set<int>, p: int) {
    && PairFree(w.leases, w.servers, node, server, extra, p)
    && forall q :: q < p ==> !PairFree(w.leases, w.servers, node, server, extra, q)
  }

  /** Why a server cannot have the game port `p` and the RCON port ten above it: the node publishes one of
      them, another server has a lease on one of them, or another server's row has one of them as its game
      port or ten below. */
  ghost predicate TakenPair(w: World, node: string, server: string, extra: set<int>, p: int) {
    || p in extra || p + 10 in extra
    || (Slot(node, p) in w.leases && w.leases[Slot(node, p)] != server)
    || (Slot(node, p + 10) in w.leases && w.leases[Slot(node, p + 10)] != server)
    || (exists s :: s in w.servers && s != server && RowTakes(w.servers[s], node, p))
  }

  predicate RowTakes(row: ServerRow, node: string, p: int) {
    row.node == node && row.port > 0 && row.port in {p, p + 10, p - 10}
  }

  lemma PairsInNumbers(w: World, node: string, server: string, extra: set<int>)
    ensures forall p :: PairFree(w.leases, w.servers, node, server, extra, p) <==>
      25566 <= p <= 29990 && !TakenPair(w, node, server, extra, p)
  {
    forall p
      ensures PairFree(w.leases, w.servers, node, server, extra, p) <==>
        25566 <= p <= 29990 && !TakenPair(w, node, server, extra, p)
    {
      if s :| s in w.servers && s != server && RowTakes(w.servers[s], node, p) {
        assert Used(w.leases, w.servers, node, server, p) || Used(w.leases, w.servers, node, server, p + GAP);
      }
    }
  }

  /** No other server has a lease on either port. */
  predicate Open(leases: Leases, node: string, server: string, p: int) {
    Slot(node, p) !in Without(leases, server) && Slot(node, p + GAP) !in Without(leases, server)
  }

  /** The pair chosen at the look is taken by the time of the writes. */
  ghost predicate Collides(round: Round, node: string, server: string, extra: set<int>) {
    !round.fails && exists p :: Least(round.look, node, server, extra, p) && !Open(round.write.leases, node, server, p)
  }

  /** What one transaction gives and leaves. */
  ghost predicate Outcome(
    r: Result<int, Failure>, leases: Leases, round: Round, node: string, server: string, extra: set<int>)
  {
    match r
    case Ok(p) =>
      && !round.fails && Least(round.look, node, server, extra, p) && Open(round.write.leases, node, server, p)
      && leases == WithPair(round.write.leases, node, p, server)
    case Err(e) =>
      && leases == round.write.leases
      && match e
         case NoBackendPort => !round.fails && NoneFree(round.look.leases, round.look.servers, node, server, extra)
         case KeyTaken => Collides(round, node, server, extra)
         case StoreFailed => round.fails
         case BadRequest => false
  }

  /** What a transaction meets decides its answer and the table it leaves. */
  lemma OutcomeIsDecided(r: Result<int, Failure>, leases: Leases, r': Result<int, Failure>, leases': Leases,
                         round: Round, node: string, server: string, extra: set<int>)
    requires Outcome(r, leases, round, node, server, extra) && Outcome(r', leases', round, node, server, extra)
    ensures r == r' && leases == leases'
  {
    forall p, q | Least(round.look, node, server, extra, p) && Least(round.look, node, server, extra, q)
      ensures p == q
    {
      assert !(p < q) && !(q < p);
    }
  }

  class LeaseStore {
    var leases: Leases
    var servers: map<string, ServerRow>

    /** usedBackendPorts. */
    method UsedBackendPorts(node: string, except: string) returns (used: set<int>)
      ensures forall port :: port in used <==> Used(leases, servers, node, except, port)
    {
      used := {};
      var rest := leases.Keys;
      while rest != {}
        invariant rest <= leases.Keys
        invariant forall port :: port in used <==>
          Slot(node, port) in leases && leases[Slot(node, port)] != except && Slot(node, port) !in rest
        decreases |rest|
      {
        var slot :| slot in rest;
        rest := rest - {slot};
        if slot.node == node && leases[slot] != except {
          used := used + {slot.port};
        }
      }
      ghost var fromLeases := used;
      var rows := servers.Keys;
      while rows != {}
        invariant rows <= servers.Keys
        invariant forall port :: port in used <==>
          port in fromLeases || RowUses(servers.Keys - rows, node, except, port)
        decreases |rows|
      {
        var s :| s in rows;
        rows := rows - {s};
        if s != except && servers[s].node == node && servers[s].port > 0 {
          used := used + {servers[s].port, servers[s].port + GAP};
        }
      }
      assert servers.Keys - rows == servers.Keys;
    }

    ghost predicate RowUses(seen: set<string>, node: string, except: string, port: int)
      requires seen <= servers.Keys
      reads this
    {
      exists s :: s in seen && s != except && servers[s].node == node && servers[s].port > 0
                  && (port == servers[s].port || port == servers[s].port + GAP)
    }

    /** The first-fit loop over the candidate pairs. */
    static method FirstFit(blocked: set<int>) returns (found: Option<int>)
      ensures found.Some? ==>
        Candidate(blocked, found.value) && forall p :: p < found.value ==> !Candidate(blocked, p)
      ensures found.None? ==> forall p :: !Candidate(blocked, p)
    {
      var p := START;
      while p + GAP <= END
        invariant START <= p && forall q :: q < p ==> !Candidate(blocked, q)
      {
        if p !in blocked && p + GAP !in blocked { return Some(p); }
        p := p + 1;
      }
      return None;
    }

    method LetOthers(w: World)
      modifies this
      ensures leases == w.leases && servers == w.servers
    {
      leases, servers := w.leases, w.servers;
    }

    /** One transaction: drop the server's leases, look for a pair, write it. A collision takes everything
        it did back. */
    method Attempt(node: string, server: string, extra: set<int>, round: Round) returns (r: Result<int, Failure>)
      requires Possible(round, server)
      modifies this
      ensures Sound(leases) && servers == round.write.servers
      ensures Outcome(r, leases, round, node, server, extra)
      ensures r.Ok? ==> HoldsPair(leases, server, node, r.value)
    {
      LetOthers(round.look);
      var used := UsedBackendPorts(node, server);
      var found := FirstFit(used + extra);
      CandidatesAreFree(leases, servers, node, server, used, extra);
      LetOthers(round.write);
      if round.fails {
        return Err(StoreFailed);
      }
      if found.None? {
        return Err(NoBackendPort);
      }
      var p := found.value;
      assert Least(round.look, node, server, extra, p);
      leases := Without(leases, server);
      if Slot(node, p) in leases {
        leases := round.write.leases;
        return Err(KeyTaken);
      }
      leases := leases[Slot(node, p) := server];
      if Slot(node, p + GAP) in leases {
        leases := round.write.leases;
        return Err(KeyTaken);
      }
      leases := leases[Slot(node, p + GAP) := server];
      WithPairKeepsSound(round.write.leases, node, p, server);
      return Ok(p);
    }

    /** ReserveBackendPortPair: attempt number `k` meets `rounds[k]`. The answer is that of the attempt
        called `last`; every attempt before it, and after a KeyTaken that one too, met a collision. */
    method ReserveBackendPortPair(node: string, server: string, extra: set<int>, rounds: seq<Round>)
      returns (r: Result<(int, int), Failure>, ghost last: nat)
      requires Sound(leases) && |rounds| == ATTEMPTS && forall k :: 0 <= k < ATTEMPTS ==> Possible(rounds[k], server)
      modifies this
      ensures Sound(leases)
      ensures node == "" || server == "" <==> r == Err(BadRequest)
      ensures r == Err(BadRequest) ==> leases == old(leases) && servers == old(servers)
      ensures r.Ok? ==> r.value.1 == r.value.0 + GAP && HoldsPair(leases, server, node, r.value.0)
      ensures r != Err(BadRequest) ==>
        last < ATTEMPTS && Outcome(if r.Ok? then Ok(r.value.0) else Err(r.error),
                             leases, rounds[last], node, server, extra)
      ensures r != Err(BadRequest) ==> forall k :: 0 <= k < last ==> Collides(rounds[k], node, server, extra)
      ensures r == Err(KeyTaken) ==> last == ATTEMPTS - 1 == 7
      ensures r.Ok? ==> 25566 <= r.value.0 && r.value.1 == r.value.0 + 10 && r.value.1 <= 30000
      ensures r.Ok? ==> !TakenPair(rounds[last].look, node, server, extra, r.value.0)
      ensures r.Ok? ==>
        forall p :: 25566 <= p < r.value.0 ==> TakenPair(rounds[last].look, node, server, extra, p)
      ensures r.Ok? ==>
        && (forall slot :: slot in leases && leases[slot] == server <==>
              slot in {Slot(node, r.value.0), Slot(node, r.value.1)})
        && (forall slot :: slot in leases && leases[slot] != server <==>
              slot in rounds[last].write.leases && rounds[last].write.leases[slot] != server)
        && (forall slot :: slot in leases && leases[slot] != server ==>
              leases[slot] == rounds[last].write.leases[slot])
      ensures r == Err(NoBackendPort) ==>
        forall p :: 25566 <= p <= 29990 ==> TakenPair(rounds[last].look, node, server, extra, p)
    {
      if node == "" || server == "" { return Err(BadRequest), 0; }
      var attempt := 0;
      while attempt < ATTEMPTS
        invariant 0 <= attempt <= ATTEMPTS && Sound(leases)
        invariant forall k :: 0 <= k < attempt ==> Collides(rounds[k], node, server, extra)
        invariant 0 < attempt ==> leases == rounds[attempt - 1].write.leases
      {
        var one := Attempt(node, server, extra, rounds[attempt]);
        PairsInNumbers(rounds[attempt].look, node, server, extra);
        if one.Ok? { return Ok((one.value, one.value + GAP)), attempt; }
        if one.error != KeyTaken { return Err(one.error), attempt; }
        attempt := attempt + 1;
      }
      return Err(KeyTaken), ATTEMPTS - 1;
    }

    /** ReleaseBackendPorts. */
    method ReleaseBackendPorts(server: string)
      requires Sound(leases)
      modifies this`leases
      ensures Sound(leases) && HoldsNothing(leases, server)
      ensures forall other :: other != server ==> SameHolding(leases, old(leases), other)
    {
      WithoutKeepsSound(leases, server);
      leases := Without(leases, server);
    }
  }
}
