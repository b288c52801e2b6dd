/** Every interleaving of lifecycle claims: direct callers, the two idle managers with their
    own in-flight maps, and waiters (internal/docker/transition.go, internal/docker/idle.go).
    Each action is one critical section of the source. */
module TransitionRuns {
  import opened ServerTransitions

  datatype Manager = Freezer | DeepSleeper

  /** A manager's call: it has the global claim; it has recorded it locally; it found its local
      map busy; or it has taken its record out again and is about to release. */
  datatype Stage = Claiming | Recorded | Busy | Ending

  datatype Caller = Caller(manager: Manager, serverId: string, handle: nat, stage: Stage)

  datatype Slot = Slot(manager: Manager, serverId: string)

  /** An in-flight entry; `recorder` is history: the call that recorded it. */
  datatype Entry = Entry(handle: nat, recorder: nat)

  /** `server` records for whom each channel was made; `direct` are handles held outside the
      managers, which may be released at any time and any number of times. */
  datatype System = System(
    registry: Registry, server: map<nat, string>, direct: set<nat>,
    inflight: map<Slot, Entry>, callers: map<nat, Caller>, waiting: map<nat, nat>)

  const Initial := System(EmptyRegistry, map[], {}, map[], map[], map[])

  datatype Action =
    | DirectClaim(serverId: string)
    | DirectRelease(handle: nat)
    | TryBegin(c: nat, manager: Manager, serverId: string)
    | Record(c: nat)
    | BackOff(c: nat)
    | TakeOut(c: nat)
    | EndRelease(c: nat)
    | Look(w: nat, serverId: string)
    | Wake(w: nat)
    | GiveUp(w: nat)

  predicate At(s: System, c: nat, stage: Stage) {
    c in s.callers && s.callers[c].stage == stage
  }

  function Key(k: Caller): Slot { Slot(k.manager, k.serverId) }

  predicate Enabled(s: System, a: Action) {
    match a
    case DirectClaim(serverId) => CanClaim(s.registry, serverId)
    case DirectRelease(handle) => handle in s.direct
    case TryBegin(c, _, serverId) => c !in s.callers && CanClaim(s.registry, serverId)
    case Record(c) => At(s, c, Claiming)
    case BackOff(c) => At(s, c, Busy)
    case TakeOut(c) => At(s, c, Recorded)
    case EndRelease(c) => At(s, c, Ending)
    case Look(w, serverId) => w !in s.waiting && serverId in s.registry.active
    case Wake(w) => w in s.waiting && s.waiting[w] in s.registry.closed
    case GiveUp(w) => w in s.waiting
  }

  /** Release through the once-guard: a channel already closed was released before. */
  function ReleaseHandle(s: System, handle: nat): System {
    if handle in s.registry.closed || handle !in s.server then s
    else s.(registry := Released(s.registry, s.server[handle], handle))
  }

  function Left(s: System, c: nat): System {
    s.(callers := s.callers - {c})
  }

  function ClaimFor(s: System, serverId: string): System {
    s.(registry := Claimed(s.registry, serverId), server := s.server[s.registry.made := serverId])
  }

  function AfterRecord(s: System, c: nat): System
    requires c in s.callers
  {
    var k := s.callers[c];
    if Key(k) in s.inflight then s.(callers := s.callers[c := k.(stage := Busy)])
    else s.(inflight := s.inflight[Key(k) := Entry(k.handle, c)], callers := s.callers[c := k.(stage := Recorded)])
  }

  /** The call takes out, and will release, whatever the map holds for its server. */
  function AfterTakeOut(s: System, c: nat): System
    requires c in s.callers
  {
    var k := s.callers[c];
    if Key(k) in s.inflight then
      s.(inflight := s.inflight - {Key(k)},
         callers := s.callers[c := k.(stage := Ending, handle := s.inflight[Key(k)].handle)])
    else s.(callers := s.callers - {c})
  }

  function Step(s: System, a: Action): System {
    if !Enabled(s, a) then s
    else match a
      case DirectClaim(serverId) => ClaimFor(s, serverId).(direct := s.direct + {s.registry.made})
      case DirectRelease(handle) => ReleaseHandle(s, handle)
      case TryBegin(c, manager, serverId) =>
        ClaimFor(s, serverId).(callers := s.callers[c := Caller(manager, serverId, s.registry.made, Claiming)])
      case Record(c) => AfterRecord(s, c)
      case BackOff(c) => ReleaseHandle(Left(s, c), s.callers[c].handle)
      case TakeOut(c) => AfterTakeOut(s, c)
      case EndRelease(c) => ReleaseHandle(Left(s, c), s.callers[c].handle)
      case Look(w, serverId) => s.(waiting := s.waiting[w := s.registry.active[serverId]])
      case Wake(w) => s.(waiting := s.waiting - {w})
      case GiveUp(w) => s.(waiting := s.waiting - {w})
  }

  function Run(s: System, actions: seq<Action>): System
    decreases actions
  {
    if actions == [] then s else Run(Step(s, actions[0]), actions[1..])
  }

  // ---------------------------------------------------------------- invariant

  /** A channel made and not closed is the one registered for the server it was made for. */
  ghost predicate HandleSound(s: System, h: nat)
    requires h in s.server
  {
    h < s.registry.made
    && (h !in s.registry.closed ==> s.server[h] in s.registry.active && s.registry.active[s.server[h]] == h)
  }

  /** A manager's call owns the handle it will release. */
  ghost predicate CallerSound(s: System, c: nat)
    requires c in s.callers
  {
    var k := s.callers[c];
    && k.handle in s.server && k.handle !in s.registry.closed && k.handle !in s.direct
    && s.server[k.handle] == k.serverId
    && k.stage != Busy
    && (k.stage == Recorded ==> Key(k) in s.inflight && s.inflight[Key(k)] == Entry(k.handle, c))
  }

  /** An in-flight entry is the handle of the call that recorded it. */
  ghost predicate EntrySound(s: System, key: Slot)
    requires key in s.inflight
  {
    var e := s.inflight[key];
    e.recorder in s.callers && s.callers[e.recorder] == Caller(key.manager, key.serverId, e.handle, Recorded)
  }

  ghost predicate Inv(s: System) {
    && SoundRegistry(s.registry)
    && (forall h: nat :: h < s.registry.made ==> h in s.server)
    && (forall h :: h in s.server ==> HandleSound(s, h))
    && (forall c :: c in s.callers ==> CallerSound(s, c))
    && (forall b, c :: b in s.callers && c in s.callers && s.callers[b].handle == s.callers[c].handle ==> b == c)
    && (forall key :: key in s.inflight ==> EntrySound(s, key))
    && (forall h :: h in s.direct ==> h in s.server)
    && (forall w :: w in s.waiting ==> s.waiting[w] in s.server)
  }

  lemma ClaimForKeepsInv(s: System, serverId: string)
    requires Inv(s) && CanClaim(s.registry, serverId)
    ensures Inv(ClaimFor(s, serverId))
  {
    ClaimKeepsSound(s.registry, serverId);
    var s' := ClaimFor(s, serverId);
    forall h | h in s'.server ensures HandleSound(s', h) {
      assert h == s.registry.made || HandleSound(s, h);
    }
    forall c | c in s'.callers ensures CallerSound(s', c) {
      assert CallerSound(s, c) && HandleSound(s, s.callers[c].handle);
    }
    forall key | key in s'.inflight ensures EntrySound(s', key) {
      assert EntrySound(s, key);
    }
  }

  /** Releasing a handle no call owns. */
  lemma ReleaseKeepsInv(s: System, handle: nat)
    requires Inv(s) && handle in s.server
    requires forall c :: c in s.callers ==> s.callers[c].handle != handle
    ensures Inv(ReleaseHandle(s, handle))
  {
    assert HandleSound(s, handle);
    if handle !in s.registry.closed {
      ReleaseKeepsSound(s.registry, s.server[handle], handle);
      var s' := ReleaseHandle(s, handle);
      forall h | h in s'.server ensures HandleSound(s', h) {
        assert HandleSound(s, h);
      }
      forall c | c in s'.callers ensures CallerSound(s', c) {
        assert CallerSound(s, c);
      }
      forall key | key in s'.inflight ensures EntrySound(s', key) {
        assert EntrySound(s, key);
      }
    }
  }

  /** The local map cannot be busy for a call that has the global claim. */
  lemma NotBusyAfterClaim(s: System, c: nat)
    requires Inv(s) && At(s, c, Claiming)
    ensures Key(s.callers[c]) !in s.inflight
  {
    if Key(s.callers[c]) in s.inflight {
      SlotOfCallers(s, s.inflight[Key(s.callers[c])].recorder, c);
    }
  }

  /** Two calls on one server would hold one handle. */
  lemma SlotOfCallers(s: System, b: nat, c: nat)
    requires Inv(s) && c in s.callers
    ensures b in s.callers && s.callers[b].serverId == s.callers[c].serverId ==> b == c
  {
    if b in s.callers && s.callers[b].serverId == s.callers[c].serverId {
      assert CallerSound(s, b) && CallerSound(s, c);
      assert HandleSound(s, s.callers[b].handle) && HandleSound(s, s.callers[c].handle);
    }
  }

  /** A call moves on without touching anybody's handle or anybody else's entry. */
  ghost predicate Moves(s: System, s': System, c: nat)
    requires c in s.callers
  {
    && s' == s.(callers := s'.callers, inflight := s'.inflight)
    && s.callers.Keys - {c} <= s'.callers.Keys <= s.callers.Keys
    && (forall b :: b in s'.callers && b != c ==> s'.callers[b] == s.callers[b])
    && (c in s'.callers ==> s'.callers[c] == s.callers[c].(stage := s'.callers[c].stage) && CallerSound(s', c))
    && (forall key :: key != Key(s.callers[c]) && key in s.inflight ==>
          key in s'.inflight && s'.inflight[key] == s.inflight[key])
    && (forall key :: key != Key(s.callers[c]) && key in s'.inflight ==> key in s.inflight)
    && (Key(s.callers[c]) in s'.inflight ==> EntrySound(s', Key(s.callers[c])))
  }

  lemma OtherCallersStaySound(s: System, s': System, c: nat, b: nat)
    requires Inv(s) && c in s.callers && Moves(s, s', c) && b in s'.callers
    ensures CallerSound(s', b)
  {
    if b != c {
      assert CallerSound(s, b);
      SlotOfCallers(s, b, c);
    }
  }

  lemma OtherEntriesStaySound(s: System, s': System, c: nat, key: Slot)
    requires Inv(s) && c in s.callers && Moves(s, s', c) && key in s'.inflight
    ensures EntrySound(s', key)
  {
    if key != Key(s.callers[c]) {
      assert EntrySound(s, key);
      var b := s.inflight[key].recorder;
      assert b != c && CallerSound(s, b);
      assert s.callers[b].handle in s.server;
    }
  }

  lemma CallerMovesKeepsInv(s: System, s': System, c: nat)
    requires Inv(s) && c in s.callers && Moves(s, s', c)
    ensures Inv(s')
  {
    forall h | h in s'.server ensures HandleSound(s', h) {
      assert HandleSound(s, h);
    }
    forall b | b in s'.callers ensures CallerSound(s', b) {
      OtherCallersStaySound(s, s', c, b);
    }
    forall key | key in s'.inflight ensures EntrySound(s', key) {
      OtherEntriesStaySound(s, s', c, key);
    }
    forall a, b | a in s'.callers && b in s'.callers && s'.callers[a].handle == s'.callers[b].handle
      ensures a == b
    {
      assert s.callers[a].handle == s.callers[b].handle;
    }
  }

  /** The call that just claimed joins with a handle nobody else has. */
  lemma JoiningKeepsInv(s: System, c: nat, k: Caller)
    requires Inv(s) && c !in s.callers && k.stage == Claiming
    requires k.handle in s.server && k.handle !in s.registry.closed && k.handle !in s.direct
    requires s.server[k.handle] == k.serverId
    requires forall b :: b in s.callers ==> s.callers[b].handle != k.handle
    ensures Inv(s.(callers := s.callers[c := k]))
  {
    var s' := s.(callers := s.callers[c := k]);
    forall h | h in s'.server ensures HandleSound(s', h) {
      assert HandleSound(s, h);
    }
    forall b | b in s'.callers ensures CallerSound(s', b) {
      JoiningKeepsCaller(s, c, k, b);
    }
    forall key | key in s'.inflight ensures EntrySound(s', key) {
      assert EntrySound(s, key) && s.inflight[key].recorder != c;
    }
    forall a, b | a in s'.callers && b in s'.callers && s'.callers[a].handle == s'.callers[b].handle
      ensures a == b
    {
      if a != c && b != c { assert s.callers[a].handle == s.callers[b].handle; }
    }
  }

  lemma JoiningKeepsCaller(s: System, c: nat, k: Caller, b: nat)
    requires c !in s.callers && k.stage == Claiming && (b in s.callers ==> CallerSound(s, b))
    requires (b == c || b in s.callers)
    requires k.handle in s.server && k.handle !in s.registry.closed && k.handle !in s.direct
    requires s.server[k.handle] == k.serverId
    ensures CallerSound(s.(callers := s.callers[c := k]), b)
  {
  }

  lemma NewHandleIsFree(s: System)
    requires Inv(s)
    ensures s.registry.made !in s.registry.closed && s.registry.made !in s.direct
    ensures forall b :: b in s.callers ==> s.callers[b].handle != s.registry.made
  {
    forall b | b in s.callers ensures s.callers[b].handle != s.registry.made {
      assert CallerSound(s, b) && HandleSound(s, s.callers[b].handle);
    }
    forall h | h in s.direct ensures h != s.registry.made {
      assert HandleSound(s, h);
    }
  }

  lemma TryBeginKeepsInv(s: System, c: nat, manager: Manager, serverId: string)
    requires Inv(s) && c !in s.callers && CanClaim(s.registry, serverId)
    ensures Inv(ClaimFor(s, serverId).(callers := s.callers[c := Caller(manager, serverId, s.registry.made, Claiming)]))
  {
    ClaimForKeepsInv(s, serverId);
    NewHandleIsFree(s);
    JoiningKeepsInv(ClaimFor(s, serverId), c, Caller(manager, serverId, s.registry.made, Claiming));
  }

  lemma DirectClaimKeepsInv(s: System, serverId: string)
    requires Inv(s) && CanClaim(s.registry, serverId)
    ensures Inv(Step(s, DirectClaim(serverId)))
  {
    ClaimForKeepsInv(s, serverId);
    var s1 := ClaimFor(s, serverId);
    var s' := Step(s, DirectClaim(serverId));
    forall h | h in s'.server ensures HandleSound(s', h) {
      assert HandleSound(s1, h);
    }
    forall b | b in s'.callers ensures CallerSound(s', b) {
      assert CallerSound(s, b) && CallerSound(s1, b) && HandleSound(s, s.callers[b].handle);
    }
    forall key | key in s'.inflight ensures EntrySound(s', key) {
      assert EntrySound(s1, key);
    }
  }

  lemma EndingHasNoEntry(s: System, c: nat)
    requires Inv(s) && At(s, c, Ending)
    ensures Key(s.callers[c]) !in s.inflight
  {
    if Key(s.callers[c]) in s.inflight {
      assert EntrySound(s, Key(s.callers[c]));
      SlotOfCallers(s, s.inflight[Key(s.callers[c])].recorder, c);
    }
  }

  lemma EndReleaseKeepsInv(s: System, c: nat)
    requires Inv(s) && At(s, c, Ending)
    ensures Inv(ReleaseHandle(Left(s, c), s.callers[c].handle))
  {
    LeavingKeepsInv(s, c);
    ReleaseKeepsInv(Left(s, c), s.callers[c].handle);
  }

  lemma LeavingKeepsInv(s: System, c: nat)
    requires Inv(s) && At(s, c, Ending)
    ensures Inv(Left(s, c)) && s.callers[c].handle in Left(s, c).server
    ensures forall b :: b in Left(s, c).callers ==> Left(s, c).callers[b].handle != s.callers[c].handle
  {
    assert CallerSound(s, c);
    EndingHasNoEntry(s, c);
    assert Moves(s, Left(s, c), c);
    CallerMovesKeepsInv(s, Left(s, c), c);
  }

  lemma RecordKeepsInv(s: System, c: nat)
    requires Inv(s) && At(s, c, Claiming)
    ensures Inv(AfterRecord(s, c))
  {
    assert CallerSound(s, c);
    NotBusyAfterClaim(s, c);
    assert Moves(s, AfterRecord(s, c), c);
    CallerMovesKeepsInv(s, AfterRecord(s, c), c);
  }

  lemma TakeOutKeepsInv(s: System, c: nat)
    requires Inv(s) && At(s, c, Recorded)
    ensures Inv(AfterTakeOut(s, c))
  {
    assert CallerSound(s, c);
    assert Moves(s, AfterTakeOut(s, c), c);
    CallerMovesKeepsInv(s, AfterTakeOut(s, c), c);
  }

  lemma DirectReleaseKeepsInv(s: System, handle: nat)
    requires Inv(s) && handle in s.direct
    ensures Inv(ReleaseHandle(s, handle))
  {
    forall c | c in s.callers ensures s.callers[c].handle != handle {
      assert CallerSound(s, c);
    }
    ReleaseKeepsInv(s, handle);
  }

  lemma NeverBusy(s: System, c: nat)
    requires Inv(s) && c in s.callers
    ensures !At(s, c, Busy)
  {
    assert CallerSound(s, c);
  }

  lemma StepKeepsInv(s: System, a: Action)
    requires Inv(s)
    ensures Inv(Step(s, a))
  {
    if Enabled(s, a) {
      match a
      case DirectClaim(serverId) => DirectClaimKeepsInv(s, serverId);
      case DirectRelease(handle) => DirectReleaseKeepsInv(s, handle);
      case TryBegin(c, manager, serverId) => TryBeginKeepsInv(s, c, manager, serverId);
      case Record(c) => RecordKeepsInv(s, c);
      case BackOff(c) => NeverBusy(s, c);
      case TakeOut(c) => TakeOutKeepsInv(s, c);
      case EndRelease(c) => EndReleaseKeepsInv(s, c);
      case Look(w, serverId) => WaitersKeepInv(s, Step(s, a));
      case Wake(w) => WaitersKeepInv(s, Step(s, a));
      case GiveUp(w) => WaitersKeepInv(s, Step(s, a));
    }
  }

  lemma WaitersKeepInv(s: System, s': System)
    requires Inv(s) && s' == s.(waiting := s'.waiting) && forall w :: w in s'.waiting ==> s'.waiting[w] in s.server
    ensures Inv(s')
  {
    assert forall h :: h in s.server && HandleSound(s, h) ==> HandleSound(s', h);
    assert forall c :: c in s.callers && CallerSound(s, c) ==> CallerSound(s', c);
    assert forall key :: key in s.inflight && EntrySound(s, key) ==> EntrySound(s', key);
  }

  lemma {:induction false} RunKeepsInv(s: System, actions: seq<Action>)
    requires Inv(s)
    ensures Inv(Run(s, actions))
    decreases actions
  {
    if actions != [] {
      StepKeepsInv(s, actions[0]);
      RunKeepsInv(Step(s, actions[0]), actions[1..]);
    }
  }

  // ---------------------------------------------------------------- main results

  /** The handles that still stand: a call's, or one held directly and not yet released. */
  predicate Standing(s: System, handle: nat) {
    handle in s.server && handle !in s.registry.closed
  }

  /** In every reachable state two standing handles of one server are the same handle, and it
      is the registered one; no closed channel is registered. */
  lemma OneOwnerPerServer(actions: seq<Action>, g: nat, h: nat)
    requires var s := Run(Initial, actions); Standing(s, g) && Standing(s, h) && s.server[g] == s.server[h]
    ensures var s := Run(Initial, actions);
      g == h && s.server[h] in s.registry.active && s.registry.active[s.server[h]] == h
    ensures var s := Run(Initial, actions);
      forall id :: id in s.registry.active ==> s.registry.active[id] !in s.registry.closed
  {
    RunKeepsInv(Initial, actions);
    assert HandleSound(Run(Initial, actions), g) && HandleSound(Run(Initial, actions), h);
  }

  /** Two manager calls past their claim are never on the same server, in either manager. */
  lemma ManagersNeverOverlap(actions: seq<Action>, b: nat, c: nat)
    requires var s := Run(Initial, actions);
      b in s.callers && c in s.callers && s.callers[b].serverId == s.callers[c].serverId
    ensures b == c
  {
    RunKeepsInv(Initial, actions);
    SlotOfCallers(Run(Initial, actions), b, c);
  }

  /** Releasing a handle, at any time and however often, leaves every other owner in place. */
  lemma ReleaseEvictsNobodyElse(actions: seq<Action>, handle: nat, id: string)
    requires var s := Run(Initial, actions); id in s.registry.active && s.registry.active[id] != handle
    ensures var s := Run(Initial, actions);
      var r := Step(s, DirectRelease(handle)).registry; id in r.active && r.active[id] == s.registry.active[id]
    ensures var s := Run(Initial, actions);
      handle in s.registry.closed ==> Step(s, DirectRelease(handle)) == s
  {
    RunKeepsInv(Initial, actions);
  }

  /** Every in-flight entry of either manager is the current owner of its server. */
  lemma InflightIsTheOwner(actions: seq<Action>, key: Slot)
    requires key in Run(Initial, actions).inflight
    ensures var s := Run(Initial, actions);
      key.serverId in s.registry.active && s.registry.active[key.serverId] == s.inflight[key].handle
  {
    RunKeepsInv(Initial, actions);
    var s := Run(Initial, actions);
    assert EntrySound(s, key) && CallerSound(s, s.inflight[key].recorder);
    assert HandleSound(s, s.inflight[key].handle);
  }

  /** A call that holds the global claim finds its local map free: the busy branch of either
      manager is unreachable. */
  lemma LocalMapIsNeverBusy(actions: seq<Action>, c: nat)
    requires c in Run(Initial, actions).callers
    ensures var s := Run(Initial, actions);
      s.callers[c].stage != Busy && (s.callers[c].stage == Claiming ==> Key(s.callers[c]) !in s.inflight)
  {
    RunKeepsInv(Initial, actions);
    var s := Run(Initial, actions);
    assert CallerSound(s, c);
    if s.callers[c].stage == Claiming {
      NotBusyAfterClaim(s, c);
    }
  }

  /** No lost wake-up: a waiter can go on as soon as the owner it saw is gone, and only then; but with its
      context ended it can give up at any time. */
  lemma WaiterWakesExactlyWhenOwnerIsGone(actions: seq<Action>, w: nat)
    requires w in Run(Initial, actions).waiting
    ensures var s := Run(Initial, actions);
      && (Enabled(s, Wake(w)) <==> !Registered(s.registry, s.waiting[w]))
      && Enabled(s, GiveUp(w)) && Step(s, GiveUp(w)) == s.(waiting := s.waiting - {w})
  {
    RunKeepsInv(Initial, actions);
    assert HandleSound(Run(Initial, actions), Run(Initial, actions).waiting[w]);
  }

  // ---------------------------------------------------------------- no claim is leaked

  /** Somebody still has this handle: a caller outside the managers, or a manager's call under way. */
  ghost predicate Held(s: System, handle: nat) {
    handle in s.direct || exists c :: c in s.callers && s.callers[c].handle == handle
  }

  ghost predicate NoLeak(s: System) {
    forall h :: Standing(s, h) ==> Held(s, h)
  }

  /** The call leaves with its handle closed, so nobody else's handle loses its holder. */
  lemma LeavingLeaksNothing(s: System, c: nat)
    requires Inv(s) && NoLeak(s) && At(s, c, Ending)
    ensures NoLeak(ReleaseHandle(Left(s, c), s.callers[c].handle))
  {
    var s' := ReleaseHandle(Left(s, c), s.callers[c].handle);
    assert CallerSound(s, c);
    forall h | Standing(s', h)
      ensures Held(s', h)
    {
      assert Standing(s, h) && Held(s, h) && h != s.callers[c].handle;
      if h !in s.direct {
        var b :| b in s.callers && s.callers[b].handle == h;
        assert b in s'.callers && s'.callers[b].handle == h;
      }
    }
  }

  /** Nobody lets go of a handle, and a new one has a holder. */
  lemma KeepingLeaksNothing(s: System, s': System)
    requires NoLeak(s) && s.direct <= s'.direct
    requires forall b :: b in s.callers ==> b in s'.callers && s'.callers[b].handle == s.callers[b].handle
    requires forall h :: Standing(s', h) ==> Standing(s, h) || Held(s', h)
    ensures NoLeak(s')
  {
    forall h | Standing(s', h)
      ensures Held(s', h)
    {
      if Standing(s, h) && h !in s.direct {
        var b :| b in s.callers && s.callers[b].handle == h;
        assert b in s'.callers;
      }
    }
  }

  lemma TryBeginLeaksNothing(s: System, c: nat, manager: Manager, serverId: string)
    requires Inv(s) && NoLeak(s) && Enabled(s, TryBegin(c, manager, serverId))
    ensures NoLeak(Step(s, TryBegin(c, manager, serverId)))
  {
    var s' := Step(s, TryBegin(c, manager, serverId));
    assert s'.callers[c].handle == s.registry.made;
    KeepingLeaksNothing(s, s');
  }

  lemma TakeOutLeaksNothing(s: System, c: nat)
    requires Inv(s) && NoLeak(s) && At(s, c, Recorded)
    ensures NoLeak(AfterTakeOut(s, c))
  {
    assert CallerSound(s, c);
    KeepingLeaksNothing(s, AfterTakeOut(s, c));
  }

  lemma ReleaseLeaksNothing(s: System, handle: nat)
    requires NoLeak(s)
    ensures NoLeak(ReleaseHandle(s, handle))
  {
    KeepingLeaksNothing(s, ReleaseHandle(s, handle));
  }

  lemma ClaimLeaksNothing(s: System, serverId: string)
    requires NoLeak(s)
    ensures NoLeak(ClaimFor(s, serverId).(direct := s.direct + {s.registry.made}))
  {
    KeepingLeaksNothing(s, ClaimFor(s, serverId).(direct := s.direct + {s.registry.made}));
  }

  lemma RecordLeaksNothing(s: System, c: nat)
    requires NoLeak(s) && c in s.callers
    ensures NoLeak(AfterRecord(s, c))
  {
    KeepingLeaksNothing(s, AfterRecord(s, c));
  }

  lemma StepLeaksNothing(s: System, a: Action)
    requires Inv(s) && NoLeak(s)
    ensures NoLeak(Step(s, a))
  {
    if Enabled(s, a) {
      match a
      case TryBegin(c, manager, serverId) => TryBeginLeaksNothing(s, c, manager, serverId);
      case BackOff(c) => NeverBusy(s, c);
      case TakeOut(c) => TakeOutLeaksNothing(s, c);
      case EndRelease(c) => LeavingLeaksNothing(s, c);
      case DirectClaim(serverId) => ClaimLeaksNothing(s, serverId);
      case DirectRelease(handle) => ReleaseLeaksNothing(s, handle);
      case Record(c) => RecordLeaksNothing(s, c);
      case Look(_, _) => KeepingLeaksNothing(s, Step(s, a));
      case Wake(_) => KeepingLeaksNothing(s, Step(s, a));
      case GiveUp(_) => KeepingLeaksNothing(s, Step(s, a));
    }
  }

  lemma {:induction false} RunLeaksNothing(s: System, actions: seq<Action>)
    requires Inv(s) && NoLeak(s)
    ensures NoLeak(Run(s, actions))
    decreases actions
  {
    if actions != [] {
      StepKeepsInv(s, actions[0]);
      StepLeaksNothing(s, actions[0]);
      RunLeaksNothing(Step(s, actions[0]), actions[1..]);
    }
  }

  /** A handle of this server that has not been released, and somebody who can still release it. */
  ghost predicate HeldFor(s: System, id: string) {
    exists h :: Standing(s, h) && s.server[h] == id && Held(s, h)
  }

  /** In every reachable state a transition of a server is reported as in flight exactly while somebody
      has an unreleased handle of it: no claim outlives its holders. */
  lemma InFlightExactlyWhileHeld(actions: seq<Action>, id: string)
    ensures var s := Run(Initial, actions); id in s.registry.active <==> HeldFor(s, id)
  {
    RunKeepsInv(Initial, actions);
    RunLeaksNothing(Initial, actions);
    var s := Run(Initial, actions);
    if id in s.registry.active {
      var h := s.registry.active[id];
      assert h in s.server && HandleSound(s, h) && s.server[h] in s.registry.active;
      assert Standing(s, h) && Held(s, h) && s.server[h] == id;
    }
    if HeldFor(s, id) {
      var h :| Standing(s, h) && s.server[h] == id && Held(s, h);
      assert HandleSound(s, h);
    }
  }
}
