/** Every interleaving of journaled lifecycle mutations with crashes, recovery, operator
    release and pruning (internal/operation/journal.go). A worker is one call of RunJournaled;
    an action is one database transaction of some worker, one return of its mutation, or one
    outside event. Runs are arbitrary action sequences, so every interleaving is covered. */
module JournalRuns {
  import opened Wrappers
  import opened OperationJournal

  /** Where a call stands: intent recorded, inside the mutation, out of it with an outcome
      still to be recorded, or giving up because it could not enter the executing phase. */
  datatype Stage = Begun | Inside | Finishing(error: Option<string>) | GivingUp

  datatype Worker = Worker(opId: string, serverId: string, requestId: string, kind: string, stage: Stage)

  /** A mutation that was started: the operation and the request it was started for. */
  datatype Start = Start(opId: string, serverId: string, requestId: string, kind: string)

  /** The rows survive a crash; the workers do not. `starts`, `used` and `pruned` are history. */
  datatype System = System(
    rows: Table, workers: map<nat, Worker>,
    starts: seq<Start>, used: set<string>, pruned: set<string>)

  datatype Request = Request(serverId: string, nodeId: string, containerId: string, requestId: string, kind: string)

  datatype Action =
    | Call(w: nat, request: Request, freshId: string, uuid: string, fault: Fault, now: int)
    | Enter(w: nat, fault: Fault, now: int)
    | GiveUp(w: nat, fault: Fault, now: int)
    | Return(w: nat, outcome: Option<string>)
    | Finish(w: nat, fault: Fault, now: int)
    | Crash
    | Release(id: string, from: Phase, note: string, fault: Fault, now: int)
    | Prune(olderThan: int)

  const MAX_REQUEST_ID := 128
  const GIVING_UP := "could not enter executing phase"

  /** The journal key of a request; `requestId` is already trimmed. A blank one takes the uuid. */
  function StorageKey(requestId: string, kind: string, uuid: string): string {
    if requestId == "" then uuid else requestId + ":" + kind
  }

  /** A stand-in for the SHA-256 fingerprint of the request payload. A row is compared on kind, node and
      container as well, so that it cannot confuse two requests. */
  function Digest(request: Request): string {
    request.kind + "|" + request.serverId + "|" + request.nodeId + "|" + request.containerId
  }

  function IntentOf(request: Request, uuid: string): Intent {
    Intent(request.serverId, request.nodeId, request.containerId,
           StorageKey(request.requestId, request.kind, uuid), request.kind, Digest(request))
  }

  const Initial := System(map[], map[], [], {}, {})

  predicate AtStage(s: System, w: nat, stage: Stage) {
    w in s.workers && s.workers[w].stage == stage
  }

  predicate Enabled(s: System, a: Action) {
    match a
    case Call(w, request, freshId, _, _, _) =>
      w !in s.workers && freshId !in s.used && |request.requestId| <= MAX_REQUEST_ID
    case Enter(w, _, _) => AtStage(s, w, Begun)
    case GiveUp(w, _, _) => AtStage(s, w, GivingUp)
    case Return(w, _) => AtStage(s, w, Inside)
    case Finish(w, _, _) => w in s.workers && s.workers[w].stage.Finishing?
    case Crash => true
    case Release(_, _, _, _, _) => true
    case Prune(_) => true
  }

  function Advanced(t: Table, id: string, from: Phase, to: Phase, detail: string, fault: Fault, now: int): Table {
    if fault.Effective() then AfterAdvance(t, id, from, to, detail, now) else t
  }

  ghost function AfterCall(
    s: System, w: nat, request: Request, freshId: string, uuid: string, fault: Fault, now: int): System
  {
    var intent := IntentOf(request, uuid);
    if !fault.Effective() || !BeginVerdict(s.rows, intent, freshId).Created? then s
    else
      s.(rows := AfterBegin(s.rows, intent, freshId, now), used := s.used + {freshId},
         workers := if fault.Reported() then s.workers
                    else s.workers[w := Worker(freshId, request.serverId, request.requestId, request.kind, Begun)])
  }

  function AfterEnter(s: System, w: nat, fault: Fault, now: int): System
    requires w in s.workers
  {
    var worker := s.workers[w];
    var rows' := Advanced(s.rows, worker.opId, Prepared, Executing, "", fault, now);
    if !fault.Reported() && CanAdvance(s.rows, worker.opId, Prepared) then
      s.(rows := rows', workers := s.workers[w := worker.(stage := Inside)],
         starts := s.starts + [Start(worker.opId, worker.serverId, worker.requestId, worker.kind)])
    else
      s.(rows := rows', workers := s.workers[w := worker.(stage := GivingUp)])
  }

  function Outcome(error: Option<string>): Phase {
    if error.None? then Complete else Failed
  }

  function Detail(error: Option<string>): string {
    if error.None? then "" else error.value
  }

  ghost function Step(s: System, a: Action): System {
    if !Enabled(s, a) then s
    else match a
      case Call(w, request, freshId, uuid, fault, now) => AfterCall(s, w, request, freshId, uuid, fault, now)
      case Enter(w, fault, now) => AfterEnter(s, w, fault, now)
      case GiveUp(w, fault, now) =>
        s.(rows := Advanced(s.rows, s.workers[w].opId, Prepared, Failed, GIVING_UP, fault, now),
           workers := s.workers - {w})
      case Return(w, outcome) =>
        s.(workers := s.workers[w := s.workers[w].(stage := Finishing(outcome))])
      case Finish(w, fault, now) =>
        var error := s.workers[w].stage.error;
        s.(rows := Advanced(s.rows, s.workers[w].opId, Executing, Outcome(error), Detail(error), fault, now),
           workers := s.workers - {w})
      case Crash => s.(workers := map[])
      case Release(id, from, note, fault, now) =>
        s.(rows := Advanced(s.rows, id, from, Recovered, note, fault, now))
      case Prune(olderThan) =>
        s.(rows := AfterPrune(s.rows, olderThan),
           pruned := s.pruned + (s.rows.Keys - AfterPrune(s.rows, olderThan).Keys))
  }

  ghost function Run(s: System, actions: seq<Action>): System
    decreases actions
  {
    if actions == [] then s else Run(Step(s, actions[0]), actions[1..])
  }

  // ---------------------------------------------------------------- invariant

  ghost predicate RowIsFor(t: Table, id: string, serverId: string, requestId: string, kind: string) {
    id in t && t[id].serverId == serverId && (requestId != "" ==> t[id].requestKey == requestId + ":" + kind)
  }

  ghost predicate WorkersSound(s: System) {
    && (forall w :: w in s.workers ==> s.workers[w].opId in s.used)
    && (forall v, w :: v in s.workers && w in s.workers && s.workers[v].opId == s.workers[w].opId ==> v == w)
    && (forall w :: w in s.workers ==>
          var k := s.workers[w];
          k.opId in s.pruned || RowIsFor(s.rows, k.opId, k.serverId, k.requestId, k.kind))
  }

  ghost predicate StartsSound(s: System) {
    forall e :: e in s.starts ==>
      e.opId in s.pruned || (RowIsFor(s.rows, e.opId, e.serverId, e.requestId, e.kind)
          && s.rows[e.opId].phase != Prepared)
  }

  predicate SameRequest(d: Start, e: Start) {
    d.serverId == e.serverId && d.requestId == e.requestId && d.kind == e.kind && d.requestId != ""
  }

  ghost predicate AtMostOnce(s: System) {
    forall i, j :: 0 <= i < j < |s.starts| && SameRequest(s.starts[i], s.starts[j]) ==> s.starts[i].opId in s.pruned
  }

  ghost predicate Inv(s: System) {
    && Sound(s.rows)
    && s.rows.Keys + s.pruned <= s.used && s.rows.Keys !! s.pruned
    && WorkersSound(s) && StartsSound(s) && AtMostOnce(s)
  }

  /** A row under an id never used before. */
  lemma NewRowKeepsInv(s: System, id: string, row: Op)
    requires Inv(s) && id !in s.used && Sound(s.rows[id := row])
    ensures Inv(s.(rows := s.rows[id := row], used := s.used + {id}))
  {
    assert forall i :: i in s.rows ==> i != id && s.rows[id := row][i] == s.rows[i];
  }

  /** A worker on a row nobody else works on. */
  lemma NewWorkerKeepsInv(s: System, w: nat, k: Worker)
    requires Inv(s) && w !in s.workers && k.opId in s.used
    requires RowIsFor(s.rows, k.opId, k.serverId, k.requestId, k.kind)
    requires forall v :: v in s.workers ==> s.workers[v].opId != k.opId
    ensures Inv(s.(workers := s.workers[w := k]))
  {
  }

  lemma CallKeepsInv(s: System, w: nat, request: Request, freshId: string, uuid: string, fault: Fault, now: int)
    requires Inv(s) && w !in s.workers && freshId !in s.used
    ensures Inv(AfterCall(s, w, request, freshId, uuid, fault, now))
  {
    var intent := IntentOf(request, uuid);
    if fault.Effective() && BeginVerdict(s.rows, intent, freshId).Created? {
      BeginKeepsSound(s.rows, intent, freshId, now);
      NewRowKeepsInv(s, freshId, FreshRow(intent, now));
      if !fault.Reported() {
        var s1 := s.(rows := s.rows[freshId := FreshRow(intent, now)], used := s.used + {freshId});
        NewWorkerKeepsInv(s1, w, Worker(freshId, request.serverId, request.requestId, request.kind, Begun));
      }
    }
  }

  lemma AdvanceKeepsRowsFor(t: Table, id: string, from: Phase, to: Phase, detail: string, fault: Fault, now: int)
    requires Sound(t) && to != Prepared
    ensures var t' := Advanced(t, id, from, to, detail, fault, now);
      Sound(t') && t'.Keys == t.Keys
      && (forall i :: i in t ==> t'[i].serverId == t[i].serverId && t'[i].requestKey == t[i].requestKey)
      && (forall i :: i in t && t[i].phase != Prepared ==> t'[i].phase != Prepared)
  {
    AdvanceKeepsSound(t, id, from, to, detail, now);
  }

  /** Entering the mutation: an earlier start for the same request can only be of a pruned row. */
  lemma EnterKeepsInv(s: System, w: nat, fault: Fault, now: int)
    requires Inv(s) && AtStage(s, w, Begun)
    ensures Inv(AfterEnter(s, w, fault, now))
  {
    var worker := s.workers[w];
    AdvanceKeepsRowsFor(s.rows, worker.opId, Prepared, Executing, "", fault, now);
    var s' := AfterEnter(s, w, fault, now);
    if !fault.Reported() && CanAdvance(s.rows, worker.opId, Prepared) {
      var e := Start(worker.opId, worker.serverId, worker.requestId, worker.kind);
      forall i | 0 <= i < |s.starts| && SameRequest(s.starts[i], e)
        ensures s.starts[i].opId in s.pruned
      {
        assert s.starts[i] in s.starts;
      }
      assert forall i :: 0 <= i < |s.starts| ==> s'.starts[i] == s.starts[i];
      assert forall d :: d in s'.starts ==> d in s.starts || d == e;
    }
  }

  /** An advance to any later phase, by anyone, at any time. */
  lemma AdvanceKeepsInv(s: System, id: string, from: Phase, to: Phase, detail: string, fault: Fault, now: int)
    requires Inv(s) && to != Prepared
    ensures Inv(s.(rows := Advanced(s.rows, id, from, to, detail, fault, now)))
  {
    AdvanceKeepsRowsFor(s.rows, id, from, to, detail, fault, now);
  }

  /** Dropping workers, or moving them between stages, disturbs nothing. */
  lemma WorkersMayGoOn(s: System, s': System)
    requires Inv(s) && s' == s.(workers := s'.workers) && s'.workers.Keys <= s.workers.Keys
    requires forall w :: w in s'.workers ==> s'.workers[w] == s.workers[w].(stage := s'.workers[w].stage)
    ensures Inv(s')
  {
  }

  lemma StepKeepsInv(s: System, a: Action)
    requires Inv(s)
    ensures Inv(Step(s, a))
  {
    if Enabled(s, a) {
      match a
      case Call(w, request, freshId, uuid, fault, now) => CallKeepsInv(s, w, request, freshId, uuid, fault, now);
      case Enter(w, fault, now) => EnterKeepsInv(s, w, fault, now);
      case GiveUp(w, fault, now) =>
        var s1 := s.(workers := s.workers - {w});
        WorkersMayGoOn(s, s1);
        AdvanceKeepsInv(s1, s.workers[w].opId, Prepared, Failed, GIVING_UP, fault, now);
      case Return(w, outcome) => WorkersMayGoOn(s, Step(s, a));
      case Finish(w, fault, now) =>
        var error := s.workers[w].stage.error;
        var s1 := s.(workers := s.workers - {w});
        WorkersMayGoOn(s, s1);
        AdvanceKeepsInv(s1, s.workers[w].opId, Executing, Outcome(error), Detail(error), fault, now);
      case Crash => WorkersMayGoOn(s, Step(s, a));
      case Release(id, from, note, fault, now) => AdvanceKeepsInv(s, id, from, Recovered, note, fault, now);
      case Prune(olderThan) => PruneKeepsInv(s, olderThan);
    }
  }

  lemma PruneKeepsInv(s: System, olderThan: int)
    requires Inv(s)
    ensures Inv(Step(s, Prune(olderThan)))
  {
    var t' := AfterPrune(s.rows, olderThan);
    assert forall id :: id in t' ==> id in s.rows && t'[id] == s.rows[id];
  }

  lemma {:induction false} RunKeepsInv(s: System, actions: seq<Action>)
    requires Inv(s)
    ensures Inv(Run(s, actions))
    decreases actions
  {
    if actions != [] {
      StepKeepsInv(s, actions[0]);
      RunKeepsInv(Step(s, actions[0]), actions[1..]);
    }
  }

  // ---------------------------------------------------------------- main results

  /** For a server, a request id that is not blank and a kind, a second mutation is started
      only after the row of the first was pruned. No discipline is asked of anyone. */
  lemma MutationStartsAtMostOnce(actions: seq<Action>, i: nat, j: nat)
    requires var s := Run(Initial, actions);
      i < j < |s.starts| && SameRequest(s.starts[i], s.starts[j])
    ensures var s := Run(Initial, actions);
      s.starts[i].opId in s.pruned && s.starts[i].opId !in s.rows
  {
    RunKeepsInv(Initial, actions);
  }

  /** In every reachable state a row holds its server's lock exactly while it is prepared or
      executing, and no two rows hold the lock of one server. */
  lemma LockHeldExactlyWhileOpen(actions: seq<Action>, id: string)
    requires id in Run(Initial, actions).rows
    ensures var rows := Run(Initial, actions).rows;
      && (Holds(rows, id, rows[id].serverId) <==> rows[id].phase.Prepared? || rows[id].phase.Executing?)
      && forall other :: Holds(rows, other, rows[id].serverId) && Holds(rows, id, rows[id].serverId) ==> other == id
  {
    RunKeepsInv(Initial, actions);
  }

  lemma StepKeepsFinishedRow(s: System, a: Action, id: string)
    requires Inv(s) && id in s.rows && s.rows[id].phase.Terminal()
    ensures var s' := Step(s, a); if id in s'.rows then s'.rows[id] == s.rows[id] else id in s'.pruned
  {
    if a.Prune? {
      assert id !in AfterPrune(s.rows, a.olderThan) ==> id in s.rows.Keys - AfterPrune(s.rows, a.olderThan).Keys;
    }
  }

  /** A finished row is never rewritten: after any run it is as it was, or pruned. */
  lemma {:induction false} FinishedRowsAreFinal(s: System, actions: seq<Action>, id: string)
    requires Inv(s) && id in s.rows && s.rows[id].phase.Terminal()
    ensures var s' := Run(s, actions);
      if id in s'.rows then s'.rows[id] == s.rows[id] else id in s'.pruned
    decreases actions
  {
    if actions != [] {
      var s1 := Step(s, actions[0]);
      StepKeepsInv(s, actions[0]);
      StepKeepsFinishedRow(s, actions[0], id);
      if id in s1.rows {
        FinishedRowsAreFinal(s1, actions[1..], id);
      } else {
        PrunedStaysPruned(s1, actions[1..], id);
      }
    }
  }

  lemma {:induction false} PrunedStaysPruned(s: System, actions: seq<Action>, id: string)
    requires Inv(s) && id in s.pruned
    ensures id in Run(s, actions).pruned && id !in Run(s, actions).rows
    decreases actions
  {
    if actions != [] {
      StepKeepsInv(s, actions[0]);
      PrunedStaysPruned(Step(s, actions[0]), actions[1..], id);
    }
  }

  /** What a caller is told before any mutation runs; `Proceeds` means its worker goes on. */
  datatype CallAnswer = Proceeds | Success | AlreadyFailed(detail: string) | InProgress | NeedsNewRequest | Error

  function AnswerFor(r: BeginResult): CallAnswer {
    match r
    case Created(_) => Proceeds
    case Refused(_) => Error
    case Reused(_, op) =>
      match op.phase
      case Complete => Success
      case Failed => AlreadyFailed(op.lastError)
      case Prepared => InProgress
      case Executing => InProgress
      case Recovered => NeedsNewRequest
  }

  ghost function CallResult(s: System, a: Action): CallAnswer
    requires a.Call?
  {
    if |a.request.requestId| > MAX_REQUEST_ID || a.fault.Reported() then Error
    else AnswerFor(BeginVerdict(s.rows, IntentOf(a.request, a.uuid), a.freshId))
  }

  /** What a repeat of a journaled request is told: the recorded outcome, or that it is still
      open, or a conflict when the request no longer describes the same server and payload. */
  function RepeatAnswer(op: Op, intent: Intent): CallAnswer {
    if SameIdentity(op, intent) then AnswerFor(Reused("", op)) else Error
  }

  /** Repeating a request whose row is still there starts nothing and changes nothing. */
  lemma RepeatRunsNothing(s: System, a: Action, id: string)
    requires Inv(s) && a.Call? && a.request.serverId != "" && 0 < |a.request.requestId| <= MAX_REQUEST_ID
    requires IsRequest(s.rows, id, a.request.serverId, a.request.requestId + ":" + a.request.kind)
    ensures Step(s, a) == s
    ensures a.fault == NoFault ==> CallResult(s, a) == RepeatAnswer(s.rows[id], IntentOf(a.request, a.uuid))
  {
    BeginFindsTheRequest(s.rows, id, IntentOf(a.request, a.uuid), a.freshId);
  }

  // ---------------------------------------------------------------- mutual exclusion

  predicate InsideFor(s: System, w: nat, serverId: string) {
    w in s.workers && s.workers[w].stage == Inside && s.workers[w].serverId == serverId
  }

  ghost predicate Exclusive(s: System) {
    forall v, w, server :: InsideFor(s, v, server) && InsideFor(s, w, server) ==> v == w
  }

  /** A release is safe when nobody is inside the mutation it releases. */
  ghost predicate SafeRelease(s: System, a: Action) {
    a.Release? ==> forall w :: w in s.workers && s.workers[w].opId == a.id ==> s.workers[w].stage != Inside
  }

  ghost predicate Disciplined(s: System, actions: seq<Action>)
    decreases actions
  {
    actions != [] ==> SafeRelease(s, actions[0]) && Disciplined(Step(s, actions[0]), actions[1..])
  }

  ghost predicate InsideHoldsLock(s: System) {
    forall w :: w in s.workers && s.workers[w].stage == Inside ==>
      var k := s.workers[w];
      k.opId in s.rows && s.rows[k.opId].phase == Executing && s.rows[k.opId].serverId == k.serverId
  }

  lemma InsideHoldsLockExcludes(s: System)
    requires Inv(s) && InsideHoldsLock(s)
    ensures Exclusive(s)
  {
    forall v, w, server | InsideFor(s, v, server) && InsideFor(s, w, server)
      ensures v == w
    {
      assert s.rows[s.workers[v].opId].activeServer == Some(server) == s.rows[s.workers[w].opId].activeServer;
    }
  }

  lemma AdvanceElsewhereKeepsLock(s: System, id: string, from: Phase, to: Phase, detail: string, fault: Fault, now: int)
    requires Inv(s) && InsideHoldsLock(s)
    requires from != Executing || forall w :: w in s.workers && s.workers[w].opId == id ==> s.workers[w].stage != Inside
    ensures InsideHoldsLock(s.(rows := Advanced(s.rows, id, from, to, detail, fault, now)))
  {
  }

  lemma EnterKeepsLock(s: System, w: nat, fault: Fault, now: int)
    requires Inv(s) && InsideHoldsLock(s) && AtStage(s, w, Begun)
    ensures InsideHoldsLock(AfterEnter(s, w, fault, now))
  {
    var k := s.workers[w];
    AdvanceElsewhereKeepsLock(s, k.opId, Prepared, Executing, "", fault, now);
    if CanAdvance(s.rows, k.opId, Prepared) {
      assert RowIsFor(s.rows, k.opId, k.serverId, k.requestId, k.kind);
    }
  }

  lemma SafeStepKeepsLock(s: System, a: Action)
    requires Inv(s) && InsideHoldsLock(s) && SafeRelease(s, a)
    ensures InsideHoldsLock(Step(s, a))
  {
    if Enabled(s, a) {
      match a
      case Call(w, request, freshId, uuid, fault, now) =>
        assert forall v :: v in s.workers && s.workers[v].stage == Inside ==> s.workers[v].opId != freshId;
      case Enter(w, fault, now) => EnterKeepsLock(s, w, fault, now);
      case GiveUp(w, fault, now) =>
        AdvanceElsewhereKeepsLock(s, s.workers[w].opId, Prepared, Failed, GIVING_UP, fault, now);
      case Return(w, outcome) =>
      case Finish(w, fault, now) =>
        var error := s.workers[w].stage.error;
        assert forall v :: v in s.workers && s.workers[v].opId == s.workers[w].opId ==> v == w;
        AdvanceElsewhereKeepsLock(s, s.workers[w].opId, Executing, Outcome(error), Detail(error), fault, now);
      case Crash =>
      case Release(id, from, note, fault, now) => AdvanceElsewhereKeepsLock(s, id, from, Recovered, note, fault, now);
      case Prune(olderThan) =>
    }
  }

  lemma {:induction false} DisciplinedRunKeepsLock(s: System, actions: seq<Action>)
    requires Inv(s) && InsideHoldsLock(s) && Disciplined(s, actions)
    ensures Inv(Run(s, actions)) && InsideHoldsLock(Run(s, actions))
    decreases actions
  {
    if actions != [] {
      StepKeepsInv(s, actions[0]);
      SafeStepKeepsLock(s, actions[0]);
      DisciplinedRunKeepsLock(Step(s, actions[0]), actions[1..]);
    }
  }

  /** While locks are released only for operations nobody is executing, at most one worker is
      inside a mutation of each server. */
  lemma OneMutationPerServer(actions: seq<Action>)
    requires Disciplined(Initial, actions)
    ensures Exclusive(Run(Initial, actions))
  {
    DisciplinedRunKeepsLock(Initial, actions);
    InsideHoldsLockExcludes(Run(Initial, actions));
  }

  /** A release that takes the lock from under a worker inside its mutation. */
  ghost predicate Strips(s: System, a: Action, w: nat) {
    && a.Release? && a.from == Executing && a.fault.Effective()
    && w in s.workers && s.workers[w].stage == Inside && s.workers[w].opId == a.id
  }

  lemma ReleaseFreesServer(s: System, a: Action)
    requires Inv(s) && a.Release? && a.from == Executing && a.fault.Effective()
    requires a.id in s.rows && s.rows[a.id].phase == Executing
    ensures var s1 := Step(s, a);
      Inv(s1) && s1.workers == s.workers && s1.used == s.used && !Locked(s1.rows, s.rows[a.id].serverId)
      && forall i, server, key :: IsRequest(s1.rows, i, server, key) ==> IsRequest(s.rows, i, server, key)
  {
    StepKeepsInv(s, a);
  }

  lemma FreeServerAdmits(s: System, v: nat, request: Request, freshId: string, now: int)
    requires Inv(s) && v !in s.workers && freshId !in s.used && !Locked(s.rows, request.serverId)
    requires request.serverId != "" && 0 < |request.requestId| <= MAX_REQUEST_ID
    requires forall id :: !IsRequest(s.rows, id, request.serverId, request.requestId + ":" + request.kind)
    ensures var s2 := Run(s, [Call(v, request, freshId, "", NoFault, now), Enter(v, NoFault, now)]);
      InsideFor(s2, v, request.serverId) && s2.workers == s.workers[v := s2.workers[v]]
  {
    var call := Call(v, request, freshId, "", NoFault, now);
    var enter := Enter(v, NoFault, now);
    assert BeginVerdict(s.rows, IntentOf(request, ""), freshId) == Created(freshId);
    var s1 := Step(s, call);
    assert CanAdvance(s1.rows, freshId, Prepared) && AtStage(s1, v, Begun);
    assert Run(s, [call, enter]) == Run(s1, [enter]) == Run(Step(s1, enter), []);
  }

  /** The discipline is needed: after such a release a new request starts a second mutation of the
      same server. */
  lemma UnsafeReleaseBreaksExclusion(s: System, a: Action, w: nat, v: nat, request: Request, freshId: string, now: int)
    requires Inv(s) && InsideHoldsLock(s) && Strips(s, a, w)
    requires v !in s.workers && freshId !in s.used && 0 < |request.requestId| <= MAX_REQUEST_ID
    requires request.serverId == s.workers[w].serverId != ""
    requires forall id :: !IsRequest(s.rows, id, request.serverId, request.requestId + ":" + request.kind)
    ensures !Exclusive(Run(Step(s, a), [Call(v, request, freshId, "", NoFault, now), Enter(v, NoFault, now)]))
  {
    var rest := [Call(v, request, freshId, "", NoFault, now), Enter(v, NoFault, now)];
    ReleaseFreesServer(s, a);
    FreeServerAdmits(Step(s, a), v, request, freshId, now);
    var s' := Run(Step(s, a), rest);
    assert InsideFor(s', v, request.serverId) && InsideFor(s', w, request.serverId);
  }

  /** The first call ever enters its mutation. */
  lemma FirstCallEnters(request: Request, id: string, now: int)
    requires request.serverId != "" && 0 < |request.requestId| <= MAX_REQUEST_ID
    ensures var s := Run(Initial, [Call(0, request, id, "", NoFault, now), Enter(0, NoFault, now)]);
      && s.workers == map[0 := Worker(id, request.serverId, request.requestId, request.kind, Inside)] && s.used == {id}
      && s.rows.Keys == {id} && s.rows[id].requestKey == request.requestId + ":" + request.kind
    ensures Disciplined(Initial, [Call(0, request, id, "", NoFault, now), Enter(0, NoFault, now)])
  {
    var call, enter := Call(0, request, id, "", NoFault, now), Enter(0, NoFault, now);
    var s1 := Step(Initial, call);
    assert BeginVerdict(Initial.rows, IntentOf(request, ""), id) == Created(id);
    assert s1.workers == map[0 := Worker(id, request.serverId, request.requestId, request.kind, Begun)];
    assert CanAdvance(s1.rows, id, Prepared);
    assert [call, enter][1..] == [enter] && [enter][1..] == [];
    assert Run(Initial, [call, enter]) == Run(s1, [enter]) == Run(Step(s1, enter), []);
    assert Disciplined(s1, [enter]);
  }

  /** Reachable states: a call has entered its mutation, its operation is released, and another request
      for the same server enters too. */
  lemma ReleaseSharesTheServer(a: Request, b: Request, i: string, j: string)
    requires a.serverId == b.serverId != "" && i != j && a.requestId + ":" + a.kind != b.requestId + ":" + b.kind
    requires 0 < |a.requestId| <= MAX_REQUEST_ID && 0 < |b.requestId| <= MAX_REQUEST_ID
    ensures var s := Run(Initial, [Call(0, a, i, "", NoFault, 0), Enter(0, NoFault, 0)]);
      var release := Release(i, Executing, "", NoFault, 1);
      && Strips(s, release, 0)
      && !Exclusive(Run(Step(s, release), [Call(1, b, j, "", NoFault, 2), Enter(1, NoFault, 2)]))
  {
    var entering := [Call(0, a, i, "", NoFault, 0), Enter(0, NoFault, 0)];
    FirstCallEnters(a, i, 0);
    DisciplinedRunKeepsLock(Initial, entering);
    UnsafeReleaseBreaksExclusion(Run(Initial, entering), Release(i, Executing, "", NoFault, 1), 0, 1, b, j, 2);
  }

  /** One of them. */
  lemma ReleaseSharesAServer()
    ensures var a, b := Request("srv", "", "", "r", "stop"), Request("srv", "", "", "r", "start");
      var s := Run(Initial, [Call(0, a, "1", "", NoFault, 0), Enter(0, NoFault, 0)]);
      var release := Release("1", Executing, "", NoFault, 1);
      && Strips(s, release, 0)
      && !Exclusive(Run(Step(s, release), [Call(1, b, "2", "", NoFault, 2), Enter(1, NoFault, 2)]))
  {
    var a, b := Request("srv", "", "", "r", "stop"), Request("srv", "", "", "r", "start");
    assert (a.requestId + ":" + a.kind)[4] != (b.requestId + ":" + b.kind)[4];
    ReleaseSharesTheServer(a, b, "1", "2");
  }

  /** Whatever disciplined steps follow, nobody shares a server. */
  ghost predicate StaysExclusive(s: System) {
    forall rest :: Disciplined(s, rest) ==> Exclusive(Run(s, rest))
  }

  /** After any disciplined run, a release keeps mutations of a server from overlapping, in everything
      disciplined that may follow, exactly when it takes no lock from under a worker. */
  lemma ReleaseIsHarmlessExactlyWhen(actions: seq<Action>, a: Action)
    requires Disciplined(Initial, actions) && a.Release?
    ensures var s := Run(Initial, actions);
      StaysExclusive(Step(s, a)) <==> forall w :: !Strips(s, a, w)
  {
    var s := Run(Initial, actions);
    DisciplinedRunKeepsLock(Initial, actions);
    if w :| Strips(s, a, w) {
      RowsAreNamed(Initial, actions);
      StrippedStateAdmits(s, a, w);
    } else {
      HarmlessReleaseKeepsLock(s, a);
      forall rest | Disciplined(Step(s, a), rest)
        ensures Exclusive(Run(Step(s, a), rest))
      {
        DisciplinedRunKeepsLock(Step(s, a), rest);
        InsideHoldsLockExcludes(Run(Step(s, a), rest));
      }
    }
  }

  lemma HarmlessReleaseKeepsLock(s: System, a: Action)
    requires Inv(s) && InsideHoldsLock(s) && a.Release? && forall w :: !Strips(s, a, w)
    ensures Inv(Step(s, a)) && InsideHoldsLock(Step(s, a))
  {
    StepKeepsInv(s, a);
    if a.from == Executing && !a.fault.Effective() {
      assert Step(s, a) == s;
    } else {
      forall w | w in s.workers && s.workers[w].opId == a.id
        ensures a.from != Executing || s.workers[w].stage != Inside
      {
        assert !Strips(s, a, w);
      }
      AdvanceElsewhereKeepsLock(s, a.id, a.from, Recovered, a.note, a.fault, a.now);
    }
  }

  lemma StrippedStateAdmits(s: System, a: Action, w: nat)
    requires Inv(s) && InsideHoldsLock(s) && Strips(s, a, w) && Named(s.rows)
    ensures !StaysExclusive(Step(s, a))
  {
    var v := FreshNumber(s.workers.Keys);
    var freshId := FreshText(s.used);
    var kind := FreshKind(s.rows);
    var request := Request(s.workers[w].serverId, "", "", "r", kind);
    UnsafeReleaseBreaksExclusion(s, a, w, v, request, freshId, 0);
    var rest := [Call(v, request, freshId, "", NoFault, 0), Enter(v, NoFault, 0)];
    assert rest[1..][1..] == [];
    assert Disciplined(Step(s, a), rest);
  }

  /** A kind that was never asked for under the request id "r". */
  lemma FreshKind(t: Table) returns (kind: string)
    ensures forall id, server :: !IsRequest(t, id, server, "r" + ":" + kind)
  {
    var keys := set id | id in t :: t[id].requestKey;
    kind := FreshText(keys);
    forall id | id in t
      ensures t[id].requestKey != "r" + ":" + kind
    {
      assert t[id].requestKey in keys;
    }
  }

  lemma {:induction false} FreshNumber(used: set<nat>) returns (n: nat)
    ensures forall m :: m in used ==> m < n
  {
    if used == {} {
      n := 0;
    } else {
      var m :| m in used;
      n := FreshNumber(used - {m});
      n := if n <= m then m + 1 else n;
      assert used == used - {m} + {m};
    }
  }

  lemma {:induction false} FreshText(used: set<string>) returns (text: string)
    ensures forall t :: t in used ==> |t| < |text|
  {
    if used == {} {
      text := "";
    } else {
      var t :| t in used;
      text := FreshText(used - {t});
      text := if |text| <= |t| then t + "x" else text;
    }
  }

  ghost predicate Named(t: Table) {
    forall id :: id in t ==> t[id].serverId != ""
  }

  lemma {:induction false} RowsAreNamed(s: System, actions: seq<Action>)
    requires Named(s.rows)
    ensures Named(Run(s, actions).rows)
    decreases actions
  {
    if actions != [] {
      RowsAreNamed(Step(s, actions[0]), actions[1..]);
    }
  }

  /** An operation whose worker is gone keeps its server blocked. */
  ghost predicate Abandoned(s: System, id: string, serverId: string) {
    Holds(s.rows, id, serverId) && forall w :: w in s.workers ==> s.workers[w].opId != id
  }

  predicate Touches(actions: seq<Action>, id: string) {
    exists a :: a in actions && a.Release? && a.id == id
  }

  function StartsOf(s: System, serverId: string): nat {
    CountFor(s.starts, serverId)
  }

  function CountFor(starts: seq<Start>, serverId: string): nat {
    if starts == [] then 0
    else CountFor(starts[..|starts| - 1], serverId) + if starts[|starts| - 1].serverId == serverId then 1 else 0
  }

  /** A crash abandons every operation that still held a lock. */
  lemma CrashAbandonsOpenOperations(s: System, id: string)
    requires Inv(s) && id in s.rows && !s.rows[id].phase.Terminal()
    ensures Abandoned(Step(s, Crash), id, s.rows[id].serverId)
  {
  }

  lemma AdvanceElsewhere(
    t: Table, id: string, other: string, from: Phase, to: Phase, detail: string, fault: Fault, now: int)
    requires id in t && other != id
    ensures id in Advanced(t, other, from, to, detail, fault, now)
    ensures Advanced(t, other, from, to, detail, fault, now)[id] == t[id]
  {
  }

  lemma AbandonedRowStays(s: System, a: Action, id: string, serverId: string)
    requires Inv(s) && Abandoned(s, id, serverId) && !(a.Release? && a.id == id)
    ensures id in Step(s, a).rows && Step(s, a).rows[id] == s.rows[id]
  {
    assert id in s.used;
    if Enabled(s, a) {
      match a
      case Call(w, request, freshId, uuid, fault, now) =>
      case Enter(w, fault, now) => AdvanceElsewhere(s.rows, id, s.workers[w].opId, Prepared, Executing, "", fault, now);
      case GiveUp(w, fault, now) =>
        AdvanceElsewhere(s.rows, id, s.workers[w].opId, Prepared, Failed, GIVING_UP, fault, now);
      case Finish(w, fault, now) =>
        var error := s.workers[w].stage.error;
        AdvanceElsewhere(s.rows, id, s.workers[w].opId, Executing, Outcome(error), Detail(error), fault, now);
      case Return(w, outcome) =>
      case Crash =>
      case Release(other, from, note, fault, now) =>
        AdvanceElsewhere(s.rows, id, other, from, Recovered, note, fault, now);
      case Prune(olderThan) =>
    }
  }

  lemma AbandonedHasNoWorker(s: System, a: Action, id: string, serverId: string)
    requires Inv(s) && Abandoned(s, id, serverId)
    ensures forall w :: w in Step(s, a).workers ==> Step(s, a).workers[w].opId != id
  {
    assert id in s.used;
  }

  lemma AbandonedStays(s: System, a: Action, id: string, serverId: string)
    requires Inv(s) && Abandoned(s, id, serverId) && !(a.Release? && a.id == id)
    ensures Abandoned(Step(s, a), id, serverId)
  {
    AbandonedRowStays(s, a, id, serverId);
    AbandonedHasNoWorker(s, a, id, serverId);
  }

  /** The worker that enters works on another server: the abandoned row holds the only lock of its own. */
  lemma EntersElsewhere(s: System, w: nat, fault: Fault, now: int, id: string, serverId: string)
    requires Inv(s) && Abandoned(s, id, serverId) && AtStage(s, w, Begun)
    ensures StartsOf(AfterEnter(s, w, fault, now), serverId) == StartsOf(s, serverId)
  {
    var s', k := AfterEnter(s, w, fault, now), s.workers[w];
    if s'.starts != s.starts {
      assert s'.starts[..|s'.starts| - 1] == s.starts;
      assert Holds(s.rows, k.opId, k.serverId) && k.opId != id;
    }
  }

  lemma AbandonedStepStartsNothing(s: System, a: Action, id: string, serverId: string)
    requires Inv(s) && Abandoned(s, id, serverId) && !(a.Release? && a.id == id)
    ensures Abandoned(Step(s, a), id, serverId)
    ensures StartsOf(Step(s, a), serverId) == StartsOf(s, serverId)
  {
    AbandonedStays(s, a, id, serverId);
    if a.Enter? && Enabled(s, a) {
      EntersElsewhere(s, a.w, a.fault, a.now, id, serverId);
    }
  }

  /** After a crash no mutation of a server whose lock was held is started until that lock is
      released, whatever new requests arrive, whatever other operations are released, and however
      often the panel crashes again. */
  lemma {:induction false} CrashBlocksUntilRelease(s: System, actions: seq<Action>, id: string, serverId: string)
    requires Inv(s) && Abandoned(s, id, serverId) && !Touches(actions, id)
    ensures Abandoned(Run(s, actions), id, serverId)
    ensures StartsOf(Run(s, actions), serverId) == StartsOf(s, serverId)
    decreases actions
  {
    if actions != [] {
      var s1 := Step(s, actions[0]);
      StepKeepsInv(s, actions[0]);
      assert actions[0] in actions;
      AbandonedStepStartsNothing(s, actions[0], id, serverId);
      assert forall a :: a in actions[1..] ==> a in actions;
      CrashBlocksUntilRelease(s1, actions[1..], id, serverId);
    }
  }
}
