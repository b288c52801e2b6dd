/** What a repeat of a journaled request is told, over whole runs (internal/operation/journal.go:66-124).
    Between the steps of the first call anybody else may do anything, except crash the process or release
    this very operation. */
module JournalAnswers {
  import opened Wrappers
  import opened OperationJournal
  import opened JournalRuns

  predicate ActsFor(a: Action, w: nat) {
    match a
    case Call(v, _, _, _, _, _) => v == w
    case Enter(v, _, _) => v == w
    case GiveUp(v, _, _) => v == w
    case Return(v, _) => v == w
    case Finish(v, _, _) => v == w
    case _ => false
  }

  predicate Elsewhere(a: Action, w: nat, id: string) {
    !ActsFor(a, w) && !a.Crash? && !(a.Release? && a.id == id)
  }

  predicate AllElsewhere(actions: seq<Action>, w: nat, id: string) {
    forall a :: a in actions ==> Elsewhere(a, w, id)
  }

  /** The worker and the open row it works on. */
  ghost predicate WorksOn(s: System, w: nat, k: Worker, id: string, op: Op) {
    Inv(s) && w in s.workers && s.workers[w] == k && k.opId == id && id in s.rows && s.rows[id] == op
  }

  /** Another worker's step: its operation is another one. */
  lemma WorkersApart(s: System, v: nat, w: nat)
    requires Inv(s) && v in s.workers && w in s.workers && v != w
    ensures s.workers[v].opId != s.workers[w].opId
  {
  }

  lemma RowElsewhere(s: System, a: Action, w: nat, id: string)
    requires Inv(s) && w in s.workers && s.workers[w].opId == id && Elsewhere(a, w, id)
    requires id in s.rows && s.rows[id].activeServer.Some?
    ensures id in Step(s, a).rows && Step(s, a).rows[id] == s.rows[id]
    ensures w in Step(s, a).workers && Step(s, a).workers[w] == s.workers[w]
  {
    if Enabled(s, a) {
      match a
      case Call(_, _, freshId, _, _, _) => assert freshId != id;
      case Enter(v, fault, now) =>
        WorkersApart(s, v, w);
        AdvanceElsewhere(s.rows, id, s.workers[v].opId, Prepared, Executing, "", fault, now);
      case GiveUp(v, fault, now) =>
        WorkersApart(s, v, w);
        AdvanceElsewhere(s.rows, id, s.workers[v].opId, Prepared, Failed, GIVING_UP, fault, now);
      case Return(_, _) =>
      case Finish(v, fault, now) =>
        WorkersApart(s, v, w);
        var error := s.workers[v].stage.error;
        AdvanceElsewhere(s.rows, id, s.workers[v].opId, Executing, Outcome(error), Detail(error), fault, now);
      case Crash =>
      case Release(other, from, note, fault, now) =>
        AdvanceElsewhere(s.rows, id, other, from, Recovered, note, fault, now);
      case Prune(_) =>
    }
  }

  lemma StepElsewhere(s: System, a: Action, w: nat, k: Worker, id: string, op: Op)
    requires WorksOn(s, w, k, id, op) && op.phase in {Prepared, Executing} && Elsewhere(a, w, id)
    ensures WorksOn(Step(s, a), w, k, id, op)
  {
    StepKeepsInv(s, a);
    RowElsewhere(s, a, w, id);
  }

  lemma {:induction false} RunElsewhere(s: System, actions: seq<Action>, w: nat, k: Worker, id: string, op: Op)
    requires WorksOn(s, w, k, id, op) && op.phase in {Prepared, Executing} && AllElsewhere(actions, w, id)
    ensures WorksOn(Run(s, actions), w, k, id, op)
    decreases actions
  {
    if actions != [] {
      assert Elsewhere(actions[0], w, id);
      StepElsewhere(s, actions[0], w, k, id, op);
      RunElsewhere(Step(s, actions[0]), actions[1..], w, k, id, op);
    }
  }

  // ---------------------------------------------------------------- the first call

  /** One call, with what others do after each of its first three steps. */
  datatype Life = Life(
    w: nat, request: Request, id: string, uuid: string, outcome: Option<string>,
    begun: seq<Action>, inside: seq<Action>, returned: seq<Action>, now: int)

  /** The request is well formed and new, its server is free, and its id and worker are unused. */
  ghost predicate Admitted(s: System, l: Life) {
    && Inv(s) && l.w !in s.workers && l.id !in s.used
    && l.request.serverId != "" && 0 < |l.request.requestId| <= 128
    && (forall i :: i in s.rows ==> s.rows[i].activeServer != Some(l.request.serverId))
    && (forall i :: i in s.rows && s.rows[i].serverId == l.request.serverId ==>
          s.rows[i].requestKey != l.request.requestId + ":" + l.request.kind)
    && AllElsewhere(l.begun, l.w, l.id) && AllElsewhere(l.inside, l.w, l.id) && AllElsewhere(l.returned, l.w, l.id)
  }

  ghost function Called(s: System, l: Life): System {
    Run(Step(s, Call(l.w, l.request, l.id, l.uuid, NoFault, l.now)), l.begun)
  }

  ghost function Entered(s: System, l: Life): System {
    Run(Step(Called(s, l), Enter(l.w, NoFault, l.now)), l.inside)
  }

  ghost function Returned(s: System, l: Life): System {
    Run(Step(Entered(s, l), Return(l.w, l.outcome)), l.returned)
  }

  /** A row that records this request. */
  ghost predicate RowOf(op: Op, request: Request) {
    && op.serverId == request.serverId && op.requestKey == request.requestId + ":" + request.kind
    && op.nodeId == request.nodeId && op.containerId == request.containerId && op.kind == request.kind
    && op.payloadHash == Digest(request)
  }

  ghost predicate Stands(s: System, l: Life, stage: Stage, phase: Phase) {
    && l.id in s.rows && RowOf(s.rows[l.id], l.request) && s.rows[l.id].phase == phase
    && WorksOn(s, l.w, Worker(l.id, l.request.serverId, l.request.requestId, l.request.kind, stage), l.id, s.rows[l.id])
  }

  lemma CallStands(s: System, l: Life)
    requires Admitted(s, l)
    ensures Stands(Called(s, l), l, Begun, Prepared)
  {
    var call := Call(l.w, l.request, l.id, l.uuid, NoFault, l.now);
    assert BeginVerdict(s.rows, IntentOf(l.request, l.uuid), l.id) == Created(l.id);
    var s1 := Step(s, call);
    StepKeepsInv(s, call);
    RunElsewhere(s1, l.begun, l.w, s1.workers[l.w], l.id, s1.rows[l.id]);
  }

  lemma EnterStands(s: System, l: Life)
    requires Admitted(s, l)
    ensures Stands(Entered(s, l), l, Inside, Executing)
  {
    CallStands(s, l);
    var s0, enter := Called(s, l), Enter(l.w, NoFault, l.now);
    assert CanAdvance(s0.rows, l.id, Prepared);
    var s1 := Step(s0, enter);
    StepKeepsInv(s0, enter);
    RunElsewhere(s1, l.inside, l.w, s1.workers[l.w], l.id, s1.rows[l.id]);
  }

  lemma ReturnStands(s: System, l: Life)
    requires Admitted(s, l)
    ensures Stands(Returned(s, l), l, Finishing(l.outcome), Executing)
  {
    EnterStands(s, l);
    var s0, return_ := Entered(s, l), Return(l.w, l.outcome);
    var s1 := Step(s0, return_);
    StepKeepsInv(s0, return_);
    RunElsewhere(s1, l.returned, l.w, s1.workers[l.w], l.id, s1.rows[l.id]);
  }

  // ---------------------------------------------------------------- its repeats

  /** The answer to the same request once more. */
  ghost function Again(s: System, request: Request, v: nat, id: string, uuid: string, now: int): CallAnswer {
    CallResult(s, Call(v, request, id, uuid, NoFault, now))
  }

  lemma RowAnswers(s: System, l: Life, v: nat, id: string, uuid: string, now: int)
    requires Inv(s) && l.id in s.rows && RowOf(s.rows[l.id], l.request)
    requires l.request.serverId != "" && 0 < |l.request.requestId| <= 128
    ensures Again(s, l.request, v, id, uuid, now) == RepeatAnswer(s.rows[l.id], IntentOf(l.request, uuid))
    ensures SameIdentity(s.rows[l.id], IntentOf(l.request, uuid))
    ensures forall r: Request ::
      r == l.request.(nodeId := r.nodeId, containerId := r.containerId) && r != l.request ==>
        Again(s, r, v, id, uuid, now) == Error
  {
    assert IsRequest(s.rows, l.id, l.request.serverId, l.request.requestId + ":" + l.request.kind);
    BeginFindsTheRequest(s.rows, l.id, IntentOf(l.request, uuid), id);
    forall r: Request | r == l.request.(nodeId := r.nodeId, containerId := r.containerId) && r != l.request
      ensures Again(s, r, v, id, uuid, now) == Error
    {
      BeginFindsTheRequest(s.rows, l.id, IntentOf(r, uuid), id);
    }
  }

  /** Until the outcome of the first call is recorded, a repeat is told that it is in progress. */
  lemma RepeatIsToldInProgress(s: System, l: Life, v: nat, id: string, uuid: string, now: int)
    requires Admitted(s, l)
    ensures Again(Called(s, l), l.request, v, id, uuid, now) == InProgress
    ensures Again(Entered(s, l), l.request, v, id, uuid, now) == InProgress
    ensures Again(Returned(s, l), l.request, v, id, uuid, now) == InProgress
  {
    CallStands(s, l);
    RowAnswers(Called(s, l), l, v, id, uuid, now);
    EnterStands(s, l);
    RowAnswers(Entered(s, l), l, v, id, uuid, now);
    ReturnStands(s, l);
    RowAnswers(Returned(s, l), l, v, id, uuid, now);
  }

  ghost function Finished(s: System, l: Life, fault: Fault, later: seq<Action>): System {
    Run(Step(Returned(s, l), Finish(l.w, fault, l.now)), later)
  }

  /** The recorded outcome. */
  predicate Records(op: Op, outcome: Option<string>) {
    if outcome.Some? then op.phase == Failed && op.lastError == outcome.value
    else op.phase == Complete && op.lastError == ""
  }

  lemma FinishRecords(s: System, l: Life, fault: Fault)
    requires Stands(s, l, Finishing(l.outcome), Executing) && fault.Effective()
    ensures var s' := Step(s, Finish(l.w, fault, l.now));
      && Inv(s') && l.id in s'.rows && RowOf(s'.rows[l.id], l.request)
      && s'.rows[l.id].phase.Terminal() && Records(s'.rows[l.id], l.outcome)
  {
    StepKeepsInv(s, Finish(l.w, fault, l.now));
    assert CanAdvance(s.rows, l.id, Executing);
  }

  lemma FinishedStands(s: System, l: Life, fault: Fault, later: seq<Action>)
    requires Admitted(s, l) && fault.Effective()
    ensures var s' := Finished(s, l, fault, later);
      && Inv(s')
      && (l.id in s'.rows ==> RowOf(s'.rows[l.id], l.request) && Records(s'.rows[l.id], l.outcome))
  {
    ReturnStands(s, l);
    FinishRecords(Returned(s, l), l, fault);
    var s1 := Step(Returned(s, l), Finish(l.w, fault, l.now));
    FinishedRowsAreFinal(s1, later, l.id);
    RunKeepsInv(s1, later);
  }

  /** Once the outcome is recorded, and whatever happens afterwards while the row is kept, a repeat is told
      success exactly when the mutation succeeded, and the error exactly when it failed with it. */
  lemma RepeatIsToldTheOutcome(
    s: System, l: Life, fault: Fault, later: seq<Action>, v: nat, id: string, uuid: string, now: int)
    requires Admitted(s, l) && fault.Effective() && l.id in Finished(s, l, fault, later).rows
    ensures var answer := Again(Finished(s, l, fault, later), l.request, v, id, uuid, now);
      && (answer == Success <==> l.outcome == None)
      && forall e :: answer == AlreadyFailed(e) <==> l.outcome == Some(e)
  {
    FinishedStands(s, l, fault, later);
    RowAnswers(Finished(s, l, fault, later), l, v, id, uuid, now);
  }

  ghost function ReleasedFrom(s: System, l: Life, note: string, fault: Fault, later: seq<Action>): System {
    Run(Step(Entered(s, l), Release(l.id, Executing, note, fault, l.now)), later)
  }

  lemma ReleaseRecords(s: System, l: Life, note: string, fault: Fault)
    requires Stands(s, l, Inside, Executing) && fault.Effective()
    ensures var s' := Step(s, Release(l.id, Executing, note, fault, l.now));
      Inv(s') && l.id in s'.rows && RowOf(s'.rows[l.id], l.request) && s'.rows[l.id].phase == Recovered
  {
    StepKeepsInv(s, Release(l.id, Executing, note, fault, l.now));
    assert CanAdvance(s.rows, l.id, Executing);
  }

  lemma ReleasedStands(s: System, l: Life, note: string, fault: Fault, later: seq<Action>)
    requires Admitted(s, l) && fault.Effective()
    ensures var s' := ReleasedFrom(s, l, note, fault, later);
      Inv(s') && (l.id in s'.rows ==> RowOf(s'.rows[l.id], l.request) && s'.rows[l.id].phase == Recovered)
  {
    EnterStands(s, l);
    ReleaseRecords(Entered(s, l), l, note, fault);
    var s1 := Step(Entered(s, l), Release(l.id, Executing, note, fault, l.now));
    FinishedRowsAreFinal(s1, later, l.id);
    RunKeepsInv(s1, later);
  }

  /** After a release of the operation a repeat must come with a new request id. */
  lemma RepeatNeedsNewRequest(
    s: System, l: Life, note: string, fault: Fault, later: seq<Action>, v: nat, id: string, uuid: string, now: int)
    requires Admitted(s, l) && fault.Effective() && l.id in ReleasedFrom(s, l, note, fault, later).rows
    ensures Again(ReleasedFrom(s, l, note, fault, later), l.request, v, id, uuid, now) == NeedsNewRequest
  {
    ReleasedStands(s, l, note, fault, later);
    RowAnswers(ReleasedFrom(s, l, note, fault, later), l, v, id, uuid, now);
  }

  /** The same request id for another node or container is a conflict, before and after the outcome. */
  lemma ChangedRequestIsRefused(
    s: System, l: Life, fault: Fault, later: seq<Action>, r: Request, v: nat, id: string, uuid: string, now: int)
    requires Admitted(s, l) && fault.Effective() && l.id in Finished(s, l, fault, later).rows
    requires r == l.request.(nodeId := r.nodeId, containerId := r.containerId) && r != l.request
    ensures Again(Called(s, l), r, v, id, uuid, now) == Error
    ensures Again(Finished(s, l, fault, later), r, v, id, uuid, now) == Error
  {
    CallStands(s, l);
    RowAnswers(Called(s, l), l, v, id, uuid, now);
    FinishedStands(s, l, fault, later);
    RowAnswers(Finished(s, l, fault, later), l, v, id, uuid, now);
  }
}
