/** One call of RunJournaled against the store, and the two loops that release the locks of
    interrupted operations (internal/operation/journal.go, operation.go and retry.go). */
module JournalRecovery {
  import opened Wrappers
  import opened OperationJournal
  import opened JournalRuns

  datatype JournalAnswer =
    | Done
    | BadRequestId
    | Earlier(answer: CallAnswer)
    | AttemptNotRecorded
    | MutationFailed(error: string)

  /** The faults of the three writes of one call, in the order the call makes them. */
  datatype CallFaults = CallFaults(begin: Fault, enter: Fault, last: Fault)

  /** The transactions of one call. Those that a branch does not reach are not enabled. */
  function Journey(
    request: Request, freshId: string, uuid: string, outcome: Option<string>, faults: CallFaults, now: int)
    : seq<Action>
  {
    [Call(0, request, freshId, uuid, faults.begin, now), Enter(0, faults.enter, now),
     GiveUp(0, faults.last, now), Return(0, outcome), Finish(0, faults.last, now)]
  }

  ghost function Alone(rows: Table): System {
    System(rows, map[], [], {}, {})
  }

  lemma RunUnfolds(s: System, a: Action, rest: seq<Action>)
    ensures Run(s, [a] + rest) == Run(Step(s, a), rest)
  {
    assert ([a] + rest)[1..] == rest;
  }

  lemma JourneyUnfolds(
    s: System, request: Request, freshId: string, uuid: string, outcome: Option<string>, faults: CallFaults, now: int)
    ensures var j := Journey(request, freshId, uuid, outcome, faults, now);
      Run(s, j) == Step(Step(Step(Step(Step(s, j[0]), j[1]), j[2]), j[3]), j[4])
  {
    var j := Journey(request, freshId, uuid, outcome, faults, now);
    assert j == [j[0]] + ([j[1]] + ([j[2]] + ([j[3]] + ([j[4]] + []))));
    RunUnfolds(s, j[0], [j[1]] + ([j[2]] + ([j[3]] + ([j[4]] + []))));
    var s1 := Step(s, j[0]);
    RunUnfolds(s1, j[1], [j[2]] + ([j[3]] + ([j[4]] + [])));
    var s2 := Step(s1, j[1]);
    RunUnfolds(s2, j[2], [j[3]] + ([j[4]] + []));
    var s3 := Step(s2, j[2]);
    RunUnfolds(s3, j[3], [j[4]] + []);
    RunUnfolds(Step(s3, j[3]), j[4], []);
  }

  /** What the caller of RunJournaled is told, from the verdict of its begin transaction on. */
  function Told(begun: CallAnswer, request: Request, outcome: Option<string>, faults: CallFaults): JournalAnswer {
    if |request.requestId| > MAX_REQUEST_ID then BadRequestId
    else if begun == Success then Done
    else if begun != Proceeds then Earlier(begun)
    else if faults.enter.Reported() then AttemptNotRecorded
    else if outcome.Some? then MutationFailed(outcome.value)
    else Done
  }

  /** Whether the mutation of a call that begins with this verdict runs. */
  predicate Runs(begun: BeginResult, request: Request, faults: CallFaults) {
    |request.requestId| <= MAX_REQUEST_ID && !faults.begin.Reported() && !faults.enter.Reported() && begun.Created?
  }

  /** The rows a call leaves, write by write. */
  ghost function RowsAfterCall(
    rows: Table, request: Request, freshId: string, uuid: string, outcome: Option<string>, faults: CallFaults, now: int)
    : Table
  {
    var intent := IntentOf(request, uuid);
    if |request.requestId| > MAX_REQUEST_ID then rows
    else
      var begun := if faults.begin.Effective() then AfterBegin(rows, intent, freshId, now) else rows;
      if faults.begin.Reported() || !BeginVerdict(rows, intent, freshId).Created? then begun
      else
        var entered := Advanced(begun, freshId, Prepared, Executing, "", faults.enter, now);
        if faults.enter.Reported() then Advanced(entered, freshId, Prepared, Failed, GIVING_UP, faults.last, now)
        else Advanced(entered, freshId, Executing, Outcome(outcome), Detail(outcome), faults.last, now)
  }

  /** A call whose begin transaction gives no new row, or whose reply is lost, ends there. */
  lemma JourneyWithoutStart(
    rows: Table, request: Request, freshId: string, uuid: string, outcome: Option<string>, faults: CallFaults, now: int)
    requires |request.requestId| > MAX_REQUEST_ID || faults.begin.Reported()
             || !BeginVerdict(rows, IntentOf(request, uuid), freshId).Created?
    ensures var end := Run(Alone(rows), Journey(request, freshId, uuid, outcome, faults, now));
      end.rows == RowsAfterCall(rows, request, freshId, uuid, outcome, faults, now) && end.starts == []
  {
    var s, j := Alone(rows), Journey(request, freshId, uuid, outcome, faults, now);
    JourneyUnfolds(s, request, freshId, uuid, outcome, faults, now);
    var s1 := Step(s, j[0]);
    assert s1.workers == map[] && Step(s1, j[1]) == s1 && Step(s1, j[2]) == s1 && Step(s1, j[3]) == s1;
  }

  /** The state once the begin transaction has made the row. */
  ghost function JustBegun(rows: Table, request: Request, freshId: string, uuid: string, now: int): System {
    System(AfterBegin(rows, IntentOf(request, uuid), freshId, now),
           map[0 := Worker(freshId, request.serverId, request.requestId, request.kind, Begun)], [], {freshId}, {})
  }

  lemma JourneyBegins(
    rows: Table, request: Request, freshId: string, uuid: string, outcome: Option<string>, faults: CallFaults, now: int)
    requires |request.requestId| <= MAX_REQUEST_ID && !faults.begin.Reported()
    requires BeginVerdict(rows, IntentOf(request, uuid), freshId).Created?
    ensures Step(Alone(rows), Journey(request, freshId, uuid, outcome, faults, now)[0])
      == JustBegun(rows, request, freshId, uuid, now)
    ensures CanAdvance(JustBegun(rows, request, freshId, uuid, now).rows, freshId, Prepared)
  {
  }

  lemma JourneyNotEntered(
    rows: Table, request: Request, freshId: string, uuid: string, outcome: Option<string>, faults: CallFaults, now: int)
    requires |request.requestId| <= MAX_REQUEST_ID && !faults.begin.Reported() && faults.enter.Reported()
    requires BeginVerdict(rows, IntentOf(request, uuid), freshId).Created?
    ensures var end := Run(Alone(rows), Journey(request, freshId, uuid, outcome, faults, now));
      end.rows == RowsAfterCall(rows, request, freshId, uuid, outcome, faults, now) && end.starts == []
  {
    var j := Journey(request, freshId, uuid, outcome, faults, now);
    JourneyUnfolds(Alone(rows), request, freshId, uuid, outcome, faults, now);
    JourneyBegins(rows, request, freshId, uuid, outcome, faults, now);
    var s2 := Step(JustBegun(rows, request, freshId, uuid, now), j[1]);
    assert AtStage(s2, 0, GivingUp) && s2.starts == [];
    var s3 := Step(s2, j[2]);
    assert s3.workers == map[] && Step(s3, j[3]) == s3;
  }

  lemma JourneyRuns(
    rows: Table, request: Request, freshId: string, uuid: string, outcome: Option<string>, faults: CallFaults, now: int)
    requires Runs(BeginVerdict(rows, IntentOf(request, uuid), freshId), request, faults)
    ensures var end := Run(Alone(rows), Journey(request, freshId, uuid, outcome, faults, now));
      end.rows == RowsAfterCall(rows, request, freshId, uuid, outcome, faults, now) && |end.starts| == 1
  {
    var j := Journey(request, freshId, uuid, outcome, faults, now);
    JourneyUnfolds(Alone(rows), request, freshId, uuid, outcome, faults, now);
    JourneyBegins(rows, request, freshId, uuid, outcome, faults, now);
    var s2 := Step(JustBegun(rows, request, freshId, uuid, now), j[1]);
    assert AtStage(s2, 0, Inside) && |s2.starts| == 1 && Step(s2, j[2]) == s2;
    var s4 := Step(s2, j[3]);
    assert s4.workers[0].stage == Finishing(outcome) && s4.rows == s2.rows && s4.starts == s2.starts;
  }

  /** The rows of a call, and whether its mutation ran, are those of the run of its transactions. */
  lemma JourneyGives(
    rows: Table, request: Request, freshId: string, uuid: string, outcome: Option<string>, faults: CallFaults, now: int)
    ensures var end := Run(Alone(rows), Journey(request, freshId, uuid, outcome, faults, now));
      && end.rows == RowsAfterCall(rows, request, freshId, uuid, outcome, faults, now)
      && (|end.starts| == 1 <==> Runs(BeginVerdict(rows, IntentOf(request, uuid), freshId), request, faults))
  {
    var begun := BeginVerdict(rows, IntentOf(request, uuid), freshId);
    if Runs(begun, request, faults) {
      JourneyRuns(rows, request, freshId, uuid, outcome, faults, now);
    } else if |request.requestId| > MAX_REQUEST_ID || faults.begin.Reported() || !begun.Created? {
      JourneyWithoutStart(rows, request, freshId, uuid, outcome, faults, now);
    } else {
      JourneyNotEntered(rows, request, freshId, uuid, outcome, faults, now);
    }
  }

  /** A mutation ran only for an admissible request. */
  lemma RunsOnlyWhenAdmitted(rows: Table, request: Request, freshId: string, uuid: string, faults: CallFaults)
    requires Runs(BeginVerdict(rows, IntentOf(request, uuid), freshId), request, faults)
    ensures |request.requestId| <= 128 && request.serverId != ""
    ensures faults.begin == NoFault && faults.enter == NoFault
    ensures forall id :: id in rows ==> rows[id].activeServer != Some(request.serverId)
    ensures forall id :: id in rows && rows[id].serverId == request.serverId ==>
      rows[id].requestKey != if request.requestId == "" then uuid else request.requestId + ":" + request.kind
  {
    forall id | id in rows
      ensures rows[id].activeServer != Some(request.serverId)
      ensures rows[id].serverId == request.serverId ==>
        rows[id].requestKey != if request.requestId == "" then uuid else request.requestId + ":" + request.kind
    {
      assert !Holds(rows, id, request.serverId);
      assert !IsRequest(rows, id, request.serverId, IntentOf(request, uuid).key);
    }
  }

  /** The row of a mutation that ran records its outcome, or that it is still executing when the last write
      was rejected. */
  lemma RunIsRecorded(
    rows: Table, request: Request, freshId: string, uuid: string, outcome: Option<string>, faults: CallFaults, now: int)
    requires Runs(BeginVerdict(rows, IntentOf(request, uuid), freshId), request, faults)
    ensures var after := RowsAfterCall(rows, request, freshId, uuid, outcome, faults, now);
      && freshId in after && after == rows[freshId := after[freshId]]
      && after[freshId].serverId == request.serverId && after[freshId].kind == request.kind
      && after[freshId].nodeId == request.nodeId && after[freshId].containerId == request.containerId
      && after[freshId].requestKey == (if request.requestId == "" then uuid else request.requestId + ":" + request.kind)
      && after[freshId].payloadHash == Digest(request)
      && (faults.last.Effective() ==>
            after[freshId].activeServer == None
            && if outcome.Some? then after[freshId].phase == Failed && after[freshId].lastError == outcome.value
               else after[freshId].phase == Complete && after[freshId].lastError == "")
      && (!faults.last.Effective() ==>
            after[freshId].phase == Executing && after[freshId].activeServer == Some(request.serverId))
  {
    var t := AfterBegin(rows, IntentOf(request, uuid), freshId, now);
    assert t == rows[freshId := FreshRow(IntentOf(request, uuid), now)];
    var entered := Advanced(t, freshId, Prepared, Executing, "", faults.enter, now);
    assert entered[freshId].phase == Executing && entered == rows[freshId := entered[freshId]];
  }

  /** A whole call with nobody else at work. It is the linear run of its own transactions, so
      whatever is proved of all runs is proved of it; `ran` says whether the mutation ran. */
  method RunJournaled(store: JournalStore, request: Request, freshId: string, uuid: string,
                      outcome: Option<string>, faults: CallFaults, now: int)
    returns (answer: JournalAnswer, ran: bool)
    requires Sound(store.rows) && freshId !in store.rows && uuid != ""
    modifies store
    ensures Sound(store.rows)
    ensures store.rows == Run(Alone(old(store.rows)), Journey(request, freshId, uuid, outcome, faults, now)).rows
    ensures ran == (|Run(Alone(old(store.rows)), Journey(request, freshId, uuid, outcome, faults, now)).starts| == 1)
    ensures ran == Runs(BeginVerdict(old(store.rows), IntentOf(request, uuid), freshId), request, faults)
    ensures answer == Told(CallResult(Alone(old(store.rows)), Call(0, request, freshId, uuid, faults.begin, now)),
                           request, outcome, faults)
    ensures !ran && answer == Done ==>
      exists id :: id in old(store.rows) && old(store.rows)[id].phase == Complete && old(store.rows) == store.rows
        && SameIdentity(old(store.rows)[id], IntentOf(request, uuid))
    ensures ran ==> |request.requestId| <= 128 && request.serverId != ""
    ensures ran ==> forall id :: id in old(store.rows) ==> old(store.rows)[id].activeServer != Some(request.serverId)
    ensures ran ==> freshId in store.rows && store.rows == old(store.rows)[freshId := store.rows[freshId]]
    ensures ran ==>
      store.rows[freshId].serverId == request.serverId && store.rows[freshId].nodeId == request.nodeId
      && store.rows[freshId].containerId == request.containerId && store.rows[freshId].kind == request.kind
      && store.rows[freshId].payloadHash == Digest(request)
    ensures ran ==>
      store.rows[freshId].requestKey == if request.requestId == "" then uuid else request.requestId + ":" + request.kind
    ensures ran && faults.last.Effective() && outcome.Some? ==>
      store.rows[freshId].phase == Failed && store.rows[freshId].lastError == outcome.value
    ensures ran && faults.last.Effective() && outcome.None? ==>
      store.rows[freshId].phase == Complete && store.rows[freshId].lastError == ""
    ensures ran && faults.last.Effective() ==> store.rows[freshId].activeServer == None
    ensures ran && !faults.last.Effective() ==>
      store.rows[freshId].phase == Executing && store.rows[freshId].activeServer == Some(request.serverId)
    ensures ran ==> answer == if outcome.Some? then MutationFailed(outcome.value) else Done
  {
    JourneyGives(store.rows, request, freshId, uuid, outcome, faults, now);
    if |request.requestId| > MAX_REQUEST_ID {
      return BadRequestId, false;
    }
    var begun := store.BeginServerOperation(IntentOf(request, uuid), freshId, now, faults.begin);
    if !begun.Created? {
      answer := if begun.Reused? && begun.op.phase == Complete then Done else Earlier(AnswerFor(begun));
      return answer, false;
    }
    answer, ran := RunBegun(store, freshId, outcome, faults, now);
    if ran {
      RunsOnlyWhenAdmitted(old(store.rows), request, freshId, uuid, faults);
      RunIsRecorded(old(store.rows), request, freshId, uuid, outcome, faults, now);
    }
  }

  lemma RepeatAnswers(rows: Table, request: Request, id: string, freshId: string)
    requires Sound(rows) && IsRequest(rows, id, request.serverId, request.requestId + ":" + request.kind)
    requires request.serverId != "" && 0 < |request.requestId| <= 128
    requires SameIdentity(rows[id], IntentOf(request, "uuid"))
    ensures BeginVerdict(rows, IntentOf(request, "uuid"), freshId) == Reused(id, rows[id])
  {
    BeginFindsTheRequest(rows, id, IntentOf(request, "uuid"), freshId);
  }

  /** A call whose mutation ran and was recorded, and the same request once more: nothing runs, and the
      answer is the recorded one. */
  method CallTwice(store: JournalStore, request: Request, first: string, second: string,
                   outcome: Option<string>, now: int)
    returns (answer: JournalAnswer, ran: bool)
    requires Sound(store.rows) && first != second && first !in store.rows && second !in store.rows
    requires request.serverId != "" && 0 < |request.requestId| <= 128
    requires forall id :: id in store.rows ==>
      store.rows[id].activeServer != Some(request.serverId) && store.rows[id].serverId != request.serverId
    modifies store
    ensures !ran && answer == if outcome.Some? then Earlier(AlreadyFailed(outcome.value)) else Done
  {
    var none := CallFaults(NoFault, NoFault, NoFault);
    assert BeginVerdict(store.rows, IntentOf(request, "uuid"), first) == Created(first);
    var _, ran1 := RunJournaled(store, request, first, "uuid", outcome, none, now);
    assert ran1;
    RepeatAnswers(store.rows, request, first, second);
    answer, ran := RunJournaled(store, request, second, "uuid", outcome, none, now);
  }

  /** The rest of a call whose row was made. */
  method RunBegun(store: JournalStore, freshId: string, outcome: Option<string>, faults: CallFaults, now: int)
    returns (answer: JournalAnswer, ran: bool)
    requires Sound(store.rows) && CanAdvance(store.rows, freshId, Prepared)
    modifies store
    ensures Sound(store.rows)
    ensures var entered := Advanced(old(store.rows), freshId, Prepared, Executing, "", faults.enter, now);
      store.rows == if ran
        then Advanced(entered, freshId, Executing, Outcome(outcome), Detail(outcome), faults.last, now)
                    else Advanced(entered, freshId, Prepared, Failed, GIVING_UP, faults.last, now)
    ensures ran == !faults.enter.Reported()
    ensures answer == if !ran then AttemptNotRecorded else if outcome.Some? then MutationFailed(outcome.value) else Done
  {
    var entered := store.AdvanceServerOperation(freshId, Prepared, Executing, "", now, faults.enter);
    if !entered {
      var _ := store.AdvanceServerOperation(freshId, Prepared, Failed, GIVING_UP, now, faults.last);
      return AttemptNotRecorded, false;
    }
    if outcome.Some? {
      var _ := store.AdvanceServerOperation(freshId, Executing, Failed, outcome.value, now, faults.last);
      return MutationFailed(outcome.value), true;
    }
    var _ := store.AdvanceServerOperation(freshId, Executing, Complete, "", now, faults.last);
    return Done, true;
  }

  // ---------------------------------------------------------------- recovery loops

  /** What recovery sees of a container; it fails when the state cannot be established. */
  datatype Observed = Observed(exists_: bool, running: bool, containerId: string)

  type Observer = (string, string) -> Option<Observed>

  /** The detail recorded for a recovered operation: the state of its container and the start of its id. */
  function Describe(o: Observed): (text: string)
    ensures !o.exists_ ==> "container absent" <= text
    ensures o.exists_ && o.running ==> "container running" <= text
    ensures o.exists_ && !o.running ==> "container stopped" <= text
  {
    var state :=
      if !o.exists_ then "container absent" else if o.running then "container running" else "container stopped";
    var id := if o.exists_ && o.containerId != "" then " (" + ShortId(o.containerId) + ")" else "";
    state + id + CONVERGES
  }

  function ShortId(id: string): (short: string)
    ensures |id| <= 12 ==> short == id
    ensures |id| > 12 ==> |short| == 12 && short <= id
  {
    if |id| > 12 then id[..12] else id
  }

  const CONVERGES := "; intent outcome observed at startup and reconciliation will converge status"
  const AT_STARTUP := ""
  const LATER := "; observed after the daemon became reachable"

  ghost predicate Released(t: Table, id: string) {
    id in t && t[id].activeServer.None?
  }

  /** What recovery may do to one row: leave it, or release it as recovered. */
  ghost predicate KeptOrRecovered(before: Op, after: Op) {
    after == before
    || (before.activeServer.Some?
        && after == Moved(before, Recovered, after.lastError, after.updatedAt))
  }

  ghost predicate OnlyRecovers(before: Table, after: Table, ids: seq<string>) {
    && after.Keys == before.Keys
    && forall id :: id in before ==> KeptOrRecovered(before[id], after[id]) && (id !in ids ==> after[id] == before[id])
  }

  lemma RecoversStep(before: Table, mid: Table, after: Table, ids: seq<string>, id: string)
    requires OnlyRecovers(before, mid, ids) && OnlyRecovers(mid, after, [id])
    ensures OnlyRecovers(before, after, ids + [id])
    ensures forall i :: Released(mid, i) ==> after[i] == mid[i]
  {
    forall i | i in before
      ensures KeptOrRecovered(before[i], after[i]) && (i !in ids + [id] ==> after[i] == before[i])
    {
      assert KeptOrRecovered(before[i], mid[i]) && KeptOrRecovered(mid[i], after[i]);
    }
    forall i | Released(mid, i)
      ensures after[i] == mid[i]
    {
      assert i in before && KeptOrRecovered(mid[i], after[i]);
    }
  }

  /** Observes one operation and, when its container is known, releases its lock. */
  method ObserveAndRelease(
    store: JournalStore, id: string, observe: Observer, occasion: string, fault: Fault, now: int)
    returns (ok: bool)
    requires Sound(store.rows) && id in store.rows && store.rows[id].activeServer.Some?
    modifies store
    ensures Sound(store.rows) && OnlyRecovers(old(store.rows), store.rows, [id])
    ensures ok ==> Released(store.rows, id) && store.rows[id].phase == Recovered
    ensures !ok <==> fault.Reported() || observe(old(store.rows)[id].serverId, old(store.rows)[id].containerId).None?
    ensures !ok && !fault.LostReply? ==> store.rows == old(store.rows)
    ensures ok ==>
      store.rows[id].lastError
      == Describe(observe(old(store.rows)[id].serverId, old(store.rows)[id].containerId).value) + occasion
  {
    var op := store.rows[id];
    var seen := observe(op.serverId, op.containerId);
    if seen.None? {
      return false;
    }
    ok := store.AdvanceServerOperation(id, op.phase, Recovered, Describe(seen.value) + occasion, now, fault);
  }

  lemma {:induction false} SomeOldest(rows: Table, ids: set<string>) returns (oldest: string)
    requires ids != {} && ids <= rows.Keys
    ensures oldest in ids && forall id :: id in ids ==> rows[oldest].createdAt <= rows[id].createdAt
    decreases |ids|
  {
    oldest :| oldest in ids;
    var others := ids - {oldest};
    if others != {} {
      var next := SomeOldest(rows, others);
      if rows[next].createdAt < rows[oldest].createdAt { oldest := next; }
    }
  }

  /** The rows that hold a lock when the list is read, oldest first. */
  method ListActiveServerOperations(store: JournalStore) returns (ids: seq<string>)
    ensures forall id :: id in ids <==> id in store.rows && store.rows[id].activeServer.Some?
    ensures forall i, j :: 0 <= i < j < |ids| ==> ids[i] != ids[j]
    ensures forall i, j :: 0 <= i < j < |ids| ==> store.rows[ids[i]].createdAt <= store.rows[ids[j]].createdAt
  {
    var left := set id | id in store.rows && store.rows[id].activeServer.Some?;
    ids := [];
    while left != {}
      invariant forall id :: id in ids || id in left <==> id in store.rows && store.rows[id].activeServer.Some?
      invariant forall id :: id in ids ==> id !in left
      invariant forall i, j :: 0 <= i < j < |ids| ==> ids[i] != ids[j]
      invariant forall i, j :: 0 <= i < j < |ids| ==> store.rows[ids[i]].createdAt <= store.rows[ids[j]].createdAt
      invariant forall i, id :: 0 <= i < |ids| && id in left ==>
        store.rows[ids[i]].createdAt <= store.rows[id].createdAt
    {
      ghost var oldest := SomeOldest(store.rows, left);
      var id :| id in left && forall other :: other in left ==> store.rows[id].createdAt <= store.rows[other].createdAt;
      assert id !in ids;
      ids := ids + [id];
      left := left - {id};
    }
  }

  datatype Summary = Summary(scanned: nat, recovered: nat, review: seq<string>)

  /** Why recovery could not confirm the release of a row. */
  ghost predicate Unconfirmed(before: Table, id: string, observe: Observer, fault: Fault) {
    id in before && (fault.Reported() || observe(before[id].serverId, before[id].containerId).None?)
  }

  /** Where recovery left one operation: listed for review exactly when its release could not
      be confirmed, with its row untouched unless a lost reply hides an applied write. */
  ghost predicate Settled(
    before: Table, after: Table, review: seq<string>, id: string, observe: Observer, fault: Fault)
  {
    id in before && id in after &&
    if Unconfirmed(before, id, observe, fault)
    then id in review && (!fault.LostReply? ==> after[id] == before[id])
    else id !in review && Released(after, id) && after[id].phase == Recovered
  }

  ghost predicate AllSettled(
    before: Table, after: Table, review: seq<string>, ids: seq<string>, observe: Observer, faults: string -> Fault)
  {
    forall id :: id in ids ==> Settled(before, after, review, id, observe, faults(id))
  }

  /** One more operation settled leaves the others as they were. */
  lemma OneMoreSettled(before: Table, mid: Table, after: Table, listed: seq<string>, review: seq<string>,
                       ids: seq<string>, id: string, observe: Observer, faults: string -> Fault)
    requires AllSettled(before, mid, listed, ids, observe, faults) && id !in ids && id !in listed
    requires forall other :: other in ids ==> other in after && after[other] == mid[other]
    requires review == listed || review == listed + [id]
    requires Settled(before, after, review, id, observe, faults(id))
    ensures AllSettled(before, after, review, ids + [id], observe, faults)
  {
    forall other | other in ids
      ensures Settled(before, after, review, other, observe, faults(other))
    {
      assert Settled(before, mid, listed, other, observe, faults(other)) && other != id;
    }
  }

  /** Startup recovery: unless the list cannot be read, every operation that held a lock is either
      recovered or listed. */
  method RecoverInterrupted(
    store: JournalStore, observe: Observer, listFault: Fault, faults: string -> Fault, now: int)
    returns (result: Option<Summary>)
    requires Sound(store.rows)
    modifies store
    ensures result.None? <==> listFault.Reported()
    ensures result.None? ==> store.rows == old(store.rows)
    ensures Sound(store.rows) && store.rows.Keys == old(store.rows).Keys
    ensures result.Some? ==> result.value.scanned == result.value.recovered + |result.value.review|
    ensures forall id :: id in old(store.rows) ==> KeptOrRecovered(old(store.rows)[id], store.rows[id])
    ensures result.Some? ==> forall id :: id in old(store.rows) && old(store.rows)[id].activeServer.Some? ==>
      Settled(old(store.rows), store.rows, result.value.review, id, observe, faults(id))
  {
    if listFault.Reported() { return None; }
    var ids := ListActiveServerOperations(store);
    ghost var before := store.rows;
    var recovered := 0;
    var review: seq<string> := [];
    for k := 0 to |ids|
      invariant Sound(store.rows) && OnlyRecovers(before, store.rows, ids[..k])
      invariant recovered + |review| == k && forall id :: id in review ==> id in ids[..k]
      invariant AllSettled(before, store.rows, review, ids[..k], observe, faults)
    {
      var id := ids[k];
      ghost var mid, listed := store.rows, review;
      assert ids[..k + 1] == ids[..k] + [id] && id !in ids[..k];
      var ok := ObserveAndRelease(store, id, observe, AT_STARTUP, faults(id), now);
      if ok {
        recovered := recovered + 1;
      } else {
        review := review + [id];
      }
      RecoversStep(before, mid, store.rows, ids[..k], id);
      OneMoreSettled(before, mid, store.rows, listed, review, ids[..k], id, observe, faults);
    }
    assert ids[..|ids|] == ids;
    result := Some(Summary(|ids|, recovered, review));
  }

  /** Why an id stays on the review list when the context does not end. */
  ghost predicate MustWait(before: Table, id: string, observe: Observer, read: Fault, write: Fault) {
    read.Reported() || id !in before || Unconfirmed(before, id, observe, write)
  }

  /** Nothing keeps any of these operations waiting. */
  ghost predicate AllReachable(
    rows: Table, ids: seq<string>, observe: Observer, readFaults: string -> Fault, writeFaults: string -> Fault)
  {
    forall id :: id in ids ==> !MustWait(rows, id, observe, readFaults(id), writeFaults(id))
  }

  /** In none of the first passes could every operation be reached. */
  ghost predicate NeverReachable(rows: Table, ids: seq<string>, observe: nat -> Observer,
                                 readFaults: nat -> string -> Fault, writeFaults: nat -> string -> Fault, passes: nat) {
    forall k :: 0 <= k < passes ==> !AllReachable(rows, ids, observe(k), readFaults(k), writeFaults(k))
  }

  /** Each of these operations has a reason to wait. */
  ghost predicate AllWait(
    rows: Table, ids: seq<string>, observe: Observer, readFaults: string -> Fault, writeFaults: string -> Fault)
  {
    forall id :: id in ids ==> MustWait(rows, id, observe, readFaults(id), writeFaults(id))
  }

  /** Whatever is no longer pending has been released, and nothing else was touched. */
  ghost predicate Reviewed(before: Table, after: Table, ids: seq<string>, pending: seq<string>) {
    && Sound(after) && OnlyRecovers(before, after, ids)
    && (forall id :: id in pending ==> id in ids)
    && (forall id :: id in ids && id !in pending ==> Released(after, id))
  }

  /** One operation of a pass: it stays only for a reason, and otherwise its lock is released. */
  method RetryOne(store: JournalStore, id: string, observe: Observer, read: Fault, write: Fault, now: int)
    returns (stays: bool)
    requires Sound(store.rows)
    modifies store
    ensures Sound(store.rows) && OnlyRecovers(old(store.rows), store.rows, [id])
    ensures if stays then MustWait(old(store.rows), id, observe, read, write) else Released(store.rows, id)
  {
    var found := store.GetServerOperation(id, read);
    if found.None? {
      return true;
    }
    if found.value.activeServer.None? {
      return false;
    }
    var ok := ObserveAndRelease(store, id, observe, LATER, write, now);
    return !ok;
  }

  lemma OneMoreReviewed(
    before: Table, mid: Table, after: Table, ids: seq<string>, still: seq<string>, id: string, stays: bool)
    requires Reviewed(before, mid, ids, still) && Sound(after) && OnlyRecovers(mid, after, [id])
    requires !stays ==> Released(after, id)
    ensures Reviewed(before, after, ids + [id], if stays then still + [id] else still)
  {
    RecoversStep(before, mid, after, ids, id);
    forall other | other in ids && other !in still
      ensures Released(after, other)
    {
      assert Released(mid, other);
    }
  }

  /** One pass of the review. An id leaves the list only if its lock is released, and stays on
      it only for a reason. `cancelAt` is the position at which the context ends. */
  method RetryOnce(store: JournalStore, observe: Observer, ids: seq<string>, cancelAt: nat,
                   readFaults: string -> Fault, writeFaults: string -> Fault, now: int)
    returns (still: seq<string>)
    requires Sound(store.rows)
    modifies store
    ensures |still| <= |ids| && Reviewed(old(store.rows), store.rows, ids, still)
    ensures cancelAt >= |ids| ==> AllWait(old(store.rows), still, observe, readFaults, writeFaults)
  {
    still := [];
    ghost var before := store.rows;
    for k := 0 to |ids|
      invariant Reviewed(before, store.rows, ids[..k], still) && |still| <= k
      invariant cancelAt >= |ids| ==> AllWait(before, still, observe, readFaults, writeFaults)
    {
      var id, stays := ids[k], true;
      ghost var mid := store.rows;
      assert ids[..k + 1] == ids[..k] + [id];
      if k < cancelAt {
        stays := RetryOne(store, id, observe, readFaults(id), writeFaults(id), now);
        ReasonsStay(before, mid, ids[..k], id, observe, readFaults(id), writeFaults(id));
      }
      OneMoreReviewed(before, mid, store.rows, ids[..k], still, id, stays);
      still := if stays then still + [id] else still;
    }
    assert ids[..|ids|] == ids;
  }

  lemma OnePassMore(
    before: Table, mid: Table, after: Table, ids: seq<string>, passed: seq<string>, pending: seq<string>)
    requires Reviewed(before, mid, ids, passed) && Reviewed(mid, after, passed, pending)
    ensures Reviewed(before, after, ids, pending)
  {
    OnlyRecoversTwice(before, mid, after, ids, passed);
  }

  lemma AllStillWait(
    before: Table, mid: Table, ids: seq<string>, pending: seq<string>,
    observe: Observer, readFaults: string -> Fault, writeFaults: string -> Fault)
    requires OnlyRecovers(before, mid, ids) && (forall id :: id in pending ==> id in ids)
    requires AllWait(mid, pending, observe, readFaults, writeFaults)
    ensures AllWait(before, pending, observe, readFaults, writeFaults)
    ensures AllReachable(before, ids, observe, readFaults, writeFaults) ==> pending == []
  {
    forall id | id in pending
      ensures MustWait(before, id, observe, readFaults(id), writeFaults(id))
    {
      ReasonsStay(before, mid, ids, id, observe, readFaults(id), writeFaults(id));
    }
    if pending != [] { assert pending[0] in pending; }
  }

  /** Recovery changes nothing that a reason to wait depends on. */
  lemma ReasonsStay(
    before: Table, after: Table, ids: seq<string>, id: string, observe: Observer, read: Fault, write: Fault)
    requires OnlyRecovers(before, after, ids)
    ensures MustWait(before, id, observe, read, write) <==> MustWait(after, id, observe, read, write)
  {
    assert id in before ==> KeptOrRecovered(before[id], after[id]);
  }

  /** The review loop, over the whole passes that fit before the context ends and perhaps one more in
      which it ends at position `cut`; what can be observed may change from pass to pass. Whatever is no
      longer pending has been released and nothing else was touched; what is still pending had a reason
      in the last whole pass; and one whole pass in which every operation can be reached empties the
      list. */
  method RetryReview(store: JournalStore, observe: nat -> Observer, ids: seq<string>, ticks: nat, cut: Option<nat>,
                     readFaults: nat -> string -> Fault, writeFaults: nat -> string -> Fault, now: int)
    returns (pending: seq<string>)
    requires Sound(store.rows)
    modifies store
    ensures Reviewed(old(store.rows), store.rows, ids, pending)
    ensures ticks > 0 ==>
      AllWait(old(store.rows), pending, observe(ticks - 1), readFaults(ticks - 1), writeFaults(ticks - 1))
    ensures pending != [] ==> NeverReachable(old(store.rows), ids, observe, readFaults, writeFaults, ticks)
  {
    pending := ids;
    ghost var before := store.rows;
    var tick := 0;
    while pending != [] && tick < ticks
      invariant tick <= ticks && Reviewed(before, store.rows, ids, pending)
      invariant WaitingAt(before, ids, pending, observe, readFaults, writeFaults, tick)
      decreases ticks - tick
    {
      ghost var mid := store.rows;
      var passed := pending;
      pending := RetryOnce(store, observe(tick), passed, |passed|, readFaults(tick), writeFaults(tick), now);
      OnePassMore(before, mid, store.rows, ids, passed, pending);
      StillWaiting(before, mid, ids, passed, pending, observe, readFaults, writeFaults, tick);
      tick := tick + 1;
    }
    if pending != [] && cut.Some? {
      ghost var mid, passed := store.rows, pending;
      pending := RetryOnce(store, observe(tick), pending, cut.value, readFaults(tick), writeFaults(tick), now);
      OnePassMore(before, mid, store.rows, ids, passed, pending);
    }
  }

  /** What is pending after some passes had a reason to wait in the last of them, and in none of them
      could every operation be reached. */
  ghost predicate WaitingAt(before: Table, ids: seq<string>, pending: seq<string>, observe: nat -> Observer,
                            readFaults: nat -> string -> Fault, writeFaults: nat -> string -> Fault, tick: nat) {
    && (tick > 0 ==> AllWait(before, pending, observe(tick - 1), readFaults(tick - 1), writeFaults(tick - 1)))
    && (pending != [] ==> NeverReachable(before, ids, observe, readFaults, writeFaults, tick))
  }

  lemma StillWaiting(before: Table, mid: Table, ids: seq<string>, passed: seq<string>, pending: seq<string>,
                     observe: nat -> Observer, readFaults: nat -> string -> Fault,
                     writeFaults: nat -> string -> Fault, tick: nat)
    requires WaitingAt(before, ids, passed, observe, readFaults, writeFaults, tick) && passed != []
    requires OnlyRecovers(before, mid, ids) && forall id :: id in pending ==> id in ids
    requires AllWait(mid, pending, observe(tick), readFaults(tick), writeFaults(tick))
    ensures WaitingAt(before, ids, pending, observe, readFaults, writeFaults, tick + 1)
  {
    AllStillWait(before, mid, ids, pending, observe(tick), readFaults(tick), writeFaults(tick));
  }

  lemma OnlyRecoversTwice(before: Table, mid: Table, after: Table, ids: seq<string>, some: seq<string>)
    requires OnlyRecovers(before, mid, ids) && OnlyRecovers(mid, after, some) && forall id :: id in some ==> id in ids
    ensures OnlyRecovers(before, after, ids)
    ensures forall id :: Released(mid, id) ==> Released(after, id)
  {
    forall id | id in before
      ensures KeptOrRecovered(before[id], after[id]) && (id !in ids ==> after[id] == before[id])
    {
      assert KeptOrRecovered(before[id], mid[id]) && KeptOrRecovered(mid[id], after[id]);
    }
    forall id | Released(mid, id)
      ensures Released(after, id)
    {
      assert id in before && KeptOrRecovered(mid[id], after[id]);
    }
  }
}
