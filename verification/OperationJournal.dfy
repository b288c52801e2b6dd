/** The lifecycle operation journal: the table of server operations, its two unique
    indexes and the transactions on it (internal/db/server_operation.go). Strings stand for Go's byte
    strings, one char for each byte. */
module OperationJournal {
  import opened Wrappers

  datatype Phase = Prepared | Executing | Complete | Failed | Recovered {
    predicate Terminal() { Complete? || Failed? || Recovered? }
  }

  /** One journal row, without its id, which is the key of the table. */
  datatype Op = Op(
    serverId: string, requestKey: string, nodeId: string, containerId: string,
    kind: string, payloadHash: string, phase: Phase, lastError: string,
    activeServer: Option<string>, createdAt: int, updatedAt: int)

  type Table = map<string, Op>

  datatype Intent = Intent(
    serverId: string, nodeId: string, containerId: string,
    key: string, kind: string, digest: string)

  datatype BeginError = MissingField | KeyConflict | ServerLocked | StoreFailed

  datatype BeginResult =
    | Created(id: string)
    | Reused(id: string, op: Op)
    | Refused(error: BeginError)

  ghost predicate IsRequest(t: Table, id: string, serverId: string, key: string) {
    id in t && t[id].serverId == serverId && t[id].requestKey == key
  }

  ghost predicate Holds(t: Table, id: string, serverId: string) {
    id in t && t[id].activeServer == Some(serverId)
  }

  ghost predicate Locked(t: Table, serverId: string) {
    exists id :: Holds(t, id, serverId)
  }

  /** The unique index over server and request key. */
  ghost predicate UniqueRequests(t: Table) {
    forall i, j :: i in t && j in t && t[i].serverId == t[j].serverId && t[i].requestKey == t[j].requestKey ==> i == j
  }

  /** The unique index over the active server; released rows do not take part in it. */
  ghost predicate UniqueLocks(t: Table) {
    forall i, j :: i in t && j in t && t[i].activeServer.Some? && t[i].activeServer == t[j].activeServer ==> i == j
  }

  /** A row holds its server's lock exactly while its outcome is open. */
  ghost predicate LockMatchesPhase(t: Table) {
    forall id :: id in t ==> t[id].activeServer == if t[id].phase.Terminal() then None else Some(t[id].serverId)
  }

  ghost predicate Sound(t: Table) {
    UniqueRequests(t) && UniqueLocks(t) && LockMatchesPhase(t)
  }

  predicate SameIdentity(op: Op, intent: Intent) {
    op.payloadHash == intent.digest && op.kind == intent.kind
    && op.nodeId == intent.nodeId && op.containerId == intent.containerId
  }

  function FreshRow(intent: Intent, now: int): Op {
    Op(intent.serverId, intent.key, intent.nodeId, intent.containerId, intent.kind,
       intent.digest, Prepared, "", Some(intent.serverId), now, now)
  }

  /** The verdict of a begin transaction that meets no store failure. */
  ghost function BeginVerdict(t: Table, intent: Intent, freshId: string): BeginResult {
    if intent.serverId == "" || intent.key == "" || intent.digest == "" then Refused(MissingField)
    else if exists id :: IsRequest(t, id, intent.serverId, intent.key) then
      var id :| IsRequest(t, id, intent.serverId, intent.key);
      if SameIdentity(t[id], intent) then Reused(id, t[id]) else Refused(KeyConflict)
    else if Locked(t, intent.serverId) then Refused(ServerLocked)
    else Created(freshId)
  }

  /** The table after a begin transaction: only a created row changes it. */
  ghost function AfterBegin(t: Table, intent: Intent, freshId: string, now: int): Table {
    if BeginVerdict(t, intent, freshId).Created? then t[freshId := FreshRow(intent, now)] else t
  }

  predicate CanAdvance(t: Table, id: string, from: Phase) {
    id in t && t[id].phase == from && t[id].activeServer.Some?
  }

  function Moved(op: Op, to: Phase, detail: string, now: int): Op {
    op.(phase := to, lastError := detail, updatedAt := now,
        activeServer := if to.Terminal() then None else op.activeServer)
  }

  /** The compare-and-set on phase; a row that moved on or was released is left alone. */
  function AfterAdvance(t: Table, id: string, from: Phase, to: Phase, detail: string, now: int): Table {
    if CanAdvance(t, id, from) then t[id := Moved(t[id], to, detail, now)] else t
  }

  /** The detail recorded for an operator release: a default for a blank note, at most 500 bytes. */
  function ReleaseNote(note: string): (text: string)
    ensures 0 < |text| <= 500 && (text <= note || note == "")
    ensures 0 < |note| <= 500 ==> text == note
    ensures |note| > 500 ==> text == note[..500]
  {
    if note == "" then "operator released the lifecycle lock without changing containers"
    else if |note| > 500 then note[..500] else note
  }

  function AfterPrune(t: Table, olderThan: int): Table {
    map id | id in t && !(t[id].activeServer.None? && t[id].updatedAt < olderThan) :: t[id]
  }

  lemma BeginKeepsSound(t: Table, intent: Intent, freshId: string, now: int)
    requires Sound(t) && freshId !in t
    ensures Sound(AfterBegin(t, intent, freshId, now))
  {
    var t' := AfterBegin(t, intent, freshId, now);
    if BeginVerdict(t, intent, freshId).Created? {
      forall i | i in t
        ensures !(t[i].serverId == intent.serverId && t[i].requestKey == intent.key)
        ensures t[i].activeServer != Some(intent.serverId)
      {
        assert !IsRequest(t, i, intent.serverId, intent.key);
        assert !Holds(t, i, intent.serverId);
      }
      assert forall i :: i in t' ==> i == freshId || (i in t && t'[i] == t[i]);
    }
  }

  lemma SameKeysKeepRequests(t: Table, t': Table)
    requires UniqueRequests(t) && UniqueLocks(t) && t'.Keys <= t.Keys
    requires forall i :: i in t' ==> t'[i].serverId == t[i].serverId && t'[i].requestKey == t[i].requestKey
    requires forall i :: i in t' ==> t'[i].activeServer.Some? ==> t'[i].activeServer == t[i].activeServer
    ensures UniqueRequests(t') && UniqueLocks(t')
  {
  }

  lemma AdvanceKeepsSound(t: Table, id: string, from: Phase, to: Phase, detail: string, now: int)
    requires Sound(t)
    ensures Sound(AfterAdvance(t, id, from, to, detail, now))
  {
    if CanAdvance(t, id, from) {
      var t' := AfterAdvance(t, id, from, to, detail, now);
      forall i | i in t'
        ensures i in t && t'[i].serverId == t[i].serverId && t'[i].requestKey == t[i].requestKey
        ensures t'[i].activeServer.Some? ==> t'[i].activeServer == t[i].activeServer
      {
      }
      SameKeysKeepRequests(t, t');
    }
  }

  /** A begin that finds the request answers from its row and nothing else. */
  lemma BeginFindsTheRequest(t: Table, id: string, intent: Intent, freshId: string)
    requires Sound(t) && IsRequest(t, id, intent.serverId, intent.key)
    requires intent.serverId != "" && intent.key != "" && intent.digest != ""
    ensures BeginVerdict(t, intent, freshId)
         == if SameIdentity(t[id], intent) then Reused(id, t[id]) else Refused(KeyConflict)
  {
  }

  /** The journal as the store keeps it. Every method states its effect on the whole table. */
  class JournalStore {
    var rows: Table

    constructor ()
      ensures rows == map[] && Sound(rows)
    {
      rows := map[];
    }

    method BeginServerOperation(intent: Intent, freshId: string, now: int, fault: Fault) returns (r: BeginResult)
      requires Sound(rows) && freshId !in rows
      modifies this
      ensures Sound(rows)
      ensures rows == if fault.Effective() then AfterBegin(old(rows), intent, freshId, now) else old(rows)
      ensures (intent.serverId == "" || intent.key == "" || intent.digest == "") ==> r == Refused(MissingField)
      ensures !(intent.serverId == "" || intent.key == "" || intent.digest == "") ==>
        r == if fault.Reported() then Refused(StoreFailed) else BeginVerdict(old(rows), intent, freshId)
      ensures r.Created? ==>
        r.id == freshId && intent.serverId != "" && intent.key != ""
        && (forall id :: id in old(rows) ==> old(rows)[id].activeServer != Some(intent.serverId))
        && (forall id :: id in old(rows) && old(rows)[id].serverId == intent.serverId ==>
              old(rows)[id].requestKey != intent.key)
        && rows == old(rows)[freshId := Op(intent.serverId, intent.key, intent.nodeId, intent.containerId, intent.kind,
                                           intent.digest, Prepared, "", Some(intent.serverId), now, now)]
      ensures r.Reused? ==>
        rows == old(rows) && r.id in rows && r.op == rows[r.id]
        && r.op.serverId == intent.serverId && r.op.requestKey == intent.key && r.op.kind == intent.kind
        && r.op.nodeId == intent.nodeId && r.op.containerId == intent.containerId && r.op.payloadHash == intent.digest
    {
      BeginKeepsSound(rows, intent, freshId, now);
      if intent.serverId == "" || intent.key == "" || intent.digest == "" {
        return Refused(MissingField);
      }
      if fault.Rejected? {
        return Refused(StoreFailed);
      }
      if id :| id in rows && rows[id].serverId == intent.serverId && rows[id].requestKey == intent.key {
        assert IsRequest(rows, id, intent.serverId, intent.key);
        BeginFindsTheRequest(rows, id, intent, freshId);
        r := if SameIdentity(rows[id], intent) then Reused(id, rows[id]) else Refused(KeyConflict);
      } else {
        assert forall i :: !IsRequest(rows, i, intent.serverId, intent.key);
        if id :| id in rows && rows[id].activeServer == Some(intent.serverId) {
          assert Holds(rows, id, intent.serverId);
          r := Refused(ServerLocked);
        } else {
          assert forall i :: !Holds(rows, i, intent.serverId);
          rows := rows[freshId := FreshRow(intent, now)];
          r := Created(freshId);
        }
      }
      if fault.Reported() {
        r := Refused(StoreFailed);
      }
    }

    method AdvanceServerOperation(id: string, from: Phase, to: Phase, detail: string, now: int, fault: Fault)
      returns (ok: bool)
      requires Sound(rows)
      modifies this
      ensures Sound(rows)
      ensures rows == if fault.Effective() then AfterAdvance(old(rows), id, from, to, detail, now) else old(rows)
      ensures ok == (!fault.Reported() && CanAdvance(old(rows), id, from))
      ensures ok ==> old(rows)[id].phase == from && old(rows)[id].activeServer.Some?
      ensures ok ==> rows == old(rows)[id := old(rows)[id].(
        phase := to, lastError := detail, updatedAt := now,
        activeServer := if to in {Complete, Failed, Recovered} then None else old(rows)[id].activeServer)]
    {
      AdvanceKeepsSound(rows, id, from, to, detail, now);
      if fault.Rejected? {
        return false;
      }
      ok := false;
      if id in rows && rows[id].phase == from && rows[id].activeServer.Some? {
        rows := rows[id := Moved(rows[id], to, detail, now)];
        ok := true;
      }
      if fault.Reported() {
        ok := false;
      }
    }

    method GetServerOperation(id: string, fault: Fault) returns (r: Option<Op>)
      ensures r == if !fault.Reported() && id in rows then Some(rows[id]) else None
    {
      r := if fault.Reported() || id !in rows then None else Some(rows[id]);
    }

    /** The lock check of callers that do not write a journal row of their own. */
    method AssertNoServerOperation(serverId: string, fault: Fault) returns (free: bool)
      ensures free <==> !fault.Reported() && !Locked(rows, serverId)
    {
      if fault.Reported() { return false; }
      if id :| id in rows && rows[id].activeServer == Some(serverId) {
        assert Holds(rows, id, serverId);
        return false;
      }
      return true;
    }

    /** Releases a lock by operator request; an operation already released is left as it is. */
    method ResolveServerOperation(id: string, note: string, now: int, readFault: Fault, writeFault: Fault)
      returns (ok: bool)
      requires Sound(rows)
      modifies this
      ensures Sound(rows)
      ensures rows.Keys == old(rows).Keys
      ensures forall i :: i in old(rows) && i != id ==> rows[i] == old(rows)[i]
      ensures ok ==> id != "" && id in rows && rows[id].activeServer.None?
      ensures ok && old(rows)[id].activeServer.Some? ==>
        rows[id].phase == Recovered && rows[id].lastError == ReleaseNote(note)
      ensures id in old(rows) && old(rows)[id].activeServer.None? ==> rows == old(rows)
      ensures id != "" && id in old(rows) && !readFault.Reported() && !writeFault.Reported() ==> ok
    {
      if id == "" {
        return false;
      }
      var found := GetServerOperation(id, readFault);
      if found.None? {
        return false;
      }
      if found.value.activeServer.None? {
        return true;
      }
      ok := AdvanceServerOperation(id, found.value.phase, Recovered, ReleaseNote(note), now, writeFault);
    }

    /** Deletes finished rows; a row that holds a lock stays whatever its age. */
    method PruneServerOperations(olderThan: int) returns (count: nat)
      requires Sound(rows)
      modifies this
      ensures Sound(rows)
      ensures rows == AfterPrune(old(rows), olderThan)
      ensures forall id :: id in rows <==>
        id in old(rows) && (old(rows)[id].activeServer.Some? || old(rows)[id].updatedAt >= olderThan)
      ensures forall id :: id in rows ==> rows[id] == old(rows)[id]
      ensures count == |old(rows)| - |rows|
    {
      var keep := AfterPrune(rows, olderThan);
      assert keep.Keys <= rows.Keys;
      assert |keep.Keys| + |rows.Keys - keep.Keys| == |rows.Keys|;
      count := |rows.Keys - keep.Keys|;
      rows := keep;
    }
  }
}
