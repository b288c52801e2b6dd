/** What other callers can do to the guarantees of staging, and exactly when
    (internal/db/staged_config.go:177-558). Other callers are runs of the store's own statements. */
module StagingRaces {
  import opened Wrappers
  import opened StagedConfig
  import opened StagingStore

  // ---------------------------------------------------------------- statements of other callers

  /** One statement or transaction of another caller. Save and Discard write back a whole row as that
      caller once read it; Configure is any other write of a live config. */
  datatype Op =
    | Close(id: string, status: BatchStatus)
    | Create(server: string, window: string, id: string)
    | Save(id: string, batch: Batch)
    | Retarget(id: string, timing: Timing)
    | Add(id: string, row: Change)
    | Discard(id: string, row: Change)
    | Apply(id: string, stamp: Json)
    | RollBack(id: string, stamp: Json)
    | Configure(server: string, config: Config)

  predicate Closes(op: Op, id: string) {
    op.Close? && op.id == id && op.status != Open
  }

  /** A batch row as it was read while it was open, written back where the unique key allows it. */
  predicate SaveTakes(batches: map<string, Batch>, id: string, batch: Batch) {
    && id in batches && batch.serverId == batches[id].serverId
    && batch.status == Open && batch.openKey == Some(batch.serverId) && KeyFree(batches, id, batch)
  }

  ghost function Created(batches: map<string, Batch>, server: string, window: string, id: string): map<string, Batch> {
    if id !in batches && OpenBatch(batches, server).None? then batches[id := NewBatch(server, window)] else batches
  }

  ghost function Step(env: Env, s: State, op: Op): State {
    match op
    case Close(id, status) => s.(batches := Closed(s.batches, id, status))
    case Create(server, window, id) => s.(batches := Created(s.batches, server, window, id))
    case Save(id, batch) => if SaveTakes(s.batches, id, batch) then s.(batches := s.batches[id := batch]) else s
    case Retarget(id, timing) => s.(changes := Retargeted(s.changes, id, timing))
    case Add(id, row) => if id !in s.changes then s.(changes := s.changes[id := row]) else s
    case Discard(id, row) =>
      if id in s.changes then s.(changes := s.changes[id := row.(status := Discarded)]) else s
    case Apply(id, stamp) => (match ApplyChange(env, s, id, stamp) case Ok(t) => t case Err(_) => s)
    case RollBack(id, stamp) => (match RollBackChange(env, s, id, stamp) case Ok(t) => t case Err(_) => s)
    case Configure(server, config) => s.(configs := s.configs[server := config])
  }

  ghost function Run(env: Env, s: State, ops: seq<Op>): State {
    if ops == [] then s else Step(env, Run(env, s, ops[..|ops| - 1]), ops[|ops| - 1])
  }

  lemma {:induction false} RunAppends(env: Env, s: State, a: seq<Op>, b: seq<Op>)
    ensures Run(env, s, a + b) == Run(env, Run(env, s, a), b)
    decreases |b|
  {
    if b == [] {
      assert a + b == a;
    } else {
      var n := |b| - 1;
      assert (a + b)[..|a + b| - 1] == a + b[..n] && (a + b)[|a + b| - 1] == b[n];
      RunAppends(env, s, a, b[..n]);
    }
  }

  /** The other callers run these statements before each statement of the call. */
  ghost function Playing(env: Env, turns: nat -> seq<Op>, faults: nat -> Fault): Outside {
    Outside((k: nat, s: State) => Run(env, s, turns(k)), faults)
  }

  /** They never make up the ids that the call makes. */
  ghost predicate NeverMake(turns: nat -> seq<Op>, rowId: string, batchId: string) {
    forall k: nat :: NeverMakes(turns(k), rowId, batchId)
  }

  ghost predicate NeverMakes(ops: seq<Op>, rowId: string, batchId: string) {
    forall op :: op in ops ==> !(op.Create? && op.id == batchId) && !(op.Add? && op.id == rowId)
  }

  lemma OpeningKeepsSound(batches: map<string, Batch>, server: string, window: string, newId: string)
    requires BatchesSound(batches) && OpenBatch(batches, server).None? && newId !in batches
    ensures BatchesSound(batches[newId := NewBatch(server, window)])
  {
    forall id | id in batches ensures batches[id].openKey != Some(server) {
      assert !IsOpenBatch(batches, server, id);
    }
  }

  lemma SavingKeepsSound(batches: map<string, Batch>, id: string, batch: Batch)
    requires BatchesSound(batches) && batch.status == Open && batch.openKey == Some(batch.serverId)
    requires KeyFree(batches, id, batch)
    ensures BatchesSound(AfterSave(batches, id, batch))
    ensures IsOpenBatch(AfterSave(batches, id, batch), batch.serverId, id)
  {
  }

  lemma StepKeepsBatchesSound(env: Env, s: State, op: Op)
    requires BatchesSound(s.batches)
    ensures BatchesSound(Step(env, s, op).batches) && s.batches.Keys <= Step(env, s, op).batches.Keys
    ensures forall id :: id in s.batches ==> Step(env, s, op).batches[id].serverId == s.batches[id].serverId
  {
    if op.Create? && op.id !in s.batches && OpenBatch(s.batches, op.server).None? {
      OpeningKeepsSound(s.batches, op.server, op.window, op.id);
    } else if op.Save? && SaveTakes(s.batches, op.id, op.batch) {
      SavingKeepsSound(s.batches, op.id, op.batch);
    }
  }

  lemma {:induction false} RunKeepsBatchesSound(env: Env, s: State, ops: seq<Op>)
    requires BatchesSound(s.batches)
    ensures BatchesSound(Run(env, s, ops).batches) && s.batches.Keys <= Run(env, s, ops).batches.Keys
    ensures forall id :: id in s.batches ==> Run(env, s, ops).batches[id].serverId == s.batches[id].serverId
  {
    if ops != [] {
      RunKeepsBatchesSound(env, s, ops[..|ops| - 1]);
      StepKeepsBatchesSound(env, Run(env, s, ops[..|ops| - 1]), ops[|ops| - 1]);
    }
  }

  lemma StepMakesNone(env: Env, s: State, op: Op, rowId: string, batchId: string)
    requires !(op.Create? && op.id == batchId) && !(op.Add? && op.id == rowId)
    ensures rowId !in s.changes ==> rowId !in Step(env, s, op).changes
    ensures batchId !in s.batches ==> batchId !in Step(env, s, op).batches
  {
  }

  lemma {:induction false} RunMakesNone(env: Env, s: State, ops: seq<Op>, rowId: string, batchId: string)
    requires NeverMakes(ops, rowId, batchId)
    ensures rowId !in s.changes ==> rowId !in Run(env, s, ops).changes
    ensures batchId !in s.batches ==> batchId !in Run(env, s, ops).batches
  {
    if ops != [] {
      var n := |ops| - 1;
      assert ops[n] in ops && forall op :: op in ops[..n] ==> op in ops;
      RunMakesNone(env, s, ops[..n], rowId, batchId);
      StepMakesNone(env, Run(env, s, ops[..n]), ops[n], rowId, batchId);
    }
  }

  /** Such callers are among those that every staging method allows for. */
  lemma PlayingIsSound(env: Env, turns: nat -> seq<Op>, faults: nat -> Fault, rowId: string, batchId: string)
    requires NeverMake(turns, rowId, batchId)
    ensures OutsideSound(Playing(env, turns, faults), rowId, batchId)
  {
    forall k: nat, s: State
      ensures BatchesSound(s.batches) ==> BatchesSound(Run(env, s, turns(k)).batches)
      ensures rowId !in s.changes ==> rowId !in Run(env, s, turns(k)).changes
      ensures batchId !in s.batches ==> batchId !in Run(env, s, turns(k)).batches
    {
      if BatchesSound(s.batches) { RunKeepsBatchesSound(env, s, turns(k)); }
      RunMakesNone(env, s, turns(k), rowId, batchId);
    }
  }

  // ---------------------------------------------------------------- an open batch among other callers

  /** Statement number `j` writes an earlier reading of this batch back, and is not refused. */
  ghost predicate SavedAt(env: Env, s: State, ops: seq<Op>, j: nat, id: string)
    requires j < |ops|
  {
    ops[j].Save? && ops[j].id == id && SaveTakes(Run(env, s, ops[..j]).batches, id, ops[j].batch)
  }

  ghost predicate Undone(env: Env, s: State, ops: seq<Op>, k: nat, id: string) {
    exists j :: k < j < |ops| && SavedAt(env, s, ops, j, id)
  }

  /** Every close of this batch is followed by a save that opens it again. */
  ghost predicate EveryCloseUndone(env: Env, s: State, ops: seq<Op>, id: string) {
    forall k :: 0 <= k < |ops| && Closes(ops[k], id) ==> Undone(env, s, ops, k, id)
  }

  lemma StepOnBatch(env: Env, s: State, op: Op, id: string)
    requires id in s.batches
    ensures id in Step(env, s, op).batches
    ensures Step(env, s, op).batches[id].status == Open <==>
      !Closes(op, id)
      && (s.batches[id].status == Open || (op.Save? && op.id == id && SaveTakes(s.batches, id, op.batch)))
  {
  }

  lemma OneMoreStatement(env: Env, s: State, ops: seq<Op>, id: string)
    requires ops != []
    ensures EveryCloseUndone(env, s, ops, id) <==>
      !Closes(ops[|ops| - 1], id)
      && (EveryCloseUndone(env, s, ops[..|ops| - 1], id) || SavedAt(env, s, ops, |ops| - 1, id))
  {
    var n := |ops| - 1;
    var front := ops[..n];
    forall j: nat | j < n
      ensures SavedAt(env, s, ops, j, id) <==> SavedAt(env, s, front, j, id)
    {
      assert ops[..j] == front[..j];
    }
    if Closes(ops[n], id) {
      assert !Undone(env, s, ops, n, id);
    } else if SavedAt(env, s, ops, n, id) {
      forall k | 0 <= k < |ops| && Closes(ops[k], id) ensures Undone(env, s, ops, k, id) {}
    } else {
      forall k: nat | k < n
        ensures Undone(env, s, ops, k, id) <==> Undone(env, s, front, k, id)
      {
      }
    }
  }

  /** A batch that is open is still open after any statements of other callers exactly when every close
      of it among them is followed by a save that opens it again. */
  lemma {:induction false} StaysOpenExactlyWhen(env: Env, s: State, ops: seq<Op>, id: string)
    requires id in s.batches && s.batches[id].status == Open
    ensures id in Run(env, s, ops).batches
    ensures Run(env, s, ops).batches[id].status == Open <==> EveryCloseUndone(env, s, ops, id)
  {
    if ops != [] {
      var n := |ops| - 1;
      StaysOpenExactlyWhen(env, s, ops[..n], id);
      StepOnBatch(env, Run(env, s, ops[..n]), ops[n], id);
      OneMoreStatement(env, s, ops, id);
    }
  }

  // ---------------------------------------------------------------- the row and its batch

  lemma EnsuredIsOpen(s: State, server: string, window: string, rowId: string, batchId: string, o: Outside)
    requires BatchesSound(s.batches) && batchId !in s.batches && OutsideSound(o, rowId, batchId)
    ensures var (r, after) := Ensured(s, server, window, batchId, o);
      BatchesSound(after.batches) && (r.Ok? ==> IsOpenBatch(after.batches, server, r.value))
  {
    var s1 := o.others(CREATE, s);
    if OpenBatch(s1.batches, server).None? {
      assert forall id :: id in s1.batches ==> !IsOpenBatch(s1.batches, server, id);
    }
  }

  /** The store when the batch of the row was last known to be open: at its lookup or creation, or,
      with a window, when it was saved. */
  ghost function BatchKnown(s: State, row: Change, window: Option<string>, batchId: string, o: Outside): State {
    var (found, s1) := Ensured(s, row.serverId, if window.Some? then window.value else row.timing.mode, batchId, o);
    if found.Ok? && window.Some? && found.value in s1.batches then
      var s2 := o.others(SAVE, s1);
      s2.(batches := AfterSave(s2.batches, found.value, Rewindowed(s1.batches[found.value], window.value, row.timing)))
    else s1
  }

  /** What happens to the store from there until the row is created, by others and by the call itself. */
  function UntilTheRow(row: Change, window: Option<string>, id: string, turns: nat -> seq<Op>): seq<Op> {
    if window.Some? then turns(RETARGET) + [Retarget(id, row.timing)] + turns(ROW) else turns(ROW)
  }

  /** The statements between the save of a window and the creation of the row, in one run. */
  lemma UntilTheRowRuns(env: Env, known: State, id: string, timing: Timing, before: seq<Op>, after: seq<Op>)
    ensures var s := Run(env, known, before);
      Run(env, known, before + [Retarget(id, timing)] + after)
      == Run(env, s.(changes := Retargeted(s.changes, id, timing)), after)
  {
    RunAppends(env, known, before, [Retarget(id, timing)]);
    RunAppends(env, known, before + [Retarget(id, timing)], after);
    OneStatement(env, Run(env, known, before), Retarget(id, timing));
  }

  lemma SavedBatchIsKnown(s: State, row: Change, window: string, rowId: string, batchId: string, o: Outside)
    requires BatchesSound(s.batches) && batchId !in s.batches && OutsideSound(o, rowId, batchId)
    requires Recorded(s, row, Some(window), rowId, batchId, o).0.Ok?
    ensures var (r, after) := Recorded(s, row, Some(window), rowId, batchId, o);
      var known := BatchKnown(s, row, Some(window), batchId, o);
      && BatchesSound(known.batches) && IsOpenBatch(known.batches, row.serverId, r.value)
      && var s1 := o.others(RETARGET, known);
         after.batches == o.others(ROW, s1.(changes := Retargeted(s1.changes, r.value, row.timing))).batches
  {
    EnsuredIsOpen(s, row.serverId, window, rowId, batchId, o);
    var (found, s1) := Ensured(s, row.serverId, window, batchId, o);
    var batch := Rewindowed(s1.batches[found.value], window, row.timing);
    var s2 := o.others(SAVE, s1);
    assert BatchesSound(s2.batches);
    assert MaybeWindowed(s1, found.value, row, Some(window), o) == Windowed(s1, found.value, batch, row.timing, o);
    SavingKeepsSound(s2.batches, found.value, batch);
  }

  lemma BatchKnownIsOpen(
    env: Env, s: State, row: Change, window: Option<string>, rowId: string, batchId: string,
    turns: nat -> seq<Op>, faults: nat -> Fault)
    requires BatchesSound(s.batches) && batchId !in s.batches && NeverMake(turns, rowId, batchId)
    requires Recorded(s, row, window, rowId, batchId, Playing(env, turns, faults)).0.Ok?
    ensures var o := Playing(env, turns, faults);
      var (r, after) := Recorded(s, row, window, rowId, batchId, o);
      var known := BatchKnown(s, row, window, batchId, o);
      && BatchesSound(known.batches) && IsOpenBatch(known.batches, row.serverId, r.value)
      && after.batches == Run(env, known, UntilTheRow(row, window, r.value, turns)).batches
  {
    var o := Playing(env, turns, faults);
    PlayingIsSound(env, turns, faults, rowId, batchId);
    if window.Some? {
      SavedBatchIsKnown(s, row, window.value, rowId, batchId, o);
      var id := Recorded(s, row, window, rowId, batchId, o).0.value;
      UntilTheRowRuns(env, BatchKnown(s, row, window, batchId, o), id, row.timing, turns(RETARGET), turns(ROW));
    } else {
      EnsuredIsOpen(s, row.serverId, row.timing.mode, rowId, batchId, o);
    }
  }

  /** A recorded row lands in an open batch exactly when, between the lookup of its batch (with a window:
      its save) and the creation of the row, every close of that batch is followed by another caller's
      save that opens it again. */
  lemma RowLandsInOpenBatchExactlyWhen(
    env: Env, s: State, row: Change, window: Option<string>, rowId: string, batchId: string,
    turns: nat -> seq<Op>, faults: nat -> Fault)
    requires BatchesSound(s.batches) && batchId !in s.batches && NeverMake(turns, rowId, batchId)
    requires Recorded(s, row, window, rowId, batchId, Playing(env, turns, faults)).0.Ok?
    ensures var o := Playing(env, turns, faults);
      var (r, after) := Recorded(s, row, window, rowId, batchId, o);
      && rowId in after.changes && after.changes[rowId] == row.(batchId := r.value)
      && (IsOpenBatch(after.batches, row.serverId, r.value) <==>
            EveryCloseUndone(env, BatchKnown(s, row, window, batchId, o),
                             UntilTheRow(row, window, r.value, turns), r.value))
  {
    var o := Playing(env, turns, faults);
    var (r, after) := Recorded(s, row, window, rowId, batchId, o);
    var known, ops := BatchKnown(s, row, window, batchId, o), UntilTheRow(row, window, r.value, turns);
    BatchKnownIsOpen(env, s, row, window, rowId, batchId, turns, faults);
    StaysOpenExactlyWhen(env, known, ops, r.value);
    RunKeepsBatchesSound(env, known, ops);
  }

  ghost predicate NobodySaves(turns: nat -> seq<Op>, id: string) {
    forall k: nat, op :: op in turns(k) ==> !(op.Save? && op.id == id)
  }

  /** While no other caller sets the window of that batch, this comes down to nobody closing it. */
  lemma RowLandsInOpenBatchUnlessClosed(
    env: Env, s: State, row: Change, window: Option<string>, rowId: string, batchId: string,
    turns: nat -> seq<Op>, faults: nat -> Fault)
    requires BatchesSound(s.batches) && batchId !in s.batches && NeverMake(turns, rowId, batchId)
    requires Recorded(s, row, window, rowId, batchId, Playing(env, turns, faults)).0.Ok?
    requires NobodySaves(turns, Recorded(s, row, window, rowId, batchId, Playing(env, turns, faults)).0.value)
    ensures var (r, after) := Recorded(s, row, window, rowId, batchId, Playing(env, turns, faults));
      IsOpenBatch(after.batches, row.serverId, r.value) <==>
        forall op :: op in UntilTheRow(row, window, r.value, turns) ==> !Closes(op, r.value)
  {
    var o := Playing(env, turns, faults);
    var id := Recorded(s, row, window, rowId, batchId, o).0.value;
    var known, ops := BatchKnown(s, row, window, batchId, o), UntilTheRow(row, window, id, turns);
    RowLandsInOpenBatchExactlyWhen(env, s, row, window, rowId, batchId, turns, faults);
    forall j: nat | j < |ops| ensures !SavedAt(env, known, ops, j, id) {
      assert ops[j] in turns(RETARGET) || ops[j] in turns(ROW) || ops[j].Retarget?;
    }
    forall k: nat | k < |ops| ensures !Undone(env, known, ops, k, id) {}
  }

  ghost predicate LeaveBatchesAlone(o: Outside) {
    forall k: nat, s: State :: o.others(k, s).batches == s.batches
  }

  /** While nobody else touches batches and no statement fails, staging succeeds and the row lands in the
      open batch. */
  lemma UndisturbedRowLandsInOpenBatch(
    s: State, row: Change, window: Option<string>, rowId: string, batchId: string, o: Outside)
    requires BatchesSound(s.batches) && batchId !in s.batches && LeaveBatchesAlone(o)
    requires forall k: nat :: o.faults(k) == NoFault
    ensures var (r, after) := Recorded(s, row, window, rowId, batchId, o);
      r.Ok? && IsOpenBatch(after.batches, row.serverId, r.value)
  {
    var mode := if window.Some? then window.value else row.timing.mode;
    var (found, s1) := Ensured(s, row.serverId, mode, batchId, o);
    assert o.others(CREATE, s).batches == s.batches;
    assert found.Ok? && IsOpenBatch(s1.batches, row.serverId, found.value);
    if OpenBatch(s.batches, row.serverId).None? {
      OpeningKeepsSound(s.batches, row.serverId, mode, batchId);
    }
  }

  // ---------------------------------------------------------------- discarding

  ghost predicate AppliedAt(env: Env, s: State, ops: seq<Op>, k: nat, id: string)
    requires k < |ops|
  {
    ops[k].Apply? && ops[k].id == id && ApplyChange(env, Run(env, s, ops[..k]), id, ops[k].stamp).Ok?
  }

  predicate DiscardedAt(ops: seq<Op>, k: nat, id: string)
    requires k < |ops|
  {
    ops[k].Discard? && ops[k].id == id
  }

  /** Nobody's apply of this change succeeds, and nobody's discard of it is written. */
  ghost predicate LeftAlone(env: Env, s: State, ops: seq<Op>, id: string) {
    forall k: nat :: k < |ops| ==> !AppliedAt(env, s, ops, k, id) && !DiscardedAt(ops, k, id)
  }

  /** Somebody's apply of this change succeeds, and no discard of it is written after that. */
  ghost predicate AppliedForGood(env: Env, s: State, ops: seq<Op>, id: string) {
    exists k: nat :: k < |ops| && ForGoodAt(env, s, ops, k, id)
  }

  lemma StepOnRow(env: Env, s: State, op: Op, id: string)
    requires id in s.changes
    ensures id in Step(env, s, op).changes
    ensures var applied := op.Apply? && op.id == id && ApplyChange(env, s, id, op.stamp).Ok?;
      var discarded := op.Discard? && op.id == id;
      var status := Step(env, s, op).changes[id].status;
      && (status == Waiting <==> s.changes[id].status == Waiting && !applied && !discarded)
      && (status in {Applied, RolledBack} <==> !discarded && (applied || s.changes[id].status in {Applied, RolledBack}))
  {
  }

  lemma SameInFront(env: Env, s: State, ops: seq<Op>, n: nat, j: nat, id: string)
    requires j < n <= |ops|
    ensures AppliedAt(env, s, ops, j, id) <==> AppliedAt(env, s, ops[..n], j, id)
    ensures DiscardedAt(ops, j, id) <==> DiscardedAt(ops[..n], j, id)
  {
    assert ops[..j] == ops[..n][..j];
  }

  lemma OneMoreLeavesAlone(env: Env, s: State, ops: seq<Op>, n: nat, id: string)
    requires n + 1 == |ops|
    ensures LeftAlone(env, s, ops, id) <==>
      LeftAlone(env, s, ops[..n], id) && !AppliedAt(env, s, ops, n, id) && !DiscardedAt(ops, n, id)
  {
    forall j: nat | j < n
      ensures AppliedAt(env, s, ops, j, id) <==> AppliedAt(env, s, ops[..n], j, id)
      ensures DiscardedAt(ops, j, id) <==> DiscardedAt(ops[..n], j, id)
    {
      SameInFront(env, s, ops, n, j, id);
    }
  }

  /** Statement `k` applies the change, and it stays applied. */
  ghost predicate ForGoodAt(env: Env, s: State, ops: seq<Op>, k: nat, id: string)
    requires k < |ops|
  {
    AppliedAt(env, s, ops, k, id) && forall j: nat :: k < j < |ops| ==> !DiscardedAt(ops, j, id)
  }

  lemma ForGoodInFront(env: Env, s: State, ops: seq<Op>, n: nat, k: nat, id: string)
    requires k < n && n + 1 == |ops|
    ensures ForGoodAt(env, s, ops, k, id) <==> ForGoodAt(env, s, ops[..n], k, id) && !DiscardedAt(ops, n, id)
  {
    SameInFront(env, s, ops, n, k, id);
    forall j: nat | j < n
      ensures DiscardedAt(ops, j, id) <==> DiscardedAt(ops[..n], j, id)
    {
      SameInFront(env, s, ops, n, j, id);
    }
  }

  lemma OneMoreForGood(env: Env, s: State, ops: seq<Op>, n: nat, id: string)
    requires n + 1 == |ops|
    ensures AppliedForGood(env, s, ops, id) <==>
      !DiscardedAt(ops, n, id) && (AppliedAt(env, s, ops, n, id) || AppliedForGood(env, s, ops[..n], id))
  {
    forall k: nat | k < n
      ensures ForGoodAt(env, s, ops, k, id) <==> ForGoodAt(env, s, ops[..n], k, id) && !DiscardedAt(ops, n, id)
    {
      ForGoodInFront(env, s, ops, n, k, id);
    }
    assert ForGoodAt(env, s, ops, n, id) <==> AppliedAt(env, s, ops, n, id);
    assert AppliedAt(env, s, ops, n, id) ==> !DiscardedAt(ops, n, id);
  }

  /** What statements of other callers make of a waiting row. */
  lemma {:induction false} RowAfterwards(env: Env, s: State, ops: seq<Op>, id: string)
    requires id in s.changes && s.changes[id].status == Waiting
    ensures id in Run(env, s, ops).changes
    ensures var status := Run(env, s, ops).changes[id].status;
      && (status == Waiting <==> LeftAlone(env, s, ops, id))
      && (status in {Applied, RolledBack} <==> AppliedForGood(env, s, ops, id))
  {
    if ops != [] {
      var n := |ops| - 1;
      RowAfterwards(env, s, ops[..n], id);
      StepOnRow(env, Run(env, s, ops[..n]), ops[n], id);
      OneMoreLeavesAlone(env, s, ops, n, id);
      OneMoreForGood(env, s, ops, n, id);
    }
  }

  /** The row that a discard overwrites still waits exactly when, since it was read, nobody's apply of it
      succeeded and nobody's discard of it was written; it is the record of an apply exactly when an
      apply succeeded and no discard was written after that. */
  lemma DiscardHitsWaitingRowExactlyWhen(env: Env, s: State, id: string, turns: nat -> seq<Op>, faults: nat -> Fault)
    requires AfterDiscard(s, id, Playing(env, turns, faults)).0.Ok?
    ensures var mid := Run(env, s, turns(DISCARD)).changes;
      && id in mid
      && AfterDiscard(s, id, Playing(env, turns, faults)).1.changes == mid[id := s.changes[id].(status := Discarded)]
      && (mid[id].status == Waiting <==> LeftAlone(env, s, turns(DISCARD), id))
      && (mid[id].status in {Applied, RolledBack} <==> AppliedForGood(env, s, turns(DISCARD), id))
  {
    RowAfterwards(env, s, turns(DISCARD), id);
  }

  // ---------------------------------------------------------------- a window written back

  /** Another batch of the server is open. */
  predicate AnotherOpen(batches: map<string, Batch>, id: string, server: string) {
    exists other :: other in batches && other != id
      && batches[other].serverId == server && batches[other].status == Open
  }

  /** Writing an open batch back opens a finished batch again exactly when it is the one written, and
      no other batch of its server is open; every other finished batch stays finished. */
  lemma SaveReopensExactlyWhen(batches: map<string, Batch>, id: string, batch: Batch, finished: string)
    requires BatchesSound(batches) && batch.status == Open && batch.openKey == Some(batch.serverId)
    requires finished in batches && batches[finished].status != Open
    ensures BatchesSound(AfterSave(batches, id, batch)) && finished in AfterSave(batches, id, batch)
    ensures AfterSave(batches, id, batch)[finished].status == Open <==>
      finished == id && !AnotherOpen(batches, id, batch.serverId)
  {
    assert KeyFree(batches, id, batch) <==> !AnotherOpen(batches, id, batch.serverId);
  }

  /** The other callers act before one statement only, and nothing fails. */
  ghost function Only(env: Env, at: nat, ops: seq<Op>): Outside {
    Playing(env, (k: nat) => if k == at then ops else [], (k: nat) => NoFault)
  }

  lemma OnlyThere(env: Env, at: nat, ops: seq<Op>, k: nat)
    requires k != at
    ensures forall s: State :: Only(env, at, ops).others(k, s) == s
  {
    forall s: State ensures Only(env, at, ops).others(k, s) == s {
      assert Run(env, s, []) == s;
    }
  }

  lemma OneStatement(env: Env, s: State, op: Op)
    ensures Run(env, s, [op]) == Step(env, s, op) && Run(env, s, []) == s
  {
    assert [op][..0] == [];
  }

  /** A window set on a batch that is closed before the write: the batch is open again afterwards. */
  lemma WindowReopens(
    env: Env, servers: set<string>, s: State, server: string, wanted: Config, window: string, applyAt: Option<int>,
    idleMinutes: int, rowId: string, batchId: string, id: string)
    requires BatchesSound(s.batches) && IsOpenBatch(s.batches, server, id)
    requires ModeForWindow(window, applyAt, idleMinutes).Ok?
    requires Refusal(env, servers, Live(env, s, server), server, wanted,
               Timing(ModeForWindow(window, applyAt, idleMinutes).value, "", applyAt, idleMinutes)).None?
    ensures Closed(s.batches, id, BatchDiscarded)[id].status == BatchDiscarded
    ensures var (r, after) := WindowStaged(env, servers, s, server, wanted, window,
                                               applyAt, idleMinutes, rowId, batchId,
                                           Only(env, SAVE, [Close(id, BatchDiscarded)]));
      r == Ok(id) && id in after.batches && after.batches[id].status == Open
  {
    OpenBatchIsUnique(s.batches, server, id);
    OneStatement(env, s, Close(id, BatchDiscarded));
    var o := Only(env, SAVE, [Close(id, BatchDiscarded)]);
    OnlyThere(env, SAVE, [Close(id, BatchDiscarded)], RETARGET);
    OnlyThere(env, SAVE, [Close(id, BatchDiscarded)], ROW);
    assert o.others(SAVE, s) == s.(batches := Closed(s.batches, id, BatchDiscarded));
  }

  function DemoEnv(): Env {
    Env({ID, SERVER_ID, UPDATED_AT, "motd"}, (f, v) => true,
        server => map[ID := Null, SERVER_ID := Value(server), "motd" := Null], cron => false)
  }

  /** One input: the window "idle" on the open batch of a server, closed meanwhile. */
  lemma WindowReopensAtOneInput()
    ensures var s := State(map[], map[], map["b" := NewBatch("srv", NEXT_RESTART)]);
      var (r, after) := WindowStaged(DemoEnv(), {"srv"}, s, "srv", map["motd" := Value("hi")], WHEN_IDLE, None, 5,
                                     "row", "new", Only(DemoEnv(), SAVE, [Close("b", BatchDiscarded)]));
      r == Ok("b") && "b" in after.batches && after.batches["b"].status == Open
  {
    var s := State(map[], map[], map["b" := NewBatch("srv", NEXT_RESTART)]);
    var live, wanted := Live(DemoEnv(), s, "srv"), map["motd" := Value("hi")];
    assert "motd" in Diff(live, wanted);
    WindowReopens(DemoEnv(), {"srv"}, s, "srv", wanted, WHEN_IDLE, None, 5, "row", "new", "b");
  }

  // ---------------------------------------------------------------- one input for the other races

  function DemoChange(): Change {
    Change("srv", "b", map["motd" := Value("hi")], None, None, Timing(ON_RESTART, "", None, 0), Waiting)
  }

  function DemoState(): State {
    State(map[], map["row" := DemoChange()], map["b" := NewBatch("srv", NEXT_RESTART)])
  }

  /** A batch closed just before the row is created: the row waits in a batch that is finished. */
  lemma RowLandsInClosedBatch(env: Env, s: State, row: Change, rowId: string, batchId: string, id: string)
    requires BatchesSound(s.batches) && IsOpenBatch(s.batches, row.serverId, id)
    ensures var (r, after) := Recorded(s, row, None, rowId, batchId, Only(env, ROW, [Close(id, BatchDiscarded)]));
      && r == Ok(id) && id in after.batches && after.batches[id].status == BatchDiscarded
      && rowId in after.changes && after.changes[rowId].batchId == id && after.changes[rowId].status == row.status
  {
    OpenBatchIsUnique(s.batches, row.serverId, id);
    OneStatement(env, s, Close(id, BatchDiscarded));
  }

  /** A change applied between the check and the write of its discard stays in the live config, but its
      record says discarded and carries no previous values: it can no longer be rolled back. */
  lemma DiscardLosesAnApply(env: Env, s: State, id: string, stamp: Json, stamp': Json)
    requires ApplyChange(env, s, id, stamp).Ok? && s.changes[id].previous.None?
    ensures var applied := ApplyChange(env, s, id, stamp).value;
      var (r, after) := AfterDiscard(s, id, Only(env, DISCARD, [Apply(id, stamp)]));
      && r == Ok(()) && after.configs == applied.configs
      && id in after.changes && after.changes[id].status == Discarded && after.changes[id].previous.None?
      && RollBackChange(env, after, id, stamp') == Err(NotApplied)
  {
    OneStatement(env, s, Apply(id, stamp));
  }

  /** Both at one input: a waiting row in the open batch of its server. */
  lemma RacesAtOneInput(stamp: Json)
    ensures var close := Only(DemoEnv(), ROW, [Close("b", BatchDiscarded)]);
      var after := Recorded(DemoState(), DemoChange(), None, "new row", "new", close).1;
      "b" in after.batches && after.batches["b"].status == BatchDiscarded
      && "new row" in after.changes && after.changes["new row"] == DemoChange()
    ensures var apply := Only(DemoEnv(), DISCARD, [Apply("row", stamp)]);
      var after := AfterDiscard(DemoState(), "row", apply).1;
      "srv" in after.configs && "motd" in after.configs["srv"] && after.configs["srv"]["motd"] == Value("hi")
      && "row" in after.changes && after.changes["row"].status == Discarded
  {
    RowLandsInClosedBatch(DemoEnv(), DemoState(), DemoChange(), "new row", "new", "b");
    DiscardLosesAnApply(DemoEnv(), DemoState(), "row", stamp, stamp);
  }

  // ---------------------------------------------------------------- what one call leaves

  ghost predicate Undisturbed(o: Outside) {
    forall k: nat, s: State :: o.others(k, s) == s
  }

  ghost predicate Faultless(o: Outside) {
    forall k: nat :: o.faults(k) == NoFault
  }

  /** Left alone and without a window, a call adds its row, to the open batch of the server or to a new one
      that takes the apply mode for its window. */
  lemma RowIsAdded(s: State, row: Change, rowId: string, batchId: string, o: Outside)
    requires BatchesSound(s.batches) && batchId !in s.batches && Undisturbed(o) && Faultless(o)
    ensures var (r, after) := Recorded(s, row, None, rowId, batchId, o);
      && r.Ok? && after.configs == s.configs && after.changes == s.changes[rowId := row.(batchId := r.value)]
      && ((exists id :: id in s.batches && s.batches[id].status == Open && s.batches[id].serverId == row.serverId) ==>
            after.batches == s.batches && r.value in s.batches && s.batches[r.value].status == Open
            && s.batches[r.value].serverId == row.serverId)
      && ((forall id :: id in s.batches && s.batches[id].serverId == row.serverId ==> s.batches[id].status != Open) ==>
            r.value == batchId
            && after.batches
               == s.batches[batchId := Batch(row.serverId, Some(row.serverId), row.timing.mode, None, 0, Open)])
  {
    if id :| id in s.batches && s.batches[id].status == Open && s.batches[id].serverId == row.serverId {
      assert IsOpenBatch(s.batches, row.serverId, id);
      OpenBatchIsUnique(s.batches, row.serverId, id);
    }
  }

  /** With a window, the open batch takes the window asked for, and so do all the rows waiting in it, the new
      one included; nothing else changes. */
  lemma WindowTakesEffect(
    s: State, row: Change, window: string, rowId: string, batchId: string, id: string, o: Outside)
    requires BatchesSound(s.batches) && IsOpenBatch(s.batches, row.serverId, id) && Undisturbed(o) && Faultless(o)
    requires row.status == Waiting && rowId !in s.changes
    ensures var (r, after) := Recorded(s, row, Some(window), rowId, batchId, o);
      && r == Ok(id) && after.configs == s.configs && after.batches == s.batches[id := after.batches[id]]
      && after.batches[id].status == Open && after.batches[id].serverId == row.serverId
      && after.batches[id].window == window && after.batches[id].applyAt == row.timing.applyAt
      && after.batches[id].idleMinutes == row.timing.idleMinutes
      && after.changes.Keys == s.changes.Keys + {rowId} && after.changes[rowId] == row.(batchId := id)
      && (forall i :: i in s.changes && s.changes[i].batchId == id && s.changes[i].status == Waiting ==>
            after.changes[i] == s.changes[i].(timing := row.timing.(cron := s.changes[i].timing.cron)))
      && (forall i :: i in s.changes && !(s.changes[i].batchId == id && s.changes[i].status == Waiting) ==>
            after.changes[i] == s.changes[i])
  {
    OpenBatchIsUnique(s.batches, row.serverId, id);
    assert KeyFree(s.batches, id, Rewindowed(s.batches[id], window, row.timing));
  }

  // ---------------------------------------------------------------- what a failing statement leaves

  /** A call that sets a window and fails after the batch was saved leaves the new window standing, and
      the rows of the batch retargeted if that statement took effect; the row itself is there only if
      the reply to its creation was lost. */
  lemma FailedCallLeavesTheWindow(
    s: State, row: Change, window: string, rowId: string, batchId: string, id: string, o: Outside)
    requires BatchesSound(s.batches) && IsOpenBatch(s.batches, row.serverId, id) && rowId !in s.changes
    requires Undisturbed(o)
    requires o.faults(LOOKUP) == NoFault && o.faults(SAVE).Effective()
    requires o.faults(SAVE).Reported() || o.faults(RETARGET).Reported() || o.faults(ROW).Reported()
    ensures var (r, after) := Recorded(s, row, Some(window), rowId, batchId, o);
      var retargets := o.faults(SAVE) == NoFault && o.faults(RETARGET).Effective();
      && r == Err(StoreFailed) && after.configs == s.configs
      && after.batches == s.batches[id := Rewindowed(s.batches[id], window, row.timing)]
      && after.changes - {rowId} == (if retargets then Retargeted(s.changes, id, row.timing) else s.changes)
      && (rowId in after.changes <==> retargets && o.faults(RETARGET) == NoFault && o.faults(ROW).LostReply?)
  {
    OpenBatchIsUnique(s.batches, row.serverId, id);
    assert s.changes - {rowId} == s.changes;
    assert Retargeted(s.changes, id, row.timing) - {rowId} == Retargeted(s.changes, id, row.timing);
  }

  /** The field that holds the server's identity is called "server_id", and staging it is not refused. */
  lemma ServerIdCanBeStaged()
    ensures var live := DemoEnv().defaults("srv");
      && Refusal(DemoEnv(), {"srv"}, live, "srv", map[SERVER_ID := Value("other")],
                 Timing(ON_RESTART, "", None, 0)) == None
      && SERVER_ID in live && live[SERVER_ID] == Value("srv")
  {
    var live, wanted := DemoEnv().defaults("srv"), map[SERVER_ID := Value("other")];
    assert SERVER_ID in Diff(live, wanted);
  }
}
