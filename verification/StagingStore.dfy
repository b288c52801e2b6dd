/** The store that records, applies, discards and rolls back staged config changes
    (internal/db/staged_config.go, internal/db/staged_content.go:117-123). */
module StagingStore {
  import opened Wrappers
  import opened StagedConfig

  // ---------------------------------------------------------------- loops over fields

  /** DiffMaps. */
  method DiffMaps(current: Config, desired: Config) returns (diff: Config)
    ensures diff == Diff(current, desired)
  {
    diff := map[];
    var rest := desired.Keys;
    while rest != {}
      invariant rest <= desired.Keys
      invariant diff == map f | f in Diff(current, desired) && f !in rest :: desired[f]
      decreases |rest|
    {
      var f :| f in rest;
      rest := rest - {f};
      if f !in current || current[f] != desired[f] {
        diff := diff[f := desired[f]];
      }
    }
  }

  /** Writes every entry of `overlay` into a copy of `onto`. */
  method CopyOnto(onto: Config, overlay: Config) returns (out: Config)
    ensures out == onto + overlay
  {
    out := onto;
    var rest := overlay.Keys;
    while rest != {}
      invariant rest <= overlay.Keys && out.Keys == onto.Keys + (overlay.Keys - rest)
      invariant forall f :: f in overlay && f !in rest ==> out[f] == overlay[f]
      invariant forall f :: f in onto && (f !in overlay || f in rest) ==> out[f] == onto[f]
      decreases |rest|
    {
      var f :| f in rest;
      rest := rest - {f};
      out := out[f := overlay[f]];
    }
  }

  /** MergeMaps. */
  method MergeMaps(base: Config, overlay: Config) returns (out: Config)
    ensures out == Merge(base, overlay)
  {
    out := CopyOnto(map[], base);
    out := CopyOnto(out, overlay);
  }

  /** stagedConfigStillMatches: a row without a base matches anything. */
  method StagedConfigStillMatches(live: Config, base: Option<Config>) returns (ok: bool)
    ensures ok <==> base.None? || StillMatches(live, base.value)
  {
    if base.None? { return true; }
    var rest := base.value.Keys;
    while rest != {}
      invariant rest <= base.value.Keys
      invariant forall f :: f in base.value && f !in rest ==> (if f in live then live[f] else Null) == base.value[f]
      decreases |rest|
    {
      var f :| f in rest;
      rest := rest - {f};
      var have := if f in live then live[f] else Null;
      if have != base.value[f] { return false; }
    }
    return true;
  }

  /** The values of the fields of a diff before it is applied. */
  method Capture(current: Config, diff: Config) returns (snapshot: Config)
    ensures snapshot == Snapshot(current, diff)
  {
    snapshot := map[];
    var rest := diff.Keys;
    while rest != {}
      invariant rest <= diff.Keys
      invariant snapshot == map f | f in diff && f !in rest :: if f in current then current[f] else Null
      decreases |rest|
    {
      var f :| f in rest;
      rest := rest - {f};
      snapshot := snapshot[f := if f in current then current[f] else Null];
    }
  }

  // ---------------------------------------------------------------- windows

  const NEXT_RESTART := "next_restart"

  function ModeForWindow(window: string, applyAt: Option<int>, idleMinutes: int): (r: Result<string, Failure>)
  {
    if window == NEXT_RESTART then Ok(ON_RESTART)
    else if window == AT_TIME then
      if applyAt.None? || applyAt.value == ZERO_TIME then Err(BadRequest) else Ok(AT_TIME)
    else if window == WHEN_IDLE then
      if idleMinutes <= 0 then Err(BadRequest) else Ok(WHEN_IDLE)
    else Err(BadRequest)
  }

  predicate TimingAllowed(env: Env, timing: Timing) {
    && timing.mode in {ON_RESTART, AT_TIME, WHEN_IDLE, SCHEDULED}
    && (timing.mode == SCHEDULED ==> timing.cron != "" && env.cronParses(timing.cron))
    && (timing.mode == AT_TIME ==> timing.applyAt.Some? && timing.applyAt.value != ZERO_TIME)
    && (timing.mode == WHEN_IDLE ==> timing.idleMinutes > 0)
  }

  /** A window that was accepted gives a timing that staging accepts. */
  lemma WindowGivesAllowedTiming(env: Env, window: string, applyAt: Option<int>, idleMinutes: int)
    ensures ModeForWindow(window, applyAt, idleMinutes).Ok? <==>
      window == NEXT_RESTART
      || (window in {AT_TIME, WHEN_IDLE} && TimingAllowed(env, Timing(window, "", applyAt, idleMinutes)))
    ensures ModeForWindow(window, applyAt, idleMinutes).Ok? ==>
      TimingAllowed(env, Timing(ModeForWindow(window, applyAt, idleMinutes).value, "", applyAt, idleMinutes))
  {
  }

  // ---------------------------------------------------------------- batches

  /** The open batch of a server, found by its key. */
  predicate IsOpenBatch(batches: map<string, Batch>, server: string, id: string) {
    id in batches && batches[id].openKey == Some(server)
  }

  /** What happens around the statements of one call, each known by its number: what other callers do
      just before it, and whether it fails. */
  datatype Outside = Outside(others: (nat, State) -> State, faults: nat -> Fault)

  const LOOKUP := 0
  const CREATE := 1
  const RETRY := 2
  const SAVE := 3
  const RETARGET := 4
  const ROW := 5
  const DISCARD := 6

  /** Other callers keep at most one open batch per server and never make the ids this call makes. */
  ghost predicate OutsideSound(o: Outside, rowId: string, batchId: string) {
    && (forall k: nat, s: State :: BatchesSound(s.batches) ==> BatchesSound(o.others(k, s).batches))
    && (forall k: nat, s: State :: rowId !in s.changes ==> rowId !in o.others(k, s).changes)
    && (forall k: nat, s: State :: batchId !in s.batches ==> batchId !in o.others(k, s).batches)
  }

  // ---------------------------------------------------------------- one call, statement by statement

  /** The open batch of a server. */
  ghost function OpenBatch(batches: map<string, Batch>, server: string): Option<string> {
    if exists id :: IsOpenBatch(batches, server, id) then
      var id :| IsOpenBatch(batches, server, id); Some(id)
    else None
  }

  lemma OpenBatchIsUnique(batches: map<string, Batch>, server: string, id: string)
    requires BatchesSound(batches) && IsOpenBatch(batches, server, id)
    ensures OpenBatch(batches, server) == Some(id)
  {
    var other :| IsOpenBatch(batches, server, other) && OpenBatch(batches, server) == Some(other);
  }

  /** CloseUpdateBatch: only an open batch is finished, and gives up its key. */
  function Closed(batches: map<string, Batch>, id: string, status: BatchStatus): map<string, Batch> {
    if id in batches && batches[id].status == Open && status != Open
    then batches[id := batches[id].(status := status, openKey := None)]
    else batches
  }

  function NewBatch(server: string, window: string): Batch {
    Batch(server, Some(server), window, None, 0, Open)
  }

  /** A statement that turns one state into another, or fails before or after it did. */
  function Written(fault: Fault, before: State, after: State): State {
    if fault.Effective() then after else before
  }

  /** ensureOpenBatch. */
  ghost function Ensured(s: State, server: string, window: string, newId: string, o: Outside)
    : (Result<string, Failure>, State)
  {
    if o.faults(LOOKUP).Reported() then (Err(StoreFailed), s)
    else if OpenBatch(s.batches, server).Some? then (Ok(OpenBatch(s.batches, server).value), s)
    else
      var s1 := o.others(CREATE, s);
      if OpenBatch(s1.batches, server).None? then
        var s2 := s1.(batches := s1.batches[newId := NewBatch(server, window)]);
        (if o.faults(CREATE).Reported() then Err(StoreFailed) else Ok(newId), Written(o.faults(CREATE), s1, s2))
      else if o.faults(CREATE).Reported() then (Err(StoreFailed), s1)
      else
        var s2 := o.others(RETRY, s1);
        if o.faults(RETRY).Reported() then (Err(StoreFailed), s2)
        else if OpenBatch(s2.batches, server).Some? then (Ok(OpenBatch(s2.batches, server).value), s2)
        else (Err(BatchGone), s2)
  }

  /** Writing a batch row back: refused when another row carries its open key. */
  predicate KeyFree(batches: map<string, Batch>, id: string, batch: Batch) {
    batch.openKey.Some? ==> forall other :: other in batches && other != id ==> batches[other].openKey != batch.openKey
  }

  function AfterSave(batches: map<string, Batch>, id: string, batch: Batch): map<string, Batch> {
    if KeyFree(batches, id, batch) then batches[id := batch] else batches
  }

  function Rewindowed(batch: Batch, window: string, timing: Timing): Batch {
    batch.(window := window, applyAt := timing.applyAt, idleMinutes := timing.idleMinutes)
  }

  /** Setting the window of a batch that was read as `batch`, and of the rows waiting in it. */
  ghost function Windowed(
    s: State, id: string, batch: Batch, timing: Timing, o: Outside): (Result<string, Failure>, State)
  {
    var s1 := o.others(SAVE, s);
    var s2 := Written(o.faults(SAVE), s1, s1.(batches := AfterSave(s1.batches, id, batch)));
    if o.faults(SAVE).Reported() then (Err(StoreFailed), s2)
    else if !KeyFree(s1.batches, id, batch) then (Err(KeyTaken), s2)
    else
      var s3 := o.others(RETARGET, s2);
      (if o.faults(RETARGET).Reported() then Err(StoreFailed) else Ok(id),
       Written(o.faults(RETARGET), s3, s3.(changes := Retargeted(s3.changes, id, timing))))
  }

  /** The window step of stageConfigChange, for the batch that was found. */
  ghost function MaybeWindowed(s: State, id: string, row: Change, window: Option<string>, o: Outside)
    : (Result<string, Failure>, State)
  {
    if window.Some? && id in s.batches
    then Windowed(s, id, Rewindowed(s.batches[id], window.value, row.timing), row.timing, o)
    else (Ok(id), s)
  }

  /** The writing half of stageConfigChange. */
  ghost function Recorded(s: State, row: Change, window: Option<string>, rowId: string, batchId: string, o: Outside)
    : (Result<string, Failure>, State)
  {
    var (found, s1) := Ensured(s, row.serverId, if window.Some? then window.value else row.timing.mode, batchId, o);
    if found.Err? then (found, s1)
    else
      var (windowed, s2) := MaybeWindowed(s1, found.value, row, window, o);
      if windowed.Err? then (windowed, s2)
      else
        var s3 := o.others(ROW, s2);
        (if o.faults(ROW).Reported() then Err(StoreFailed) else found,
         Written(o.faults(ROW), s3, s3.(changes := s3.changes[rowId := row.(batchId := found.value)])))
  }

  /** DiscardStagedConfigChange: the row is read, checked, and later written back whole. A read that
      fails is reported as a row that is not there. */
  function AfterDiscard(s: State, id: string, o: Outside): (Result<(), Failure>, State) {
    if o.faults(LOOKUP).Reported() || id !in s.changes then (Err(NotFound), s)
    else if s.changes[id].status != Waiting then (Err(NotWaiting), s)
    else
      var s1 := o.others(DISCARD, s);
      (if o.faults(DISCARD).Reported() then Err(StoreFailed) else Ok(()),
       Written(o.faults(DISCARD), s1, s1.(changes := s1.changes[id := s.changes[id].(status := Discarded)])))
  }

  /** Why a change is refused before anything is written, in the order of the checks. */
  function Refusal(
    env: Env, servers: set<string>, live: Config, server: string, wanted: Config, timing: Timing): Option<Failure>
  {
    if server == "" || wanted == map[] || !TimingAllowed(env, timing) then Some(BadRequest)
    else if server !in servers then Some(NoServer)
    else if !FieldsAllowed(live, wanted) then Some(UnknownField)
    else if Diff(live, wanted) == map[] then Some(NoDifference)
    else None
  }

  /** The checks in the order in which they refuse. */
  lemma RefusalMeans(env: Env, servers: set<string>, live: Config, server: string, wanted: Config, timing: Timing)
    ensures Refusal(env, servers, live, server, wanted, timing) == Some(BadRequest) <==>
      || server == "" || wanted == map[]
      || timing.mode !in {"on_restart", "at_time", "idle", "scheduled"}
      || (timing.mode == "scheduled" && (timing.cron == "" || !env.cronParses(timing.cron)))
      || (timing.mode == "at_time" && (timing.applyAt == None || timing.applyAt == Some(0)))
      || (timing.mode == "idle" && timing.idleMinutes <= 0)
    ensures Refusal(env, servers, live, server, wanted, timing) == Some(NoServer) ==> server !in servers
    ensures Refusal(env, servers, live, server, wanted, timing) == Some(UnknownField) ==>
      server in servers && exists f :: f in wanted && (f in {"id", "serverId"} || f !in live)
    ensures Refusal(env, servers, live, server, wanted, timing) == Some(NoDifference) ==>
      server in servers && forall f :: f in wanted ==> f !in {"id", "serverId"} && f in live && live[f] == wanted[f]
    ensures Refusal(env, servers, live, server, wanted, timing) == None ==>
      && server in servers && (forall f :: f in wanted ==> f !in {"id", "serverId"} && f in live)
      && exists f :: f in wanted && live[f] != wanted[f]
    ensures Refusal(env, servers, live, server, wanted, timing) in
      {None, Some(BadRequest), Some(NoServer), Some(UnknownField), Some(NoDifference)}
  {
    if Refusal(env, servers, live, server, wanted, timing) == Some(NoDifference) {
      forall f | f in wanted ensures f in live && live[f] == wanted[f] {
        assert f !in Diff(live, wanted);
      }
    } else if Refusal(env, servers, live, server, wanted, timing) == None {
      var f :| f in Diff(live, wanted);
    }
  }

  /** A refusal for lack of differences means just that the wanted values are already there. */
  lemma NoDifferenceMeansAlreadyThere(
    env: Env, servers: set<string>, live: Config, server: string, wanted: Config, timing: Timing)
    ensures Refusal(env, servers, live, server, wanted, timing) == Some(NoDifference) ==> Merge(live, wanted) == live
    ensures Refusal(env, servers, live, server, wanted, timing) == None ==> Merge(live, wanted) != live
  {
    DiffIsLeast(live, wanted, wanted);
  }

  /** The rows of a batch that still wait adopt a new window. */
  function Retargeted(changes: map<string, Change>, batch: string, timing: Timing): map<string, Change> {
    map id | id in changes ::
      if changes[id].batchId == batch && changes[id].status == Waiting
      then changes[id].(timing := timing.(cron := changes[id].timing.cron))
      else changes[id]
  }

  /** Retargeting a batch gives all the rows waiting in it the same window and moves nothing else. */
  lemma RetargetedShareTheWindow(changes: map<string, Change>, batch: string, timing: Timing)
    ensures forall id :: id in Retargeted(changes, batch, timing) ==>
      var c := Retargeted(changes, batch, timing)[id];
      c.batchId == batch && c.status == Waiting ==>
        c.timing.mode == timing.mode && c.timing.applyAt == timing.applyAt && c.timing.idleMinutes == timing.idleMinutes
    ensures Retargeted(changes, batch, timing).Keys == changes.Keys
    ensures forall id :: id in changes ==>
      var c := Retargeted(changes, batch, timing)[id];
      && c == changes[id].(timing := c.timing) && c.timing.cron == changes[id].timing.cron
      && (c.timing != changes[id].timing ==> c.batchId == batch && c.status == Waiting)
  {
  }

  /** The row a call records: the differences to the live config, with the live values. */
  function NewRow(server: string, live: Config, wanted: Config, timing: Timing): Change {
    Change(server, "", Diff(live, wanted), Some(Snapshot(live, Diff(live, wanted))), None, timing, Waiting)
  }

  /** StageServerConfigUpdate as a whole. */
  ghost function WindowStaged(
    env: Env, servers: set<string>, s: State, server: string, wanted: Config, window: string, applyAt: Option<int>,
    idleMinutes: int, rowId: string, batchId: string, o: Outside): (Result<string, Failure>, State)
  {
    match ModeForWindow(window, applyAt, idleMinutes)
    case Err(e) => (Err(e), s)
    case Ok(mode) =>
      var timing, live := Timing(mode, "", applyAt, idleMinutes), Live(env, s, server);
      match Refusal(env, servers, live, server, wanted, timing)
      case Some(refusal) => (Err(refusal), s)
      case None => Recorded(s, NewRow(server, live, wanted, timing), Some(window), rowId, batchId, o)
  }

  class Store {
    const env: Env
    const servers: set<string>
    var configs: map<string, Config>
    var changes: map<string, Change>
    var batches: map<string, Batch>

    constructor (env: Env, servers: set<string>)
      ensures this.env == env && this.servers == servers && Contents() == State(map[], map[], map[])
    {
      this.env, this.servers := env, servers;
      configs, changes, batches := map[], map[], map[];
    }

    function Contents(): State
      reads this
    {
      State(configs, changes, batches)
    }

    /** Other callers have their turn. */
    method LetOthers(k: nat, o: Outside)
      modifies this`configs, this`changes, this`batches
      ensures Contents() == o.others(k, old(Contents()))
    {
      var s := o.others(k, State(configs, changes, batches));
      configs, changes, batches := s.configs, s.changes, s.batches;
    }

    method FindOpenBatch(server: string) returns (found: Option<string>)
      requires BatchesSound(batches)
      ensures found == OpenBatch(batches, server)
      ensures found.None? ==> forall id :: id in batches ==> batches[id].openKey != Some(server)
    {
      if id :| id in batches && batches[id].openKey == Some(server) {
        OpenBatchIsUnique(batches, server, id);
        return Some(id);
      }
      return None;
    }

    /** ensureOpenBatch: whatever other callers do between its statements, it returns the batch that
        is open for the server when it finishes, and never makes a second one. */
    method EnsureOpenBatch(server: string, window: string, newId: string, ghost rowId: string, o: Outside)
      returns (r: Result<string, Failure>)
      requires BatchesSound(batches) && OutsideSound(o, rowId, newId) && newId !in batches
      modifies this`configs, this`changes, this`batches
      ensures (r, Contents()) == Ensured(old(Contents()), server, window, newId, o)
      ensures BatchesSound(batches) && (rowId !in old(changes) ==> rowId !in changes)
      ensures r.Ok? ==> IsOpenBatch(batches, server, r.value) && OpenBatch(batches, server) == Some(r.value)
      ensures r.Err? ==> r.error == StoreFailed || (r.error == BatchGone && OpenBatch(batches, server) == None)
    {
      if o.faults(LOOKUP).Reported() { return Err(StoreFailed); }
      var found := FindOpenBatch(server);
      if found.Some? { return Ok(found.value); }
      LetOthers(CREATE, o);
      found := FindOpenBatch(server);
      if found.None? && o.faults(CREATE).Effective() {
        batches := batches[newId := NewBatch(server, window)];
        OpenBatchIsUnique(batches, server, newId);
      }
      if o.faults(CREATE).Reported() { return Err(StoreFailed); }
      if found.None? { return Ok(newId); }
      LetOthers(RETRY, o);
      if o.faults(RETRY).Reported() { return Err(StoreFailed); }
      found := FindOpenBatch(server);
      if found.Some? { return Ok(found.value); }
      return Err(BatchGone);
    }

    /** Writes a batch row as it was read; the unique key may refuse it. */
    method SaveBatch(id: string, batch: Batch, ghost rowId: string, ghost batchId: string, o: Outside)
      returns (r: Result<(), Failure>)
      requires BatchesSound(batches) && OutsideSound(o, rowId, batchId)
      requires batch.status == Open && batch.openKey == Some(batch.serverId)
      modifies this`configs, this`changes, this`batches
      ensures var s := o.others(SAVE, old(Contents()));
        && Contents() == Written(o.faults(SAVE), s, s.(batches := AfterSave(s.batches, id, batch)))
        && r == if o.faults(SAVE).Reported() then Err(StoreFailed)
                else if KeyFree(s.batches, id, batch) then Ok(()) else Err(KeyTaken)
      ensures BatchesSound(batches) && (rowId !in old(changes) ==> rowId !in changes)
    {
      LetOthers(SAVE, o);
      var taken := exists other :: other in batches && other != id && batches[other].openKey == batch.openKey;
      if !taken && o.faults(SAVE).Effective() {
        batches := batches[id := batch];
      }
      return if o.faults(SAVE).Reported() then Err(StoreFailed) else if taken then Err(KeyTaken) else Ok(());
    }

    /** Writes a batch row as it was read, with a new window, and retargets the rows waiting in it. */
    method SetBatchWindow(
      id: string, batch: Batch, timing: Timing, ghost rowId: string, ghost batchId: string, o: Outside)
      returns (r: Result<string, Failure>)
      requires BatchesSound(batches) && OutsideSound(o, rowId, batchId)
      requires batch.status == Open && batch.openKey == Some(batch.serverId)
      modifies this`configs, this`changes, this`batches
      ensures (r, Contents()) == Windowed(old(Contents()), id, batch, timing, o)
      ensures BatchesSound(batches) && (rowId !in old(changes) ==> rowId !in changes)
      ensures r.Err? ==> r.error in {StoreFailed, KeyTaken}
    {
      var saved := SaveBatch(id, batch, rowId, batchId, o);
      if saved.Err? { return Err(saved.error); }
      LetOthers(RETARGET, o);
      if o.faults(RETARGET).Effective() {
        changes := Retargeted(changes, id, timing);
      }
      return if o.faults(RETARGET).Reported() then Err(StoreFailed) else Ok(id);
    }

    /** The writing half of stageConfigChange: find or open the batch, set its window when the call asks
        for that, and add the row. */
    method RecordChange(row: Change, window: Option<string>, rowId: string, batchId: string, o: Outside)
      returns (r: Result<string, Failure>)
      requires BatchesSound(batches) && OutsideSound(o, rowId, batchId)
      requires row.status == Waiting && rowId !in changes && batchId !in batches
      modifies this`configs, this`changes, this`batches
      ensures (r, Contents()) == Recorded(old(Contents()), row, window, rowId, batchId, o)
      ensures BatchesSound(batches) && (r.Err? && rowId in changes ==> o.faults(ROW).LostReply?)
      ensures r.Err? ==> r.error in {BatchGone, KeyTaken, StoreFailed}
      ensures r.Ok? ==> rowId in changes && changes[rowId] == row.(batchId := r.value)
    {
      r := EnsureOpenBatch(row.serverId, if window.Some? then window.value else row.timing.mode, batchId, rowId, o);
      if r.Err? { return; }
      if window.Some? {
        var batch := Rewindowed(batches[r.value], window.value, row.timing);
        var windowed := SetBatchWindow(r.value, batch, row.timing, rowId, batchId, o);
        if windowed.Err? { return windowed; }
      }
      r := AddRow(row, r.value, rowId, batchId, o);
    }

    /** The last statement: the row is created in the batch that was found. */
    method AddRow(row: Change, batch: string, rowId: string, ghost batchId: string, o: Outside)
      returns (r: Result<string, Failure>)
      requires BatchesSound(batches) && OutsideSound(o, rowId, batchId) && rowId !in changes
      modifies this`configs, this`changes, this`batches
      ensures var s := o.others(ROW, old(Contents()));
        Contents() == Written(o.faults(ROW), s, s.(changes := s.changes[rowId := row.(batchId := batch)]))
      ensures r == if o.faults(ROW).Reported() then Err(StoreFailed) else Ok(batch)
      ensures BatchesSound(batches) && (rowId in changes <==> o.faults(ROW).Effective())
    {
      LetOthers(ROW, o);
      if o.faults(ROW).Effective() {
        changes := changes[rowId := row.(batchId := batch)];
      }
      return if o.faults(ROW).Reported() then Err(StoreFailed) else Ok(batch);
    }

    /** stageConfigChange; `window` is present when the call also sets the window of the batch. */
    method StageConfigChange(
      server: string, wanted: Config, timing: Timing,
      window: Option<string>, rowId: string, batchId: string, o: Outside)
      returns (r: Result<string, Failure>)
      requires BatchesSound(batches) && OutsideSound(o, rowId, batchId)
      requires rowId !in changes && batchId !in batches
      modifies this`configs, this`changes, this`batches
      ensures var live := Live(env, old(Contents()), server);
        match Refusal(env, servers, live, server, wanted, timing)
        case Some(refusal) => r == Err(refusal) && Contents() == old(Contents())
        case None =>
          (r, Contents()) == Recorded(old(Contents()), NewRow(server, live, wanted, timing), window, rowId, batchId, o)
      ensures BatchesSound(batches) && (r.Err? && rowId in changes ==> o.faults(ROW).LostReply?)
      ensures r.Ok? ==> rowId in changes && changes[rowId].serverId == server && changes[rowId].status == Waiting
      ensures r.Ok? ==> changes[rowId].timing == timing && changes[rowId].batchId == r.value
      ensures r.Ok? ==>
        var live := Live(env, old(Contents()), server);
        && (forall f :: f in wanted ==> f !in {"id", "serverId"} && f in live)
        && (forall f :: f in changes[rowId].payload <==> f in wanted && wanted[f] != live[f])
        && (forall f :: f in changes[rowId].payload ==> changes[rowId].payload[f] == wanted[f])
        && changes[rowId].base.Some? && changes[rowId].base.value.Keys == changes[rowId].payload.Keys
        && (forall f :: f in changes[rowId].payload ==> changes[rowId].base.value[f] == live[f])
        && changes[rowId].previous == None
      ensures r.Ok? ==> RecordedAgainst(changes[rowId], Live(env, old(Contents()), server))
      ensures r.Ok? ==>
        var live := Live(env, old(Contents()), server);
        Merge(live, changes[rowId].payload) == Merge(live, wanted)
    {
      ghost var s := Contents();
      if server == "" || wanted == map[] || !TimingAllowed(env, timing) { return Err(BadRequest); }
      if server !in servers { return Err(NoServer); }
      var live := if server in configs then configs[server] else env.defaults(server);
      assert live == Live(env, s, server);
      if !FieldsAllowed(live, wanted) { return Err(UnknownField); }
      var diff := DiffMaps(live, wanted);
      if diff == map[] { return Err(NoDifference); }
      var base := Capture(live, diff);
      DiffSuffices(live, wanted);
      r := RecordChange(Change(server, "", diff, Some(base), None, timing, Waiting), window, rowId, batchId, o);
    }

    /** StageServerConfigUpdate. */
    method StageServerConfigUpdate(
      server: string, wanted: Config, window: string, applyAt: Option<int>, idleMinutes: int,
      rowId: string, batchId: string, o: Outside)
      returns (r: Result<string, Failure>)
      requires BatchesSound(batches) && OutsideSound(o, rowId, batchId)
      requires rowId !in changes && batchId !in batches
      modifies this`configs, this`changes, this`batches
      ensures (r, Contents()) ==
        WindowStaged(env, servers, old(Contents()), server, wanted, window, applyAt, idleMinutes, rowId, batchId, o)
      ensures BatchesSound(batches) && (r.Err? && rowId in changes ==> o.faults(ROW).LostReply?)
      ensures r.Ok? ==> rowId in changes && RecordedAgainst(changes[rowId], Live(env, old(Contents()), server))
      ensures r.Ok? ==> changes[rowId].batchId == r.value && changes[rowId].status == Waiting
      ensures r.Ok? ==> ModeForWindow(window, applyAt, idleMinutes) == Ok(changes[rowId].timing.mode)
      ensures r.Ok? && window == "next_restart" ==> changes[rowId].timing.mode == "on_restart"
      ensures r.Ok? && window == "at_time" ==>
        changes[rowId].timing.mode == "at_time" && applyAt.Some? && applyAt != Some(0)
      ensures r.Ok? && window == "idle" ==> changes[rowId].timing.mode == "idle" && idleMinutes > 0
      ensures r.Ok? ==> window in {"next_restart", "at_time", "idle"} && changes[rowId].timing.cron == ""
      ensures r.Ok? ==> changes[rowId].timing.applyAt == applyAt && changes[rowId].timing.idleMinutes == idleMinutes
      ensures window !in {"next_restart", "at_time", "idle"} ==> r == Err(BadRequest) && Contents() == old(Contents())
      ensures window == "at_time" && applyAt in {None, Some(0)} ==>
        r == Err(BadRequest) && Contents() == old(Contents())
      ensures window == "idle" && idleMinutes <= 0 ==> r == Err(BadRequest) && Contents() == old(Contents())
    {
      var mode := ModeForWindow(window, applyAt, idleMinutes);
      if mode.Err? { return Err(mode.error); }
      r := StageConfigChange(
        server, wanted, Timing(mode.value, "", applyAt, idleMinutes), Some(window), rowId, batchId, o);
    }

    /** CloseUpdateBatch. */
    method CloseUpdateBatch(id: string, status: BatchStatus)
      requires status != Open && BatchesSound(batches)
      modifies this`batches
      ensures batches == Closed(old(batches), id, status)
      ensures BatchesSound(batches) && batches.Keys == old(batches).Keys
      ensures forall b :: b in batches ==>
        batches[b] == if b == id && old(batches)[b].status == Open
                      then old(batches)[b].(status := status, openKey := None)
                      else old(batches)[b]
    {
      if id in batches && batches[id].status == Open {
        batches := batches[id := batches[id].(status := status, openKey := None)];
      }
    }

    /** DiscardStagedConfigChange. */
    method DiscardStagedConfigChange(id: string, o: Outside) returns (r: Result<(), Failure>)
      modifies this`configs, this`changes, this`batches
      ensures (r, Contents()) == AfterDiscard(old(Contents()), id, o)
    {
      if o.faults(LOOKUP).Reported() || id !in changes { return Err(NotFound); }
      var row := changes[id];
      if row.status != Waiting { return Err(NotWaiting); }
      LetOthers(DISCARD, o);
      if o.faults(DISCARD).Effective() {
        changes := changes[id := row.(status := Discarded)];
      }
      return if o.faults(DISCARD).Reported() then Err(StoreFailed) else Ok(());
    }

    /** ApplyStagedConfigChange: one transaction, taken back entirely on any failure. */
    method ApplyStagedConfigChange(id: string, stamp: Json) returns (r: Result<(), Failure>)
      modifies this`configs, this`changes
      ensures match ApplyChange(env, old(Contents()), id, stamp)
        case Ok(s) => r.Ok? && Contents() == s
        case Err(e) => r == Err(e) && Contents() == old(Contents())
    {
      ghost var s := Contents();
      if id !in changes || changes[id].status != Waiting { return Err(NotWaiting); }
      var row := changes[id];
      var live := if row.serverId in configs then configs[row.serverId] else env.defaults(row.serverId);
      assert live == Live(env, s, row.serverId);
      if !FieldsAllowed(live, row.payload) { return Err(UnknownField); }
      var same := StagedConfigStillMatches(live, row.base);
      if !same { return Err(Moved); }
      var previous := Capture(live, row.payload);
      var merged := MergeMaps(live, row.payload);
      if exists f :: f in merged && !env.accepts(f, merged[f]) { return Err(Invalid); }
      if !env.accepts(UPDATED_AT, stamp) { return Err(Invalid); }
      configs := configs[row.serverId := Saved(live, merged, stamp)];
      changes := changes[id := row.(previous := Some(previous), status := Applied)];
      return Ok(());
    }

    /** RollbackStagedConfigChange: one transaction, taken back entirely on any failure. */
    method RollbackStagedConfigChange(id: string, stamp: Json) returns (r: Result<(), Failure>)
      modifies this`configs, this`changes
      ensures match RollBackChange(env, old(Contents()), id, stamp)
        case Ok(s) => r.Ok? && Contents() == s
        case Err(e) => r == Err(e) && Contents() == old(Contents())
    {
      ghost var s := Contents();
      if id !in changes || changes[id].status != Applied { return Err(NotApplied); }
      var row := changes[id];
      if row.previous.None? { return Err(NoPrevious); }
      var live := if row.serverId in configs then configs[row.serverId] else env.defaults(row.serverId);
      assert live == Live(env, s, row.serverId);
      var merged := MergeMaps(live, row.previous.value);
      if exists f :: f in merged && !env.accepts(f, merged[f]) { return Err(Invalid); }
      if !env.accepts(UPDATED_AT, stamp) { return Err(Invalid); }
      configs := configs[row.serverId := Saved(live, merged, stamp)];
      changes := changes[id := row.(status := RolledBack)];
      return Ok(());
    }
  }
}
