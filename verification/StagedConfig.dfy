/** The algebra of staged configuration: diffs against the live config, optimistic conflict
    detection, apply and rollback (internal/db/staged_config.go). A config is the map of its
    JSON fields; values are already in the normal form that a JSON round trip leaves. */
module StagedConfig {
  import opened Wrappers

  datatype Json = Null | Value(text: string)

  type Config = map<string, Json>

  const ID := "id"
  const SERVER_ID := "server_id"
  const UPDATED_AT := "updated_at"

  /** The config schema, its field types, the defaults of a server without a config row, and the
      cron grammar. */
  datatype Env = Env(
    schema: set<string>, accepts: (string, Json) -> bool, defaults: string -> Config, cronParses: string -> bool)

  predicate WellFormed(env: Env, c: Config) {
    c.Keys == env.schema && forall f :: f in c ==> env.accepts(f, c[f])
  }

  ghost predicate Sane(env: Env) {
    {ID, SERVER_ID, UPDATED_AT} <= env.schema && forall server :: WellFormed(env, env.defaults(server))
  }

  datatype Status = Waiting | Applied | Discarded | RolledBack

  const ON_RESTART := "on_restart"
  const SCHEDULED := "scheduled"
  const AT_TIME := "at_time"
  const WHEN_IDLE := "idle"
  const ZERO_TIME := 0

  /** When a change is to be applied. */
  datatype Timing = Timing(mode: string, cron: string, applyAt: Option<int>, idleMinutes: int)

  /** A recorded change; `base` is absent on rows from before conflict detection. */
  datatype Change = Change(
    serverId: string, batchId: string, payload: Config, base: Option<Config>, previous: Option<Config>,
    timing: Timing, status: Status)

  datatype BatchStatus = Open | BatchApplied | BatchDiscarded

  datatype Batch = Batch(
    serverId: string, openKey: Option<string>, window: string,
    applyAt: Option<int>, idleMinutes: int, status: BatchStatus)

  datatype State = State(configs: map<string, Config>, changes: map<string, Change>, batches: map<string, Batch>)

  datatype Failure =
    | BadRequest | NoServer | UnknownField | NoDifference
    | NotWaiting | NotApplied | Moved | Invalid | NoPrevious | NotFound | BatchGone | KeyTaken | StoreFailed

  // ---------------------------------------------------------------- pure parts

  /** The wanted values that differ from the current ones. */
  function Diff(current: Config, desired: Config): Config {
    map f | f in desired && (f !in current || current[f] != desired[f]) :: desired[f]
  }

  function Merge(base: Config, overlay: Config): Config {
    base + overlay
  }

  /** The current values of the fields of a diff. */
  function Snapshot(current: Config, diff: Config): Config {
    map f | f in diff :: if f in current then current[f] else Null
  }

  predicate StillMatches(live: Config, base: Config) {
    forall f :: f in base ==> (if f in live then live[f] else Null) == base[f]
  }

  predicate FieldsAllowed(live: Config, changes: Config) {
    forall f :: f in changes ==> f != ID && f != "serverId" && f in live
  }

  /** What a save stores: the merged fields under the identity of the live row, restamped. */
  function Saved(live: Config, merged: Config, stamp: Json): Config {
    map f | f in merged ::
      if f == UPDATED_AT then stamp
      else if (f == ID || f == SERVER_ID) && f in live then live[f]
      else merged[f]
  }

  function Live(env: Env, s: State, server: string): Config {
    if server in s.configs then s.configs[server] else env.defaults(server)
  }

  /** Laying the diff over the current config gives what laying all wanted values over it gives. */
  lemma DiffSuffices(current: Config, desired: Config)
    ensures Merge(current, Diff(current, desired)) == Merge(current, desired)
  {
  }

  /** The diff is the least overlay that does so; it is empty exactly when nothing is to change. */
  lemma DiffIsLeast(current: Config, desired: Config, overlay: Config)
    requires Merge(current, overlay) == Merge(current, desired)
    ensures Diff(current, desired).Keys <= overlay.Keys
    ensures Diff(current, desired) == map[] <==> Merge(current, desired) == current
  {
    var diff, merged := Diff(current, desired), Merge(current, desired);
    forall f | f in diff
      ensures f in overlay && merged != current
    {
      assert merged[f] == desired[f] && f in Merge(current, overlay);
    }
    DiffSuffices(current, desired);
  }

  /** Laying a diff over a config and then its snapshot gives the config back. */
  lemma SnapshotUndoes(live: Config, diff: Config)
    requires diff.Keys <= live.Keys
    ensures Merge(Merge(live, diff), Snapshot(live, diff)) == live
    ensures StillMatches(live, Snapshot(live, diff))
  {
  }

  // ---------------------------------------------------------------- transactions

  ghost predicate Sound(env: Env, s: State) {
    && (forall server :: server in s.configs ==> WellFormed(env, s.configs[server]))
    && (forall id :: id in s.changes ==> ChangeSound(env, s.changes[id]))
    && BatchesSound(s.batches)
  }

  /** What is recorded about an applied change is always fit to be written back. */
  ghost predicate ChangeSound(env: Env, c: Change) {
    c.previous.Some? ==>
      c.previous.value.Keys <= env.schema && forall f :: f in c.previous.value ==> env.accepts(f, c.previous.value[f])
  }

  /** A batch carries its server as open key exactly while it is open, and no two carry the same:
      a server has at most one open batch. */
  predicate BatchesSound(batches: map<string, Batch>) {
    && (forall b :: b in batches ==>
          batches[b].openKey == if batches[b].status == Open then Some(batches[b].serverId) else None)
    && (forall a, b ::
          a in batches && b in batches && batches[a].openKey.Some? && batches[a].openKey == batches[b].openKey ==>
            a == b)
  }

  function ApplyChange(env: Env, s: State, id: string, stamp: Json): Result<State, Failure>
  {
    if id !in s.changes || s.changes[id].status != Waiting then Err(NotWaiting)
    else
      var row := s.changes[id];
      var live := Live(env, s, row.serverId);
      if !FieldsAllowed(live, row.payload) then Err(UnknownField)
      else if row.base.Some? && !StillMatches(live, row.base.value) then Err(Moved)
      else
        var merged := Merge(live, row.payload);
        if exists f :: f in merged && !env.accepts(f, merged[f]) then Err(Invalid)
        else if !env.accepts(UPDATED_AT, stamp) then Err(Invalid)
        else Ok(s.(configs := s.configs[row.serverId := Saved(live, merged, stamp)],
                   changes := s.changes[id := row.(previous := Some(Snapshot(live, row.payload)), status := Applied)]))
  }

  function RollBackChange(env: Env, s: State, id: string, stamp: Json): Result<State, Failure>
  {
    if id !in s.changes || s.changes[id].status != Applied then Err(NotApplied)
    else
      var row := s.changes[id];
      if row.previous.None? then Err(NoPrevious)
      else
        var live := Live(env, s, row.serverId);
        var merged := Merge(live, row.previous.value);
        if exists f :: f in merged && !env.accepts(f, merged[f]) then Err(Invalid)
        else if !env.accepts(UPDATED_AT, stamp) then Err(Invalid)
        else Ok(s.(configs := s.configs[row.serverId := Saved(live, merged, stamp)],
                   changes := s.changes[id := row.(status := RolledBack)]))
  }

  /** What an apply does, field by field, and when it refuses. */
  lemma ApplyMeans(env: Env, s: State, id: string, stamp: Json)
    ensures ApplyChange(env, s, id, stamp).Ok? ==>
      var t := ApplyChange(env, s, id, stamp).value;
      && id in s.changes && s.changes[id].status == Waiting
      && var row := s.changes[id];
         var live := if row.serverId in s.configs then s.configs[row.serverId] else env.defaults(row.serverId);
         && t.batches == s.batches && t.changes.Keys == s.changes.Keys && row.serverId in t.configs
         && (forall i :: i in s.changes && i != id ==> t.changes[i] == s.changes[i])
         && (forall server :: server in s.configs && server != row.serverId ==>
               server in t.configs && t.configs[server] == s.configs[server])
         && (forall f :: f in row.payload ==> f !in {"id", "serverId"} && f in live)
         && (forall f :: row.base.Some? && f in row.base.value ==>
               row.base.value[f] == if f in live then live[f] else Null)
         && t.changes[id] == row.(status := Applied, previous := t.changes[id].previous)
         && t.changes[id].previous.Some? && t.changes[id].previous.value.Keys == row.payload.Keys
         && (forall f :: f in row.payload ==> t.changes[id].previous.value[f] == live[f])
         && t.configs[row.serverId].Keys == live.Keys
         && (forall f :: f in live && f !in {"id", "server_id", "updated_at"} ==>
               t.configs[row.serverId][f] == if f in row.payload then row.payload[f] else live[f])
         && (forall f :: f in live && f in {"id", "server_id"} ==> t.configs[row.serverId][f] == live[f])
         && ("updated_at" in live ==> t.configs[row.serverId]["updated_at"] == stamp)
    ensures ApplyChange(env, s, id, stamp) == Err(NotWaiting) <==> id !in s.changes || s.changes[id].status != Waiting
    ensures ApplyChange(env, s, id, stamp) == Err(Moved) ==>
      id in s.changes && s.changes[id].base.Some?
      && var live := Live(env, s, s.changes[id].serverId);
         exists f :: f in s.changes[id].base.value
                     && s.changes[id].base.value[f] != if f in live then live[f] else Null
    ensures ApplyChange(env, s, id, stamp) == Err(UnknownField) ==>
      id in s.changes
      && exists f :: f in s.changes[id].payload
                     && (f in {"id", "serverId"} || f !in Live(env, s, s.changes[id].serverId))
    ensures ApplyChange(env, s, id, stamp) == Err(Invalid) ==>
      id in s.changes
      && (!env.accepts("updated_at", stamp)
          || exists f :: f in Merge(Live(env, s, s.changes[id].serverId), s.changes[id].payload)
                         && !env.accepts(f, Merge(Live(env, s, s.changes[id].serverId), s.changes[id].payload)[f]))
    ensures ApplyChange(env, s, id, stamp).Ok?
      || ApplyChange(env, s, id, stamp).error in {NotWaiting, UnknownField, Moved, Invalid}
  {
  }

  /** What a rollback does, field by field. */
  lemma RollBackMeans(env: Env, s: State, id: string, stamp: Json)
    ensures RollBackChange(env, s, id, stamp).Ok? ==>
      var t := RollBackChange(env, s, id, stamp).value;
      && id in s.changes && s.changes[id].status == Applied && s.changes[id].previous.Some?
      && var row := s.changes[id];
         var live := if row.serverId in s.configs then s.configs[row.serverId] else env.defaults(row.serverId);
         && t.batches == s.batches && t.changes == s.changes[id := row.(status := RolledBack)]
         && row.serverId in t.configs
         && (forall server :: server in s.configs && server != row.serverId ==>
               server in t.configs && t.configs[server] == s.configs[server])
         && (forall f :: f in live && f !in {"id", "server_id", "updated_at"} ==>
               f in t.configs[row.serverId]
               && t.configs[row.serverId][f] == if f in row.previous.value then row.previous.value[f] else live[f])
         && (forall f :: f in live && f in {"id", "server_id"} ==>
               f in t.configs[row.serverId] && t.configs[row.serverId][f] == live[f])
    ensures RollBackChange(env, s, id, stamp) == Err(NotApplied) <==>
      id !in s.changes || s.changes[id].status != Applied
    ensures RollBackChange(env, s, id, stamp) == Err(NoPrevious) <==>
      id in s.changes && s.changes[id].status == Applied && s.changes[id].previous.None?
  {
  }

  /** A record made against a live config: only fields that really differ, with their values. */
  ghost predicate RecordedAgainst(c: Change, live: Config) {
    && c.payload != map[] && FieldsAllowed(live, c.payload)
    && (forall f :: f in c.payload ==> c.payload[f] != live[f])
    && c.base == Some(Snapshot(live, c.payload))
  }

  lemma SavedIsWellFormed(env: Env, live: Config, overlay: Config, stamp: Json)
    requires Sane(env) && WellFormed(env, live) && overlay.Keys <= env.schema
    requires forall f :: f in Merge(live, overlay) ==> env.accepts(f, Merge(live, overlay)[f])
    requires env.accepts(UPDATED_AT, stamp)
    ensures WellFormed(env, Saved(live, Merge(live, overlay), stamp))
  {
  }

  lemma SnapshotIsAccepted(env: Env, live: Config, payload: Config)
    requires WellFormed(env, live) && FieldsAllowed(live, payload)
    ensures Snapshot(live, payload).Keys <= env.schema
    ensures forall f :: f in Snapshot(live, payload) ==> env.accepts(f, Snapshot(live, payload)[f])
  {
  }

  lemma ApplyKeepsSound(env: Env, s: State, id: string, stamp: Json)
    requires Sane(env) && Sound(env, s)
    ensures ApplyChange(env, s, id, stamp).Ok? ==> Sound(env, ApplyChange(env, s, id, stamp).value)
  {
    if ApplyChange(env, s, id, stamp).Ok? {
      var row := s.changes[id];
      var live := Live(env, s, row.serverId);
      SavedIsWellFormed(env, live, row.payload, stamp);
      SnapshotIsAccepted(env, live, row.payload);
      var s' := ApplyChange(env, s, id, stamp).value;
      assert forall i :: i in s'.changes ==> i == id || s'.changes[i] == s.changes[i];
    }
  }

  lemma RollBackKeepsSound(env: Env, s: State, id: string, stamp: Json)
    requires Sane(env) && Sound(env, s)
    ensures RollBackChange(env, s, id, stamp).Ok? ==> Sound(env, RollBackChange(env, s, id, stamp).value)
  {
    if RollBackChange(env, s, id, stamp).Ok? {
      var row := s.changes[id];
      assert ChangeSound(env, row);
      SavedIsWellFormed(env, Live(env, s, row.serverId), row.previous.value, stamp);
      var s' := RollBackChange(env, s, id, stamp).value;
      assert forall i :: i in s'.changes ==> i == id || s'.changes[i] == s.changes[i];
    }
  }

  /** Undoing an applied change can only fail for its status, never for its values. */
  lemma AppliedChangeRollsBack(env: Env, s: State, id: string, stamp: Json)
    requires Sane(env) && Sound(env, s) && env.accepts(UPDATED_AT, stamp)
    requires id in s.changes && s.changes[id].status == Applied && s.changes[id].previous.Some?
    ensures RollBackChange(env, s, id, stamp).Ok?
  {
    var row := s.changes[id];
    var live := Live(env, s, row.serverId);
    assert ChangeSound(env, row) && WellFormed(env, live);
    var merged := Merge(live, row.previous.value);
    forall f | f in merged ensures env.accepts(f, merged[f]) {
      if f in row.previous.value {
      } else {
        assert f in live && merged[f] == live[f];
      }
    }
  }
}
