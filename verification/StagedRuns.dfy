/** Whole sequences of applies and rollbacks of staged configuration
    (internal/db/staged_config.go). */
module StagedRuns {
  import opened Wrappers
  import opened StagedConfig

  /** A change with the time stamp its save puts on the row. */
  datatype Stamped = Stamped(id: string, stamp: Json)

  function ApplyAll(env: Env, s: State, steps: seq<Stamped>): Result<State, Failure>
    decreases steps
  {
    if steps == [] then Ok(s)
    else match ApplyChange(env, s, steps[0].id, steps[0].stamp)
      case Err(e) => Err(e)
      case Ok(s1) => ApplyAll(env, s1, steps[1..])
  }

  function RollBackAll(env: Env, s: State, steps: seq<Stamped>): Result<State, Failure>
    decreases steps
  {
    if steps == [] then Ok(s)
    else match RollBackChange(env, s, steps[0].id, steps[0].stamp)
      case Err(e) => Err(e)
      case Ok(s1) => RollBackAll(env, s1, steps[1..])
  }

  /** The configs agree on every field but the time stamp. */
  ghost predicate SameFields(a: Config, b: Config) {
    a.Keys == b.Keys && forall f :: f in a && f != UPDATED_AT ==> a[f] == b[f]
  }

  ghost predicate SameConfigs(env: Env, s: State, t: State) {
    forall server :: SameFields(Live(env, s, server), Live(env, t, server))
  }

  // ---------------------------------------------------------------- reverse order

  /** Writing the snapshot over the outcome of an apply gives the fields back, whatever the diff. */
  lemma FieldsComeBack(live: Config, payload: Config, stamp: Json, after: Config, stamp': Json)
    requires {ID, SERVER_ID, UPDATED_AT} <= live.Keys && payload.Keys <= live.Keys
    requires SameFields(Saved(live, Merge(live, payload), stamp), after)
    ensures SameFields(live, Saved(after, Merge(after, Snapshot(live, payload)), stamp'))
  {
  }

  lemma LiveAfterApply(env: Env, s: State, id: string, stamp: Json, server: string)
    requires ApplyChange(env, s, id, stamp).Ok?
    ensures var live := Live(env, s, server);
      Live(env, ApplyChange(env, s, id, stamp).value, server) ==
        if server == s.changes[id].serverId then Saved(live, Merge(live, s.changes[id].payload), stamp) else live
  {
  }

  lemma LiveAfterRollBack(env: Env, s: State, id: string, stamp: Json, server: string)
    requires RollBackChange(env, s, id, stamp).Ok?
    ensures var live := Live(env, s, server);
      Live(env, RollBackChange(env, s, id, stamp).value, server) ==
        if server == s.changes[id].serverId then Saved(live, Merge(live, s.changes[id].previous.value), stamp) else live
  {
  }

  /** Rolling a change back right after applying it restores every field but the time stamp,
      whatever the values of the diff and whether or not the server had a config row before. */
  lemma RollBackUndoesApply(env: Env, s: State, id: string, stamp: Json, t: State, stamp': Json)
    requires Sane(env) && Sound(env, s) && ApplyChange(env, s, id, stamp).Ok?
    requires SameConfigs(env, ApplyChange(env, s, id, stamp).value, t)
    requires id in t.changes && t.changes[id] == ApplyChange(env, s, id, stamp).value.changes[id]
    requires RollBackChange(env, t, id, stamp').Ok?
    ensures SameConfigs(env, s, RollBackChange(env, t, id, stamp').value)
  {
    var s1, t1 := ApplyChange(env, s, id, stamp).value, RollBackChange(env, t, id, stamp').value;
    var payload := s.changes[id].payload;
    forall server
      ensures SameFields(Live(env, s, server), Live(env, t1, server))
    {
      LiveAfterApply(env, s, id, stamp, server);
      LiveAfterRollBack(env, t, id, stamp', server);
      assert SameFields(Live(env, s1, server), Live(env, t, server));
      if server == s.changes[id].serverId {
        assert WellFormed(env, Live(env, s, server));
        FieldsComeBack(Live(env, s, server), payload, stamp, Live(env, t, server), stamp');
      }
    }
  }

  function Reversed(steps: seq<Stamped>): seq<Stamped> {
    if steps == [] then [] else Reversed(steps[1..]) + [steps[0]]
  }

  lemma {:induction false} RollBackAllAppends(env: Env, s: State, steps: seq<Stamped>, last: Stamped)
    ensures RollBackAll(env, s, steps + [last]) ==
      match RollBackAll(env, s, steps) case Err(e) => Err(e) case Ok(t) => RollBackChange(env, t, last.id, last.stamp)
    decreases steps
  {
    if steps == [] {
      assert steps + [last] == [last] && [last][1..] == [];
    } else {
      assert (steps + [last])[1..] == steps[1..] + [last];
      if RollBackChange(env, s, steps[0].id, steps[0].stamp).Ok? {
        RollBackAllAppends(env, RollBackChange(env, s, steps[0].id, steps[0].stamp).value, steps[1..], last);
      }
    }
  }

  ghost predicate StampsAccepted(env: Env, steps: seq<Stamped>) {
    forall i :: 0 <= i < |steps| ==> env.accepts(UPDATED_AT, steps[i].stamp)
  }

  ghost predicate Elsewhere(steps: seq<Stamped>, id: string) {
    forall i :: 0 <= i < |steps| ==> steps[i].id != id
  }

  /** Rows that a sequence does not name keep still. */
  lemma {:induction false} ApplyAllTouchesOnlyItsOwn(env: Env, s: State, steps: seq<Stamped>, id: string)
    requires ApplyAll(env, s, steps).Ok? && id in s.changes && s.changes[id].status != Waiting
    ensures Elsewhere(steps, id) && id in ApplyAll(env, s, steps).value.changes
    ensures ApplyAll(env, s, steps).value.changes[id] == s.changes[id]
    decreases steps
  {
    if steps != [] {
      ApplyAllTouchesOnlyItsOwn(env, ApplyChange(env, s, steps[0].id, steps[0].stamp).value, steps[1..], id);
    }
  }

  /** `t` is what `s` was: the same config fields, and the same rows apart from those named. */
  ghost predicate Restored(env: Env, s: State, t: State, steps: seq<Stamped>) {
    && Sound(env, t)
    && SameConfigs(env, s, t)
    && forall id :: id in s.changes && Elsewhere(steps, id) ==> id in t.changes && t.changes[id] == s.changes[id]
  }

  lemma ElsewhereInRest(steps: seq<Stamped>, id: string)
    requires steps != []
    ensures Elsewhere(steps, id) <==> steps[0].id != id && Elsewhere(steps[1..], id)
  {
    if steps[0].id != id && Elsewhere(steps[1..], id) {
      forall i | 0 <= i < |steps| ensures steps[i].id != id {
        if i > 0 { assert steps[1..][i - 1].id != id; }
      }
    }
    if Elsewhere(steps, id) {
      forall i | 0 <= i < |steps[1..]| ensures steps[1..][i].id != id { assert steps[i + 1].id != id; }
    }
  }

  /** One more layer: apply, then anything that restores, then the rollback of the first. */
  lemma RestoredOuter(env: Env, s: State, step: Stamped, stamp: Json, rest: seq<Stamped>, t: State)
    requires Sane(env) && Sound(env, s) && ApplyChange(env, s, step.id, step.stamp).Ok?
    requires Restored(env, ApplyChange(env, s, step.id, step.stamp).value, t, rest) && Elsewhere(rest, step.id)
    requires env.accepts(UPDATED_AT, stamp)
    ensures RollBackChange(env, t, step.id, stamp).Ok?
    ensures Restored(env, s, RollBackChange(env, t, step.id, stamp).value, [step] + rest)
  {
    var a := ApplyChange(env, s, step.id, step.stamp).value;
    assert step.id in a.changes && a.changes[step.id].status == Applied && a.changes[step.id].previous.Some?;
    AppliedChangeRollsBack(env, t, step.id, stamp);
    RollBackUndoesApply(env, s, step.id, step.stamp, t, stamp);
    RollBackKeepsSound(env, t, step.id, stamp);
    forall other | other in s.changes && Elsewhere([step] + rest, other)
      ensures other != step.id && other in t.changes && t.changes[other] == s.changes[other]
    {
      ElsewhereInRest([step] + rest, other);
      assert ([step] + rest)[1..] == rest;
    }
  }

  /** Applying any sequence of staged changes and rolling them back in reverse order succeeds and
      restores every config field of every server except the time stamp, however the changes
      overlap. Rows outside the sequence are as they were. */
  lemma {:induction false} ReverseRollbackRestores(env: Env, s: State, steps: seq<Stamped>, undo: seq<Stamped>)
    requires Sane(env) && Sound(env, s) && ApplyAll(env, s, steps).Ok?
    requires |undo| == |steps| && StampsAccepted(env, undo)
    requires forall i :: 0 <= i < |steps| ==> undo[i].id == steps[i].id
    ensures RollBackAll(env, ApplyAll(env, s, steps).value, Reversed(undo)).Ok?
    ensures Restored(env, s, RollBackAll(env, ApplyAll(env, s, steps).value, Reversed(undo)).value, steps)
    decreases steps
  {
    if steps != [] {
      var id, stamp := steps[0].id, steps[0].stamp;
      var a := ApplyChange(env, s, id, stamp).value;
      ApplyKeepsSound(env, s, id, stamp);
      ReverseRollbackRestores(env, a, steps[1..], undo[1..]);
      ApplyAllTouchesOnlyItsOwn(env, a, steps[1..], id);
      var b := RollBackAll(env, ApplyAll(env, s, steps).value, Reversed(undo[1..])).value;
      RestoredOuter(env, s, steps[0], undo[0].stamp, steps[1..], b);
      RollBackAllAppends(env, ApplyAll(env, s, steps).value, Reversed(undo[1..]), undo[0]);
      assert [steps[0]] + steps[1..] == steps;
    }
  }
}
