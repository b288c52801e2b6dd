/** Which staged changes exclude each other, and which may be undone in any order
    (internal/db/staged_config.go). */
module StagedOrder {
  import opened Wrappers
  import opened StagedConfig
  import opened StagedRuns

  // ---------------------------------------------------------------- conflicts

  /** Fields whose stored value no payload decides: the row identity and the time stamp. */
  predicate Kept(f: string) {
    f == ID || f == SERVER_ID || f == UPDATED_AT
  }

  /** Two changes of one server share no field that a save takes from a payload. */
  predicate Apart(a: Change, b: Change) {
    a.serverId == b.serverId ==> forall f :: f in a.payload && f in b.payload ==> Kept(f)
  }

  /** A waiting row recorded against a config of which one field has since moved. */
  lemma MovedFieldRefuses(env: Env, s: State, id: string, live: Config, f: string, stamp: Json)
    requires Sane(env) && Sound(env, s) && WellFormed(env, live)
    requires id in s.changes && s.changes[id].status == Waiting
    requires RecordedAgainst(s.changes[id], live) && f in s.changes[id].payload
    ensures f in Live(env, s, s.changes[id].serverId)
    ensures Live(env, s, s.changes[id].serverId)[f] != live[f] ==> ApplyChange(env, s, id, stamp) == Err(Moved)
  {
    var row := s.changes[id];
    var now := Live(env, s, row.serverId);
    assert WellFormed(env, now);
    assert FieldsAllowed(now, row.payload);
    assert f in row.base.value && row.base.value[f] == live[f];
  }

  /** What an apply does to a field of a change recorded against `live`. */
  lemma AppliedFieldMoves(env: Env, s: State, id: string, live: Config, f: string, stamp: Json)
    requires Sane(env) && Sound(env, s) && WellFormed(env, live)
    requires ApplyChange(env, s, id, stamp).Ok?
    requires RecordedAgainst(s.changes[id], live) && f in s.changes[id].payload
    ensures var after := Live(env, ApplyChange(env, s, id, stamp).value, s.changes[id].serverId);
      f in after && (after[f] != live[f] <==> f != SERVER_ID && (f == UPDATED_AT ==> stamp != live[f]))
  {
    var row := s.changes[id];
    var now := Live(env, s, row.serverId);
    LiveAfterApply(env, s, id, stamp, row.serverId);
    MovedFieldRefuses(env, s, id, live, f, stamp);
    assert now[f] == live[f] && row.payload[f] != live[f];
  }

  /** Of two changes recorded against the same live config that could both be applied, applying one
      gets the other refused as moved exactly when they share a field that is stored from the
      payload, or when the other one names the time stamp, which every save moves. The field
      "server_id" may be staged, is never stored, and so never conflicts. */
  lemma SharedFieldExcludes(env: Env, s: State, a: string, b: string, live: Config, stamp: Json, stamp': Json)
    requires Sane(env) && Sound(env, s) && WellFormed(env, live) && ApplyChange(env, s, a, stamp).Ok?
    requires b in s.changes && b != a && s.changes[b].serverId == s.changes[a].serverId
    requires s.changes[b].status == Waiting
    requires RecordedAgainst(s.changes[a], live) && RecordedAgainst(s.changes[b], live)
    requires StillMatches(Live(env, s, s.changes[b].serverId), s.changes[b].base.value)
    ensures ApplyChange(env, ApplyChange(env, s, a, stamp).value, b, stamp') == Err(Moved) <==>
      !Apart(s.changes[a], s.changes[b]) || (UPDATED_AT in s.changes[b].payload && stamp != live[UPDATED_AT])
  {
    var server, pa, pb := s.changes[a].serverId, s.changes[a].payload, s.changes[b].payload;
    var before, base := Live(env, s, server), s.changes[b].base.value;
    OtherStaysReady(env, s, a, b, live, stamp, stamp');
    var after := Live(env, ApplyChange(env, s, a, stamp).value, server);
    if f :| f in pa && f in pb && !Kept(f) {
      AppliedFieldMoves(env, s, a, live, f, stamp);
      assert f in base && base[f] == live[f];
    } else if UPDATED_AT in pb && stamp != live[UPDATED_AT] {
      assert UPDATED_AT in base && after[UPDATED_AT] == stamp;
    } else {
      UntouchedStillMatches(before, pa, stamp, base);
    }
  }

  /** After another change is applied, only its base decides whether a waiting row is refused as moved. */
  lemma OtherStaysReady(env: Env, s: State, a: string, b: string, live: Config, stamp: Json, stamp': Json)
    requires Sane(env) && Sound(env, s) && WellFormed(env, live) && ApplyChange(env, s, a, stamp).Ok?
    requires b in s.changes && b != a && s.changes[b].serverId == s.changes[a].serverId
    requires s.changes[b].status == Waiting
    requires RecordedAgainst(s.changes[b], live)
    ensures var before := Live(env, s, s.changes[a].serverId);
      var after := Live(env, ApplyChange(env, s, a, stamp).value, s.changes[a].serverId);
      && before.Keys == env.schema && after == Saved(before, Merge(before, s.changes[a].payload), stamp)
      && (ApplyChange(env, ApplyChange(env, s, a, stamp).value, b, stamp') == Err(Moved) <==>
            !StillMatches(after, s.changes[b].base.value))
  {
    LiveAfterApply(env, s, a, stamp, s.changes[a].serverId);
    var before := Live(env, s, s.changes[a].serverId);
    assert WellFormed(env, before);
    assert FieldsAllowed(Live(env, ApplyChange(env, s, a, stamp).value, s.changes[a].serverId), s.changes[b].payload);
  }

  /** A save that moves none of the fields of a base leaves it matching. */
  lemma UntouchedStillMatches(live: Config, payload: Config, stamp: Json, base: Config)
    requires StillMatches(live, base) && {ID, SERVER_ID, UPDATED_AT} <= live.Keys
    requires forall f :: f in payload && f in base ==> Kept(f)
    requires UPDATED_AT in base ==> base[UPDATED_AT] == stamp
    ensures StillMatches(Saved(live, Merge(live, payload), stamp), base)
  {
  }

  // ---------------------------------------------------------------- one base

  function Ids(steps: seq<Stamped>): set<string> {
    if steps == [] then {} else {steps[0].id} + Ids(steps[1..])
  }

  /** Rows recorded against the config their server had at one moment. */
  ghost predicate OneBase(env: Env, s: State, ids: set<string>, bases: string -> Config) {
    forall id :: id in ids ==>
      id in s.changes && WellFormed(env, bases(s.changes[id].serverId))
      && RecordedAgainst(s.changes[id], bases(s.changes[id].serverId))
  }

  /** The stored field `f` of a server is away from its value in `bases`. */
  ghost predicate Away(env: Env, s: State, server: string, f: string, bases: string -> Config) {
    f in bases(server) && f in Live(env, s, server) && Live(env, s, server)[f] != bases(server)[f]
  }

  ghost predicate PairwiseApart(s: State, ids: set<string>) {
    forall a, b :: a in ids && b in ids && a in s.changes && b in s.changes && a != b ==>
      Apart(s.changes[a], s.changes[b])
  }

  /** An apply only leaves fields of its own server in a row that took none of them from elsewhere. */
  lemma StaysAway(env: Env, s: State, id: string, stamp: Json, server: string, f: string, bases: string -> Config)
    requires Sane(env) && Sound(env, s) && ApplyChange(env, s, id, stamp).Ok?
    requires OneBase(env, s, {id}, bases) && Away(env, s, server, f, bases) && !Kept(f)
    ensures Away(env, ApplyChange(env, s, id, stamp).value, server, f, bases)
    ensures s.changes[id].serverId == server ==> f !in s.changes[id].payload
  {
    var row := s.changes[id];
    assert id in {id};
    LiveAfterApply(env, s, id, stamp, server);
    if row.serverId == server && f in row.payload {
      MovedFieldRefuses(env, s, id, bases(server), f, stamp);
    }
  }

  /** While a field is away, no change recorded against its old value gets through. */
  lemma {:induction false} AwayFieldIsLeftAlone(
    env: Env, s: State, steps: seq<Stamped>, server: string, f: string, bases: string -> Config)
    requires Sane(env) && Sound(env, s) && ApplyAll(env, s, steps).Ok?
    requires OneBase(env, s, Ids(steps), bases) && Away(env, s, server, f, bases) && !Kept(f)
    ensures forall id :: id in Ids(steps) && s.changes[id].serverId == server ==> f !in s.changes[id].payload
    decreases steps
  {
    if steps != [] {
      var id, stamp := steps[0].id, steps[0].stamp;
      var s1 := ApplyChange(env, s, id, stamp).value;
      assert OneBase(env, s, {id}, bases);
      StaysAway(env, s, id, stamp, server, f, bases);
      ApplyKeepsSound(env, s, id, stamp);
      RowsKeepTheirRecord(env, s, id, stamp);
      AwayFieldIsLeftAlone(env, s1, steps[1..], server, f, bases);
    }
  }

  /** An apply changes nothing recorded about what a row is to change. */
  lemma RowsKeepTheirRecord(env: Env, s: State, id: string, stamp: Json)
    requires ApplyChange(env, s, id, stamp).Ok?
    ensures var s1 := ApplyChange(env, s, id, stamp).value;
      s1.changes.Keys == s.changes.Keys
      && forall i :: i in s.changes ==>
           s1.changes[i].serverId == s.changes[i].serverId && s1.changes[i].payload == s.changes[i].payload
           && s1.changes[i].base == s.changes[i].base
  {
  }

  lemma FirstIsApart(env: Env, s: State, steps: seq<Stamped>, bases: string -> Config)
    requires Sane(env) && Sound(env, s) && ApplyAll(env, s, steps).Ok? && steps != []
    requires OneBase(env, s, Ids(steps), bases)
    ensures forall id :: id in Ids(steps[1..]) ==> Apart(s.changes[steps[0].id], s.changes[id])
  {
    var id, stamp := steps[0].id, steps[0].stamp;
    var s1, row := ApplyChange(env, s, id, stamp).value, s.changes[id];
    ApplyKeepsSound(env, s, id, stamp);
    RowsKeepTheirRecord(env, s, id, stamp);
    forall f | f in row.payload && !Kept(f)
      ensures forall i :: i in Ids(steps[1..]) && s.changes[i].serverId == row.serverId ==> f !in s.changes[i].payload
    {
      AppliedFieldMoves(env, s, id, bases(row.serverId), f, stamp);
      AwayFieldIsLeftAlone(env, s1, steps[1..], row.serverId, f, bases);
    }
  }

  /** Changes recorded against the same configs that all get applied touch different fields. */
  lemma {:induction false} AppliedTogetherAreApart(env: Env, s: State, steps: seq<Stamped>, bases: string -> Config)
    requires Sane(env) && Sound(env, s) && ApplyAll(env, s, steps).Ok?
    requires OneBase(env, s, Ids(steps), bases)
    ensures PairwiseApart(s, Ids(steps))
    decreases steps
  {
    if steps != [] {
      var id, stamp := steps[0].id, steps[0].stamp;
      var s1 := ApplyChange(env, s, id, stamp).value;
      ApplyKeepsSound(env, s, id, stamp);
      RowsKeepTheirRecord(env, s, id, stamp);
      AppliedTogetherAreApart(env, s1, steps[1..], bases);
      FirstIsApart(env, s, steps, bases);
      OneMoreApart(s, s1, id, Ids(steps[1..]));
    }
  }

  lemma OneMoreApart(s: State, s1: State, id: string, rest: set<string>)
    requires id in s.changes && rest <= s.changes.Keys <= s1.changes.Keys && PairwiseApart(s1, rest)
    requires forall i :: i in rest ==>
      s1.changes[i].serverId == s.changes[i].serverId && s1.changes[i].payload == s.changes[i].payload
    requires forall i :: i in rest ==> Apart(s.changes[id], s.changes[i])
    ensures PairwiseApart(s, {id} + rest)
  {
    forall a, b | a in {id} + rest && b in {id} + rest && a != b
      ensures Apart(s.changes[a], s.changes[b])
    {
      if a != id && b != id { assert Apart(s1.changes[a], s1.changes[b]); }
    }
  }

  // ---------------------------------------------------------------- any order

  /** A field is moved by the rows in `out`, or is one that every save moves. */
  ghost predicate Touched(s: State, out: set<string>, server: string, f: string) {
    f == UPDATED_AT
    || (!Kept(f)
        && exists id ::
             id in out && id in s.changes && s.changes[id].serverId == server && f in s.changes[id].payload)
  }

  /** Every field of the server that no row in `out` moves has the value it had in `s`. */
  ghost predicate Untouched(env: Env, s: State, t: State, out: set<string>, server: string) {
    && Live(env, t, server).Keys == Live(env, s, server).Keys
    && forall f :: f in Live(env, s, server) && !Touched(s, out, server, f) ==>
         Live(env, t, server)[f] == Live(env, s, server)[f]
  }

  /** An applied row carries, for each of its fields, the value the field had in `s`. */
  ghost predicate CarriesBack(env: Env, s: State, t: State, id: string) {
    && id in s.changes && id in t.changes && t.changes[id].status == Applied && t.changes[id].previous.Some?
    && t.changes[id].serverId == s.changes[id].serverId
    && t.changes[id].previous.value.Keys == s.changes[id].payload.Keys
    && forall f :: f in s.changes[id].payload && !Kept(f) ==>
         f in Live(env, s, s.changes[id].serverId)
         && t.changes[id].previous.value[f] == Live(env, s, s.changes[id].serverId)[f]
  }

  /** `t` is `s` with exactly the rows in `out` applied on top. */
  ghost predicate Tracks(env: Env, s: State, t: State, out: set<string>) {
    && Sound(env, t)
    && out <= s.changes.Keys <= t.changes.Keys
    && (forall id :: id in t.changes && t.changes[id].status == Waiting ==>
          id in s.changes && t.changes[id] == s.changes[id])
    && (forall id :: id in out ==> CarriesBack(env, s, t, id))
    && (forall server :: Untouched(env, s, t, out, server))
  }

  lemma ApplyTracks(env: Env, s: State, t: State, out: set<string>, step: Stamped)
    requires Sane(env) && Tracks(env, s, t, out) && ApplyChange(env, t, step.id, step.stamp).Ok?
    requires PairwiseApart(s, out + {step.id})
    ensures step.id !in out && Tracks(env, s, ApplyChange(env, t, step.id, step.stamp).value, out + {step.id})
  {
    var id := step.id;
    var t1, row := ApplyChange(env, t, id, step.stamp).value, t.changes[id];
    ApplyKeepsSound(env, t, id, step.stamp);
    assert id !in out && row == s.changes[id];
    forall server
      ensures Untouched(env, s, t1, out + {id}, server)
    {
      ApplyLeavesTheRest(env, s, t, out, step, server);
    }
    ApplyCarriesBack(env, s, t, out, step);
    forall i | i in out
      ensures CarriesBack(env, s, t1, i)
    {
      assert CarriesBack(env, s, t, i) && t1.changes[i] == t.changes[i];
    }
  }

  lemma ApplyLeavesTheRest(env: Env, s: State, t: State, out: set<string>, step: Stamped, server: string)
    requires Untouched(env, s, t, out, server) && ApplyChange(env, t, step.id, step.stamp).Ok?
    requires step.id in s.changes && t.changes[step.id] == s.changes[step.id]
    ensures Untouched(env, s, ApplyChange(env, t, step.id, step.stamp).value, out + {step.id}, server)
  {
    LiveAfterApply(env, t, step.id, step.stamp, server);
    forall f | f in Live(env, s, server) && !Touched(s, out + {step.id}, server, f)
      ensures !Touched(s, out, server, f)
      ensures !Kept(f) && s.changes[step.id].serverId == server ==> f !in s.changes[step.id].payload
    {
    }
  }

  lemma ApplyCarriesBack(env: Env, s: State, t: State, out: set<string>, step: Stamped)
    requires ApplyChange(env, t, step.id, step.stamp).Ok? && Untouched(env, s, t, out, t.changes[step.id].serverId)
    requires step.id in s.changes && t.changes[step.id] == s.changes[step.id] && step.id !in out
    requires PairwiseApart(s, out + {step.id})
    ensures CarriesBack(env, s, ApplyChange(env, t, step.id, step.stamp).value, step.id)
  {
    var row := s.changes[step.id];
    forall f | f in row.payload && !Kept(f)
      ensures !Touched(s, out, row.serverId, f)
    {
      forall i | i in out && i in s.changes ensures Apart(s.changes[i], row) {}
    }
  }

  lemma RollBackTracks(env: Env, s: State, t: State, out: set<string>, undo: Stamped)
    requires Sane(env) && Tracks(env, s, t, out) && undo.id in out && env.accepts(UPDATED_AT, undo.stamp)
    ensures RollBackChange(env, t, undo.id, undo.stamp).Ok?
    ensures Tracks(env, s, RollBackChange(env, t, undo.id, undo.stamp).value, out - {undo.id})
  {
    var id := undo.id;
    assert CarriesBack(env, s, t, id);
    AppliedChangeRollsBack(env, t, id, undo.stamp);
    RollBackKeepsSound(env, t, id, undo.stamp);
    var t1 := RollBackChange(env, t, id, undo.stamp).value;
    forall server
      ensures Untouched(env, s, t1, out - {id}, server)
    {
      assert Untouched(env, s, t, out, server) && WellFormed(env, Live(env, t, server));
      RollBackLeavesTheRest(env, s, t, out, undo, server);
    }
    forall i | i in out - {id}
      ensures CarriesBack(env, s, t1, i)
    {
      assert CarriesBack(env, s, t, i) && t1.changes[i] == t.changes[i];
    }
  }

  lemma RollBackLeavesTheRest(env: Env, s: State, t: State, out: set<string>, undo: Stamped, server: string)
    requires Untouched(env, s, t, out, server) && CarriesBack(env, s, t, undo.id)
    requires {ID, SERVER_ID, UPDATED_AT} <= Live(env, t, server).Keys
    requires RollBackChange(env, t, undo.id, undo.stamp).Ok?
    ensures Untouched(env, s, RollBackChange(env, t, undo.id, undo.stamp).value, out - {undo.id}, server)
  {
    LiveAfterRollBack(env, t, undo.id, undo.stamp, server);
    var row, was, now := t.changes[undo.id], Live(env, s, server), Live(env, t, server);
    if row.serverId == server {
      PutsBack(was, now, s.changes[undo.id].payload, row.previous.value, undo.stamp);
    }
    forall f | f in was && !Touched(s, out - {undo.id}, server, f)
      ensures Live(env, RollBackChange(env, t, undo.id, undo.stamp).value, server)[f] == was[f]
    {
      OnlyThisOneTouches(s, out, undo.id, server, f);
    }
  }

  lemma PutsBack(was: Config, now: Config, payload: Config, previous: Config, stamp: Json)
    requires now.Keys == was.Keys && previous.Keys == payload.Keys && {ID, SERVER_ID, UPDATED_AT} <= now.Keys
    requires forall f :: f in payload && !Kept(f) ==> f in was && previous[f] == was[f]
    ensures var next := Saved(now, Merge(now, previous), stamp);
      && next.Keys == now.Keys
      && forall f :: f in was && f != UPDATED_AT ==> next[f] == if f in payload && !Kept(f) then was[f] else now[f]
  {
    assert Merge(now, previous).Keys == now.Keys;
  }

  lemma OnlyThisOneTouches(s: State, out: set<string>, id: string, server: string, f: string)
    requires id in s.changes && !Touched(s, out - {id}, server, f)
    ensures Touched(s, out, server, f) ==> s.changes[id].serverId == server && f in s.changes[id].payload && !Kept(f)
  {
  }

  lemma {:induction false} ApplyAllTracks(env: Env, s: State, t: State, out: set<string>, steps: seq<Stamped>)
    requires Sane(env) && Tracks(env, s, t, out) && ApplyAll(env, t, steps).Ok?
    requires PairwiseApart(s, out + Ids(steps))
    ensures Tracks(env, s, ApplyAll(env, t, steps).value, out + Ids(steps))
    decreases steps
  {
    if steps == [] {
      assert out + Ids(steps) == out;
    } else {
      ApplyTracks(env, s, t, out, steps[0]);
      assert out + {steps[0].id} + Ids(steps[1..]) == out + Ids(steps);
      ApplyAllTracks(env, s, ApplyChange(env, t, steps[0].id, steps[0].stamp).value, out + {steps[0].id}, steps[1..]);
    }
  }

  predicate Distinct(steps: seq<Stamped>) {
    steps == [] || (steps[0].id !in Ids(steps[1..]) && Distinct(steps[1..]))
  }

  lemma {:induction false} RollBackAllTracks(env: Env, s: State, t: State, out: set<string>, undo: seq<Stamped>)
    requires Sane(env) && Tracks(env, s, t, out)
    requires Distinct(undo) && Ids(undo) <= out && StampsAccepted(env, undo)
    ensures RollBackAll(env, t, undo).Ok? && Tracks(env, s, RollBackAll(env, t, undo).value, out - Ids(undo))
    decreases undo
  {
    if undo == [] {
      assert out - Ids(undo) == out;
    } else {
      assert env.accepts(UPDATED_AT, undo[0].stamp);
      assert StampsAccepted(env, undo[1..]) by {
        forall i | 0 <= i < |undo[1..]| ensures env.accepts(UPDATED_AT, undo[1..][i].stamp) {
          assert env.accepts(UPDATED_AT, undo[i + 1].stamp);
        }
      }
      RollBackTracks(env, s, t, out, undo[0]);
      assert out - {undo[0].id} - Ids(undo[1..]) == out - Ids(undo);
      RollBackAllTracks(env, s, RollBackChange(env, t, undo[0].id, undo[0].stamp).value, out - {undo[0].id}, undo[1..]);
    }
  }

  lemma TracksFromTheStart(env: Env, s: State)
    requires Sound(env, s)
    ensures Tracks(env, s, s, {})
  {
  }

  lemma NothingLeftIsTheSame(env: Env, s: State, t: State)
    requires Sane(env) && Tracks(env, s, t, {})
    ensures SameConfigs(env, s, t)
  {
    forall server ensures SameFields(Live(env, s, server), Live(env, t, server)) {
      assert Untouched(env, s, t, {}, server);
    }
  }

  /** After any sequence of applies whose changes touch different fields, any of them can be rolled
      back, in any order: none is refused, every field is back that no change left standing moves,
      and when all are undone the configs are the original ones up to the time stamp. */
  lemma AnyOrderRollbackRestores(env: Env, s: State, steps: seq<Stamped>, undo: seq<Stamped>)
    requires Sane(env) && Sound(env, s) && ApplyAll(env, s, steps).Ok? && PairwiseApart(s, Ids(steps))
    requires Distinct(undo) && Ids(undo) <= Ids(steps) && StampsAccepted(env, undo)
    ensures RollBackAll(env, ApplyAll(env, s, steps).value, undo).Ok?
    ensures var t := RollBackAll(env, ApplyAll(env, s, steps).value, undo).value;
      && (forall server :: Untouched(env, s, t, Ids(steps) - Ids(undo), server))
      && (Ids(undo) == Ids(steps) ==> SameConfigs(env, s, t))
  {
    assert {} + Ids(steps) == Ids(steps);
    TracksFromTheStart(env, s);
    ApplyAllTracks(env, s, s, {}, steps);
    RollBackAllTracks(env, s, ApplyAll(env, s, steps).value, Ids(steps), undo);
    if Ids(undo) == Ids(steps) {
      assert Ids(steps) - Ids(undo) == {};
      NothingLeftIsTheSame(env, s, RollBackAll(env, ApplyAll(env, s, steps).value, undo).value);
    }
  }

  /** Changes recorded against the same live configs, once all applied, can be undone in any order:
      the conflict check has already kept them apart. */
  lemma OneBaseRollsBackInAnyOrder(env: Env, s: State, steps: seq<Stamped>, undo: seq<Stamped>, bases: string -> Config)
    requires Sane(env) && Sound(env, s) && ApplyAll(env, s, steps).Ok? && OneBase(env, s, Ids(steps), bases)
    requires Distinct(undo) && Ids(undo) == Ids(steps) && StampsAccepted(env, undo)
    ensures RollBackAll(env, ApplyAll(env, s, steps).value, undo).Ok?
    ensures SameConfigs(env, s, RollBackAll(env, ApplyAll(env, s, steps).value, undo).value)
  {
    AppliedTogetherAreApart(env, s, steps, bases);
    AnyOrderRollbackRestores(env, s, steps, undo);
  }
}
