/** Starting a module after its dependencies, creating containers where they are missing
    (internal/module/manager.go:268-419, 466-511). Every store and daemon call may fail; a failed
    write leaves the row as it was. */
module ModuleStart {
  import opened Wrappers

  datatype Status = Stopped | Creating | Starting | Running | Broken

  /** No container yet. */
  const NO_CONTAINER := 0

  /** A dependency entry; one without a module id is skipped. */
  datatype Dependency = Dependency(moduleId: string, waitForHealthy: bool)

  datatype Module = Module(status: Status, containerId: nat, dependencies: seq<Dependency>)

  type Modules = map<string, Module>

  /** A container start: the module, and the modules recorded running at that moment. */
  datatype Start = Start(id: string, running: set<string>)

  /** Dependencies lead strictly down the ranks, also to ids without a row. */
  ghost predicate Acyclic(modules: Modules, rank: string -> nat) {
    forall id, i ::
      id in modules && 0 <= i < |modules[id].dependencies| && modules[id].dependencies[i].moduleId != "" ==>
        rank(modules[id].dependencies[i].moduleId) < rank(id)
  }

  /** Every declared dependency has a row, and becomes healthy if that is waited for. */
  ghost predicate Startable(modules: Modules, healthy: set<string>) {
    forall id, i ::
      id in modules && 0 <= i < |modules[id].dependencies| && modules[id].dependencies[i].moduleId != "" ==>
        modules[id].dependencies[i].moduleId in modules
        && (modules[id].dependencies[i].waitForHealthy ==> modules[id].dependencies[i].moduleId in healthy)
  }

  /** The first `n` dependencies are healthy, as far as that is waited for. */
  ghost predicate DependenciesHealthy(dependencies: seq<Dependency>, healthy: set<string>, n: nat)
    requires n <= |dependencies|
  {
    forall i :: 0 <= i < n && dependencies[i].moduleId != "" && dependencies[i].waitForHealthy ==>
      dependencies[i].moduleId in healthy
  }

  /** Every start on record was of a module whose dependencies are healthy, as far as that is waited for. */
  ghost predicate HealthyStarts(modules: Modules, starts: seq<Start>, healthy: set<string>) {
    forall k :: 0 <= k < |starts| ==>
      starts[k].id in modules
      && DependenciesHealthy(modules[starts[k].id].dependencies, healthy, |modules[starts[k].id].dependencies|)
  }

  predicate SameRow(a: Module, b: Module) {
    a.dependencies == b.dependencies
  }

  /** Same modules with the same dependencies. */
  ghost predicate SameGraph(a: Modules, b: Modules) {
    a.Keys == b.Keys && forall id :: id in a ==> SameRow(a[id], b[id])
  }

  predicate IsRunning(modules: Modules, id: string) {
    id in modules && modules[id].status == Running
  }

  /** The first `n` dependencies are recorded running. */
  ghost predicate DependenciesRun(modules: Modules, dependencies: seq<Dependency>, n: nat)
    requires n <= |dependencies|
  {
    forall i :: 0 <= i < n && dependencies[i].moduleId != "" ==> IsRunning(modules, dependencies[i].moduleId)
  }

  /** No module other than `target` that ran has stopped, and only modules below it have changed. */
  ghost predicate Spared(before: Modules, after: Modules, rank: string -> nat, target: string) {
    && (forall id :: id != target && IsRunning(before, id) ==> IsRunning(after, id))
    && (forall id :: id in before && id in after && id != target && rank(id) >= rank(target) ==>
          after[id] == before[id])
  }

  /** A start came with all the module's dependencies running, each of which ran from the beginning or
      was started before. */
  ghost predicate StartSound(modules: Modules, initial: set<string>, starts: seq<Start>, k: nat)
    requires k < |starts|
  {
    && starts[k].id in modules
    && (forall i ::
          0 <= i < |modules[starts[k].id].dependencies| && modules[starts[k].id].dependencies[i].moduleId != "" ==>
          modules[starts[k].id].dependencies[i].moduleId in starts[k].running)
    && (forall id :: id in starts[k].running ==> id in initial || StartedBefore(starts, k, id))
  }

  predicate StartedBefore(starts: seq<Start>, k: nat, id: string)
    requires k <= |starts|
  {
    exists j :: 0 <= j < k && starts[j].id == id
  }

  /** The record of starts is sound, and explains every module recorded running. */
  ghost predicate LogSound(modules: Modules, initial: set<string>, starts: seq<Start>) {
    && (forall k :: 0 <= k < |starts| ==> StartSound(modules, initial, starts, k))
    && (forall id :: IsRunning(modules, id) ==> id in initial || StartedBefore(starts, |starts|, id))
  }

  /** The starts since `from` are of different modules: the target, and modules below it that did not
      run before. */
  ghost predicate NewStarts(before: Modules, starts: seq<Start>, from: nat, rank: string -> nat, target: string) {
    && from <= |starts|
    && (forall j, k :: from <= j < k < |starts| ==> starts[j].id != starts[k].id)
    && (forall k :: from <= k < |starts| ==>
          starts[k].id == target || (rank(starts[k].id) < rank(target) && !IsRunning(before, starts[k].id)))
  }

  ghost predicate AllRun(modules: Modules, starts: seq<Start>, from: nat) {
    forall k :: from <= k < |starts| ==> IsRunning(modules, starts[k].id)
  }

  ghost predicate NotStarted(starts: seq<Start>, from: nat, id: string) {
    forall k :: from <= k < |starts| ==> starts[k].id != id
  }

  /** What a start of `target` may do, successful or not: same modules and dependencies, nobody else
      stopped, nobody above touched, and each new start is of another module that was not running. */
  ghost predicate Progress(
    before: Modules, after: Modules, was: seq<Start>, now: seq<Start>, rank: string -> nat, target: string)
  {
    && SameGraph(before, after) && Spared(before, after, rank, target)
    && was <= now && NewStarts(before, now, |was|, rank, target)
  }

  /** Only the target's own row was written. */
  ghost predicate OnlyOwn(before: Modules, after: Modules, target: string) {
    SameGraph(before, after) && forall id :: id in before && id != target ==> after[id] == before[id]
  }

  lemma OwnWritesAreProgress(
    before: Modules, mid: Modules, after: Modules,
    was: seq<Start>, now: seq<Start>, rank: string -> nat, target: string)
    requires OnlyOwn(before, mid, target) && Progress(mid, after, was, now, rank, target)
    ensures Progress(before, after, was, now, rank, target)
  {
  }

  lemma NoProgress(modules: Modules, starts: seq<Start>, rank: string -> nat, target: string)
    ensures Progress(modules, modules, starts, starts, rank, target)
  {
  }

  /** Writing the target's row on top of progress. */
  lemma ThenOwnWrite(
    before: Modules, mid: Modules, row: Module, was: seq<Start>, now: seq<Start>, rank: string -> nat, target: string)
    requires Progress(before, mid, was, now, rank, target) && target in mid && SameRow(row, mid[target])
    ensures Progress(before, mid[target := row], was, now, rank, target)
  {
  }

  /** Starting the target once the starts so far were all of other modules. */
  lemma ThenOwnStart(
    before: Modules, after: Modules, was: seq<Start>, now: seq<Start>, rank: string -> nat, target: string, s: Start)
    requires Progress(before, after, was, now, rank, target) && NotStarted(now, |was|, target) && s.id == target
    ensures Progress(before, after, was, now + [s], rank, target)
  {
  }

  /** Writing the target's row does not touch its dependencies' rows. */
  lemma DependenciesElsewhere(modules: Modules, rank: string -> nat, target: string, row: Module)
    requires Acyclic(modules, rank) && target in modules && SameRow(row, modules[target])
    requires DependenciesRun(modules, row.dependencies, |row.dependencies|)
    ensures DependenciesRun(modules[target := row], row.dependencies, |row.dependencies|)
  {
    forall i | 0 <= i < |row.dependencies| && row.dependencies[i].moduleId != ""
      ensures IsRunning(modules[target := row], row.dependencies[i].moduleId)
    {
      assert IsRunning(modules, row.dependencies[i].moduleId);
      assert modules[target].dependencies[i].moduleId != target;
    }
  }

  /** Starting one dependency that did not run, after others. */
  lemma ThenDependency(
    before: Modules, mid: Modules, after: Modules, was: seq<Start>, now: seq<Start>, later: seq<Start>,
    rank: string -> nat, target: string, dep: string)
    requires Progress(before, mid, was, now, rank, target) && Progress(mid, after, now, later, rank, dep)
    requires rank(dep) < rank(target) && !IsRunning(mid, dep)
    requires NotStarted(now, |was|, target) && AllRun(mid, now, |was|)
    ensures Progress(before, after, was, later, rank, target) && NotStarted(later, |was|, target)
    ensures target in mid ==> target in after && after[target] == mid[target]
    ensures AllRun(after, later, |now|) ==> AllRun(after, later, |was|)
  {
    forall j, k | |was| <= j < k < |later|
      ensures later[j].id != later[k].id
    {
      if j < |now| {
        assert later[j] == now[j] && IsRunning(mid, now[j].id);
        if k < |now| { assert later[k] == now[k]; }
      }
    }
    forall k | |was| <= k < |later|
      ensures rank(later[k].id) < rank(target) && !IsRunning(before, later[k].id)
    {
      if k < |now| { assert later[k] == now[k]; }
    }
    forall k | |was| <= k < |now| && AllRun(after, later, |now|)
      ensures IsRunning(after, later[k].id)
    {
      assert later[k] == now[k] && IsRunning(mid, now[k].id);
    }
  }

  lemma DependenciesStillRun(
    mid: Modules, after: Modules, rank: string -> nat, dep: string, dependencies: seq<Dependency>, n: nat)
    requires n <= |dependencies| && DependenciesRun(mid, dependencies, n) && Spared(mid, after, rank, dep)
    requires !IsRunning(mid, dep)
    ensures DependenciesRun(after, dependencies, n)
  {
  }

  lemma StartableStays(before: Modules, after: Modules, healthy: set<string>)
    requires SameGraph(before, after) && Startable(before, healthy)
    ensures Startable(after, healthy)
  {
    forall id, i | id in after && 0 <= i < |after[id].dependencies| && after[id].dependencies[i].moduleId != ""
      ensures after[id].dependencies[i].moduleId in after
      ensures after[id].dependencies[i].waitForHealthy ==> after[id].dependencies[i].moduleId in healthy
    {
      assert SameRow(before[id], after[id]);
    }
  }

  lemma StartsStayHealthy(before: Modules, after: Modules, starts: seq<Start>, healthy: set<string>)
    requires SameGraph(before, after) && HealthyStarts(before, starts, healthy)
    ensures HealthyStarts(after, starts, healthy)
  {
    forall k | 0 <= k < |starts|
      ensures DependenciesHealthy(after[starts[k].id].dependencies, healthy, |after[starts[k].id].dependencies|)
    {
      assert SameRow(before[starts[k].id], after[starts[k].id]);
    }
  }

  class Manager {
    /** With this set no call fails. */
    const reliable: bool
    /** The modules whose health check passes in time. */
    const healthy: set<string>
    var modules: Modules
    var inspectable: set<nat>
    var made: nat
    ghost const rank: string -> nat
    ghost const initial: set<string>
    ghost var starts: seq<Start>

    constructor (
      modules: Modules, inspectable: set<nat>, made: nat, reliable: bool, healthy: set<string>,
      ghost rank: string -> nat)
      ensures this.modules == modules && this.inspectable == inspectable && this.rank == rank && starts == []
      ensures this.reliable == reliable && this.made == made && this.healthy == healthy
      ensures Acyclic(modules, rank) && (forall c :: c in inspectable ==> NO_CONTAINER < c <= made) ==> Valid()
    {
      this.modules, this.inspectable, this.rank, starts := modules, inspectable, rank, [];
      this.made, this.reliable, this.healthy := made, reliable, healthy;
      initial := set id | id in modules && modules[id].status == Running;
    }

    ghost predicate Valid()
      reads this
    {
      && Acyclic(modules, rank) && (forall c :: c in inspectable ==> NO_CONTAINER < c <= made)
      && LogSound(modules, initial, starts) && HealthyStarts(modules, starts, healthy)
    }

    predicate HasContainer(id: string)
      reads this
    {
      id in modules && modules[id].containerId in inspectable
    }

    // -------------------------------------------------------------- store and daemon

    /** Whether a call works. */
    method Works() returns (works: bool)
      ensures reliable ==> works
    {
      works := *;
      works := works || reliable;
    }

    /** UpdateModule writes a whole row; it only ever writes back the dependencies it read. */
    method UpdateModule(id: string, row: Module) returns (ok: bool)
      requires Valid() && id in modules && SameRow(row, modules[id])
      requires row.status == Running ==> id in initial || StartedBefore(starts, |starts|, id)
      modifies this`modules
      ensures Valid()
      ensures modules == if ok then old(modules)[id := row] else old(modules)
      ensures reliable ==> ok
    {
      ok := Works();
      if ok {
        modules := modules[id := row];
        StartsStaySound(old(modules), modules, initial, starts);
        StartsStayHealthy(old(modules), modules, starts, healthy);
      }
    }

    /** CreateModuleContainer: a container that can be inspected, under a new id. */
    method CreateModuleContainer() returns (created: Option<nat>)
      requires Valid()
      modifies this`inspectable, this`made
      ensures Valid()
      ensures created.None? ==> inspectable == old(inspectable)
      ensures created.Some? ==> created.value !in old(inspectable) && inspectable == old(inspectable) + {created.value}
      ensures reliable ==> created.Some?
    {
      var works := Works();
      if !works { return None; }
      made := made + 1;
      inspectable := inspectable + {made};
      return Some(made);
    }

    /** StartContainer; a start that works is put on record. */
    method StartContainer(id: string) returns (ok: bool)
      requires Valid() && id in modules
      requires DependenciesRun(modules, modules[id].dependencies, |modules[id].dependencies|)
      requires DependenciesHealthy(modules[id].dependencies, healthy, |modules[id].dependencies|)
      modifies this`starts
      ensures Valid()
      ensures starts == if ok then old(starts) + [Start(id, set x | x in modules && IsRunning(modules, x))]
                       else old(starts)
      ensures reliable ==> ok
    {
      ok := Works();
      if ok {
        starts := starts + [Start(id, set x | x in modules && IsRunning(modules, x))];
        ExtendLog(modules, initial, old(starts), id);
      }
    }

    // -------------------------------------------------------------- the three methods

    /** CreateAndStartModule. */
    method CreateAndStartModule(id: string, startImmediately: bool) returns (ok: bool)
      requires Valid()
      modifies this
      ensures Valid() && Progress(old(modules), modules, old(starts), starts, rank, id)
      ensures ok && startImmediately ==> IsRunning(modules, id) && AllRun(modules, starts, |old(starts)|)
      ensures ok && !startImmediately ==> HasContainer(id) && modules[id].status == Stopped && starts == old(starts)
      ensures reliable && Startable(old(modules), healthy) && id in old(modules) ==> ok
      decreases rank(id), 1
    {
      ghost var before, was := modules, starts;
      NoProgress(before, was, rank, id);
      var readable := Works();
      if id !in modules || !readable { return false; }
      var row := modules[id];
      var found := Works();
      if !found { return false; }
      row := row.(status := Creating);
      ok := UpdateModule(id, row);
      NoProgress(modules, was, rank, id);
      OwnWritesAreProgress(before, modules, modules, was, was, rank, id);
      if !ok { return false; }
      ok := GiveContainer(id, row);
      NoProgress(modules, was, rank, id);
      OwnWritesAreProgress(before, modules, modules, was, was, rank, id);
      if !ok { return false; }
      if !startImmediately { return true; }
      ghost var mid := modules;
      if Startable(before, healthy) { StartableStays(before, mid, healthy); }
      ok := StartModule(id);
      OwnWritesAreProgress(before, mid, modules, was, starts, rank, id);
    }

    /** The middle of CreateAndStartModule: a container for the module, or the row marked as broken. */
    method GiveContainer(id: string, row: Module) returns (ok: bool)
      requires Valid() && id in modules && SameRow(row, modules[id]) && row.status == Creating
      modifies this`modules, this`inspectable, this`made
      ensures Valid() && OnlyOwn(old(modules), modules, id)
      ensures reliable ==> ok
      ensures ok ==> HasContainer(id) && modules[id].status == Stopped
    {
      var reachable := Works();
      if !reachable {
        var _ := UpdateModule(id, row.(status := Broken));
        return false;
      }
      var created := CreateModuleContainer();
      if created.None? {
        var _ := UpdateModule(id, row.(status := Broken));
        return false;
      }
      ok := UpdateModule(id, row.(containerId := created.value, status := Stopped));
    }

    /** StartModule. */
    method StartModule(id: string) returns (ok: bool)
      requires Valid()
      modifies this
      ensures Valid() && Progress(old(modules), modules, old(starts), starts, rank, id)
      ensures ok ==> IsRunning(modules, id) && AllRun(modules, starts, |old(starts)|)
      ensures reliable && Startable(old(modules), healthy) && id in old(modules) ==> ok
      decreases rank(id), if HasContainer(id) then 0 else 2
    {
      ghost var before, was := modules, starts;
      NoProgress(before, was, rank, id);
      var readable := Works();
      if id !in modules || !readable { return false; }
      var row := modules[id];
      if row.containerId == NO_CONTAINER {
        ok := CreateAndStartModule(id, true);
        return;
      }
      var reachable := Works();
      if !reachable { return false; }
      if row.containerId !in inspectable {
        ok := UpdateModule(id, row.(containerId := NO_CONTAINER));
        NoProgress(modules, was, rank, id);
        OwnWritesAreProgress(before, modules, modules, was, was, rank, id);
        if !ok { return false; }
        ghost var mid := modules;
        if Startable(before, healthy) { StartableStays(before, mid, healthy); }
        ok := CreateAndStartModule(id, true);
        OwnWritesAreProgress(before, mid, modules, was, starts, rank, id);
        return;
      }
      ok := StartDependencies(id, row.dependencies);
      if !ok { return false; }
      ok := StartItself(id, row, before, was);
    }

    /** The last part of StartModule, once the dependencies run. */
    method StartItself(id: string, row: Module, ghost before: Modules, ghost was: seq<Start>) returns (ok: bool)
      requires Valid() && id in modules && modules[id] == row
      requires DependenciesRun(modules, row.dependencies, |row.dependencies|)
      requires DependenciesHealthy(row.dependencies, healthy, |row.dependencies|)
      requires Progress(before, modules, was, starts, rank, id) && NotStarted(starts, |was|, id)
      requires AllRun(modules, starts, |was|)
      modifies this`modules, this`starts
      ensures Valid() && Progress(before, modules, was, starts, rank, id)
      ensures ok ==> IsRunning(modules, id) && AllRun(modules, starts, |was|)
      ensures reliable ==> ok
    {
      ok := UpdateModule(id, row.(status := Starting));
      if ok {
        ThenOwnWrite(before, old(modules), row.(status := Starting), was, starts, rank, id);
        DependenciesElsewhere(old(modules), rank, id, row.(status := Starting));
      }
      if !ok { return false; }
      ghost var now := starts;
      ok := StartContainer(id);
      ghost var mid := modules;
      if !ok {
        var marked := UpdateModule(id, row.(status := Broken));
        if marked { ThenOwnWrite(before, mid, row.(status := Broken), was, starts, rank, id); }
        return false;
      }
      ThenOwnStart(before, mid, was, now, rank, id, starts[|now|]);
      assert StartedBefore(starts, |starts|, id) by { assert starts[|now|].id == id; }
      ok := UpdateModule(id, row.(status := Running));
      if ok { ThenOwnWrite(before, mid, row.(status := Running), was, starts, rank, id); }
    }

    /** startDependencies, in their declared order. */
    method StartDependencies(id: string, dependencies: seq<Dependency>) returns (ok: bool)
      requires Valid() && id in modules && modules[id].dependencies == dependencies && HasContainer(id)
      modifies this
      ensures Valid() && Progress(old(modules), modules, old(starts), starts, rank, id)
      ensures id in modules && modules[id] == old(modules)[id] && NotStarted(starts, |old(starts)|, id)
      ensures ok ==> DependenciesRun(modules, dependencies, |dependencies|) && AllRun(modules, starts, |old(starts)|)
      ensures ok ==> DependenciesHealthy(dependencies, healthy, |dependencies|)
      ensures reliable && Startable(old(modules), healthy) ==> ok
      decreases rank(id), 0, 0
    {
      ghost var before, was := modules, starts;
      NoProgress(before, was, rank, id);
      for i := 0 to |dependencies|
        invariant Valid() && Progress(before, modules, was, starts, rank, id)
        invariant id in modules && modules[id] == before[id] && NotStarted(starts, |was|, id)
        invariant DependenciesRun(modules, dependencies, i) && AllRun(modules, starts, |was|)
        invariant DependenciesHealthy(dependencies, healthy, i)
      {
        var dep := dependencies[i].moduleId;
        if dep == "" { continue; }
        assert before[id].dependencies[i].moduleId == dep && rank(dep) < rank(id);
        ghost var mid, now := modules, starts;
        if Startable(before, healthy) { StartableStays(before, mid, healthy); }
        ok := StartDependency(dependencies[i]);
        if starts != now || modules != mid {
          ThenDependency(before, mid, modules, was, now, starts, rank, id, dep);
          DependenciesStillRun(mid, modules, rank, dep, dependencies, i);
        }
        if !ok { return false; }
      }
      return true;
    }

    /** One of them: nothing happens to it if it runs already. */
    method StartDependency(dep: Dependency) returns (ok: bool)
      requires Valid()
      modifies this
      ensures Valid()
      ensures modules != old(modules) || starts != old(starts) ==>
        !old(IsRunning(modules, dep.moduleId))
        && Progress(old(modules), modules, old(starts), starts, rank, dep.moduleId)
      ensures ok ==> IsRunning(modules, dep.moduleId) && AllRun(modules, starts, |old(starts)|)
      ensures ok && dep.waitForHealthy ==> dep.moduleId in healthy
      ensures reliable && Startable(old(modules), healthy) && dep.moduleId in old(modules) ==>
        (ok <==> !dep.waitForHealthy || dep.moduleId in healthy)
      decreases rank(dep.moduleId), 3
    {
      var readable := Works();
      if dep.moduleId !in modules || !readable { return false; }
      if modules[dep.moduleId].status != Running {
        if modules[dep.moduleId].containerId == NO_CONTAINER {
          ok := CreateAndStartModule(dep.moduleId, true);
        } else {
          ok := StartModule(dep.moduleId);
        }
        if !ok { return false; }
      }
      return !dep.waitForHealthy || dep.moduleId in healthy;
    }
  }

  lemma StartsStaySound(before: Modules, after: Modules, initial: set<string>, starts: seq<Start>)
    requires SameGraph(before, after)
    requires forall k :: 0 <= k < |starts| ==> StartSound(before, initial, starts, k)
    ensures forall k :: 0 <= k < |starts| ==> StartSound(after, initial, starts, k)
  {
    forall k | 0 <= k < |starts| ensures StartSound(after, initial, starts, k) {
      assert StartSound(before, initial, starts, k);
      assert SameRow(before[starts[k].id], after[starts[k].id]);
    }
  }

  lemma ExtendLog(modules: Modules, initial: set<string>, starts: seq<Start>, id: string)
    requires LogSound(modules, initial, starts) && id in modules
    requires DependenciesRun(modules, modules[id].dependencies, |modules[id].dependencies|)
    ensures LogSound(modules, initial, starts + [Start(id, set x | x in modules && IsRunning(modules, x))])
  {
    var longer := starts + [Start(id, set x | x in modules && IsRunning(modules, x))];
    forall k | 0 <= k < |longer| ensures StartSound(modules, initial, longer, k) {
      if k < |starts| { assert StartSound(modules, initial, starts, k); }
      forall x | x in longer[k].running ensures x in initial || StartedBefore(longer, k, x) {
        if k < |starts| && x !in initial { StillBefore(starts, longer, k, x); }
        if k == |starts| && x !in initial { StillBefore(starts, longer, |starts|, x); }
      }
    }
    forall x | IsRunning(modules, x) ensures x in initial || StartedBefore(longer, |longer|, x) {
      if x !in initial { StillBefore(starts, longer, |starts|, x); }
    }
  }

  lemma StillBefore(starts: seq<Start>, longer: seq<Start>, k: nat, id: string)
    requires starts <= longer && k <= |starts| && StartedBefore(starts, k, id)
    ensures StartedBefore(longer, k, id) && StartedBefore(longer, |longer|, id)
  {
    var j :| 0 <= j < k && starts[j].id == id;
    assert longer[j].id == id;
  }

  /** `d` is declared as a dependency of `id`. */
  predicate DependsOn(modules: Modules, id: string, d: string) {
    id in modules && d != ""
    && exists i :: 0 <= i < |modules[id].dependencies| && modules[id].dependencies[i].moduleId == d
  }

  /** A chain of declared dependencies. */
  ghost predicate Chain(modules: Modules, path: seq<string>) {
    forall n :: 0 <= n < |path| - 1 ==> DependsOn(modules, path[n], path[n + 1])
  }

  /** Starts happen in topological order: everything a module depends on, however indirectly, was
      started before it, unless the chain of dependencies passes a module that ran from the beginning. */
  lemma {:induction false} DependenciesComeFirst(
    modules: Modules, initial: set<string>, starts: seq<Start>, k: nat, path: seq<string>)
    requires LogSound(modules, initial, starts) && k < |starts|
    requires |path| >= 2 && path[0] == starts[k].id && Chain(modules, path)
    ensures StartedBefore(starts, k, path[|path| - 1]) || exists n :: 1 <= n < |path| && path[n] in initial
    decreases |path|
  {
    assert StartSound(modules, initial, starts, k) && DependsOn(modules, path[0], path[1]);
    assert path[1] in starts[k].running;
    if path[1] !in initial && |path| > 2 {
      var j :| 0 <= j < k && starts[j].id == path[1];
      var rest := path[1..];
      forall n | 0 <= n < |rest| - 1
        ensures DependsOn(modules, rest[n], rest[n + 1])
      {
        assert rest[n] == path[n + 1] && rest[n + 1] == path[n + 2];
      }
      DependenciesComeFirst(modules, initial, starts, j, rest);
      if n :| 1 <= n < |rest| && rest[n] in initial {
        assert path[n + 1] in initial;
      } else {
        var i :| 0 <= i < j && starts[i].id == path[|path| - 1];
      }
    }
  }
}
