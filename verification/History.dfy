/** Whole runs of the main controller beside an arbitrary environment. */
module History {
  import opened Api
  import opened Hub
  import opened Conditions
  import opened Payload
  import opened Works
  import opened Reconciler

  // --- What one reconcile can write

  predicate StatusWritten(live: Store, after: Store, key: Key, refusal: Refusal, now: int) {
    && key in live.permissions
    && after.works == live.works
    && var cp := live.permissions[key];
       after.permissions == live.permissions[key :=
         cp.(status := cp.status.(conditions := Set(cp.status.conditions, ConditionOf(refusal), now)))]
  }

  // One work gets the spec compiled from an object; a new work is owned by that object, an
  // existing one keeps everything but its spec.
  predicate WorkWritten(live: Store, after: Store, cp: ClusterPermission, work: ManifestWork)
    requires |cp.uid| >= 5
  {
    var wk := WorkKey(cp);
    && after.permissions == live.permissions
    && wk in after.works
    && after.works == live.works[wk := after.works[wk]]
    && after.works[wk].spec == Encode(work.spec)
    && (if wk in live.works then after.works[wk] == live.works[wk].(spec := Encode(work.spec))
        else after.works[wk].owners == [OwnedBy(cp)])
  }

  // A reconcile that returns an error has written nothing. One that does not has written at
  // most one object: the status of the object it refused, or the work of the object it applied.
  lemma OneWrite(world: World, cache: Store, live: Store, key: Key, faults: Faults, now: int)
    requires UidsLong(cache)
    ensures var e := Reconciled(world, cache, live, key, faults, now);
      && (e.error.Some? ==> e.store == live)
      && (|| e.store == live
          || (key in cache.permissions && Judge(world, cache.permissions[key]).Refused?
              && StatusWritten(live, e.store, key, Judge(world, cache.permissions[key]).refusal, now))
          || (key in cache.permissions && Judge(world, cache.permissions[key]).Applied?
              && WorkWritten(live, e.store, cache.permissions[key], Judge(world, cache.permissions[key]).work)))
  {
    hide Judge, Set, ConditionOf, GenerateManifestWorkName, OwnedBy, WorkWritten;
    if key in cache.permissions && Judge(world, cache.permissions[key]).Applied? {
      AppliedWrite(world, cache, live, key, faults, now);
    }
  }

  lemma AppliedWrite(world: World, cache: Store, live: Store, key: Key, faults: Faults, now: int)
    requires UidsLong(cache) && key in cache.permissions && Judge(world, cache.permissions[key]).Applied?
    ensures var e := Reconciled(world, cache, live, key, faults, now);
      && (e.error.Some? ==> e.store == live)
      && (|| e.store == live
          || WorkWritten(live, e.store, cache.permissions[key], Judge(world, cache.permissions[key]).work))
  {
    hide Judge, GenerateManifestWorkName, OwnedBy, PutStatus, Encode;
    var cp := cache.permissions[key];
    AppliedWork(world, cp);
    if WorkKey(cp) in live.works {
      assert live.works[WorkKey(cp) := live.works[WorkKey(cp)]] == live.works;
    }
  }

  lemma AppliedWork(world: World, cp: ClusterPermission)
    requires |cp.uid| >= 5 && Judge(world, cp).Applied?
    ensures Judge(world, cp).work.owners == [OwnedBy(cp)]
    ensures !cp.deleting && HasBinding(cp.spec) && world.GetManagedCluster(cp.namespace).Success?
    ensures Compile(world, cp, Validates(cp.spec)).Success?
    ensures Judge(world, cp).work.spec == SpecOf(Compile(world, cp, Validates(cp.spec)).value, Validates(cp.spec))
  {
    hide Compile, SpecOf, OwnedBy, HasBinding, GenerateManifestWorkName;
  }

  // --- Runs

  datatype Snapshot = Snapshot(world: World, store: Store)

  // A reconcile reads objects, world and works from caches, each at its own earlier snapshot,
  // and writes to the store of the moment; by AtOneMoment it is such a step even when others write
  // between the attempts of its status update.
  datatype Event =
    | Environment
    | Reconcile(key: Key, permissionsAt: nat, worldAt: nat, worksAt: nat, faults: Faults, now: int)

  // Users, agents and other controllers may change anything but the specs of works, which they may only delete.
  predicate EnvironmentStep(before: Snapshot, after: Snapshot) {
    forall wk :: wk in after.store.works ==>
      wk in before.store.works && after.store.works[wk].spec == before.store.works[wk].spec
  }

  predicate ControllerStep(trace: seq<Snapshot>, i: nat, e: Event, after: Snapshot)
    requires i < |trace| && e.Reconcile? && forall j :: 0 <= j < |trace| ==> UidsLong(trace[j].store)
  {
    && e.permissionsAt <= i && e.worldAt <= i && e.worksAt <= i
    && after.world == trace[i].world
    && UidsLong(trace[e.permissionsAt].store)
    && after.store == Reconciled(trace[e.worldAt].world,
         Store(trace[e.permissionsAt].store.permissions, trace[e.worksAt].store.works),
         trace[i].store, e.key, e.faults, e.now).store
  }

  predicate IsRun(trace: seq<Snapshot>, events: seq<Event>) {
    && |trace| == |events| + 1
    && (forall j :: 0 <= j < |trace| ==> UidsLong(trace[j].store))
    && (forall i :: 0 <= i < |events| ==>
          if events[i].Environment? then EnvironmentStep(trace[i], trace[i + 1])
          else ControllerStep(trace, i, events[i], trace[i + 1]))
  }

  // A spec is the compilation of an object as it stood at one snapshot, in the world of one
  // snapshot, where it was not being deleted, had a binding, lay in a managed cluster's
  // namespace and compiled; and the work is the one named after that object.
  predicate CompiledAt(trace: seq<Snapshot>, key: Key, permissionsAt: nat, worldAt: nat, wk: Key, spec: WorkSpec)
    requires permissionsAt < |trace| && worldAt < |trace| && UidsLong(trace[permissionsAt].store)
  {
    && key in trace[permissionsAt].store.permissions
    && var cp, world := trace[permissionsAt].store.permissions[key], trace[worldAt].world;
       && !cp.deleting && HasBinding(cp.spec) && world.GetManagedCluster(cp.namespace).Success?
       && Compile(world, cp, Validates(cp.spec)).Success?
       && wk == WorkKey(cp)
       && spec == Encode(SpecOf(Compile(world, cp, Validates(cp.spec)).value, Validates(cp.spec)))
  }

  ghost predicate CompiledBefore(trace: seq<Snapshot>, i: nat, wk: Key, spec: WorkSpec)
    requires i < |trace| && forall j :: 0 <= j < |trace| ==> UidsLong(trace[j].store)
  {
    exists key, p: nat, w: nat :: p <= i && w <= i && CompiledAt(trace, key, p, w, wk, spec)
  }

  // Every work the controller writes at some step is compiled from what it read at that step.
  lemma WriteCompiled(trace: seq<Snapshot>, events: seq<Event>, i: nat, wk: Key)
    requires IsRun(trace, events) && i < |events| && events[i].Reconcile? && wk in trace[i + 1].store.works
    requires wk !in trace[i].store.works || trace[i + 1].store.works[wk].spec != trace[i].store.works[wk].spec
    ensures var e := events[i];
      CompiledAt(trace, e.key, e.permissionsAt, e.worldAt, wk, trace[i + 1].store.works[wk].spec)
  {
    var e := events[i];
    assert ControllerStep(trace, i, e, trace[i + 1]);
    var cache := Store(trace[e.permissionsAt].store.permissions, trace[e.worksAt].store.works);
    OneWrite(trace[e.worldAt].world, cache, trace[i].store, e.key, e.faults, e.now);
    hide Reconciled, Judge, Compile, SpecOf, HasBinding, Set, ConditionOf, OwnedBy, GenerateManifestWorkName, Encode;
    AppliedWork(trace[e.worldAt].world, cache.permissions[e.key]);
  }

  // In every reachable state each stored work either still has the spec of a work that was
  // there at the start, or one the controller compiled from an earlier snapshot.
  lemma {:induction false} EveryWorkAccounted(trace: seq<Snapshot>, events: seq<Event>, i: nat, wk: Key)
    requires IsRun(trace, events) && i < |trace| && wk in trace[i].store.works
    ensures var spec := trace[i].store.works[wk].spec;
      || (wk in trace[0].store.works && trace[0].store.works[wk].spec == spec)
      || CompiledBefore(trace, i, wk, spec)
  {
    hide CompiledAt, ControllerStep;
    if i > 0 {
      var spec, e := trace[i].store.works[wk].spec, events[i - 1];
      if wk in trace[i - 1].store.works && trace[i - 1].store.works[wk].spec == spec {
        EveryWorkAccounted(trace, events, i - 1, wk);
      } else {
        assert !e.Environment?;
        WriteCompiled(trace, events, i - 1, wk);
        assert ReadsPast(trace, events, i - 1) by {
          StepReadsPast(trace, events, i - 1);
        }
      }
    }
  }

  predicate ReadsPast(trace: seq<Snapshot>, events: seq<Event>, i: nat)
    requires i < |events| && events[i].Reconcile?
  {
    events[i].permissionsAt <= i && events[i].worldAt <= i
  }

  lemma StepReadsPast(trace: seq<Snapshot>, events: seq<Event>, i: nat)
    requires IsRun(trace, events) && i < |events| && events[i].Reconcile?
    ensures ReadsPast(trace, events, i)
  {
    assert ControllerStep(trace, i, events[i], trace[i + 1]);
  }

  // The controller never removes a work, and neither adds nor removes a ClusterPermission.
  lemma ControllerKeepsWorks(trace: seq<Snapshot>, events: seq<Event>, i: nat)
    requires IsRun(trace, events) && i < |events| && events[i].Reconcile?
    ensures trace[i].store.works.Keys <= trace[i + 1].store.works.Keys
    ensures trace[i].store.permissions.Keys == trace[i + 1].store.permissions.Keys
  {
    var e := events[i];
    assert ControllerStep(trace, i, e, trace[i + 1]);
    OneWrite(trace[e.worldAt].world, Store(trace[e.permissionsAt].store.permissions, trace[e.worksAt].store.works),
             trace[i].store, e.key, e.faults, e.now);
    hide Reconciled, Judge, Set, ConditionOf, OwnedBy, GenerateManifestWorkName, Encode;
  }
}
