/** What the main reconcile leaves in the store and returns, case by case, said of the object and the world alone. */
module ReconcileCases {
  import opened Prelude
  import opened Api
  import opened Hub
  import opened Conditions
  import opened Payload
  import opened Works
  import opened Reconciler

  // --- Reading the object

  lemma UnreadReconciles(world: World, cache: Store, live: Store, key: Key, faults: Faults, now: int)
    requires UidsLong(cache) && (faults.getPermission.Some? || key !in cache.permissions)
    ensures Reconciled(world, cache, live, key, faults, now) ==
      if faults.getPermission.Some? && !faults.getPermission.value.NotFound? then Effect(live, faults.getPermission)
      else Effect(live, None)
  {
  }

  predicate Reads(cache: Store, key: Key, faults: Faults, cp: ClusterPermission) {
    faults.getPermission.None? && key in cache.permissions && cache.permissions[key] == cp
  }

  // An object being deleted is left alone, and so is everything else.
  lemma DeletingReconciles(world: World, cache: Store, live: Store, key: Key, faults: Faults, now: int,
    cp: ClusterPermission)
    requires UidsLong(cache) && Reads(cache, key, faults, cp) && cp.deleting
    ensures Reconciled(world, cache, live, key, faults, now) == Effect(live, None)
  {
    VerdictExact(world, cp);
    hide Judge;
  }

  // A managed cluster that cannot be read ends the reconcile with that error.
  lemma UnreadableReconciles(world: World, cache: Store, live: Store, key: Key, faults: Faults, now: int,
    cp: ClusterPermission)
    requires UidsLong(cache) && Reads(cache, key, faults, cp) && !cp.deleting && !NoBindingGiven(cp.spec)
    requires world.GetManagedCluster(cp.namespace).Failure? && !world.GetManagedCluster(cp.namespace).error.NotFound?
    ensures Reconciled(world, cache, live, key, faults, now) ==
            Effect(live, Some(world.GetManagedCluster(cp.namespace).error))
  {
    hide Judge, Compile, WorkOf;
    VerdictExact(world, cp);
  }

  // --- Refusing

  // The status after is the one before with one condition recorded as False.
  ghost predicate Records(before: Status, after: Status, kind: string, reason: string, message: string) {
    && after.resourceStatus == before.resourceStatus
    && (forall other :: other != kind ==> Find(after.conditions, other) == Find(before.conditions, other))
    && Find(after.conditions, kind).Some?
    && Says(Find(after.conditions, kind).value, kind, "False", reason, message)
  }

  // The one write of a refusal: it fails with the API's error, or because the object is gone or is
  // no longer the one that was read; otherwise only the object's status changes.
  ghost predicate RefusedWith(live: Store, key: Key, cp: ClusterPermission, faults: Faults, e: Effect,
                              kind: string, reason: string, message: string)
  {
    if faults.write.Some? then e == Effect(live, faults.write)
    else if key !in live.permissions then e == Effect(live, Some(NotFound(Permissions, key.name)))
    else if live.permissions[key] != cp then e == Effect(live, Some(Conflict(Permissions, key.name)))
    else
      && e.error.None? && e.store.works == live.works && key in e.store.permissions
      && var after := e.store.permissions[key];
         && e.store.permissions == live.permissions[key := after]
         && after == cp.(status := after.status)
         && Records(cp.status, after.status, kind, reason, message)
  }

  lemma PutRecords(live: Store, key: Key, cp: ClusterPermission, faults: Faults, c: Condition, now: int)
    requires c.status == "False"
    ensures RefusedWith(live, key, cp, faults,
              PutStatus(live, key, cp, cp.status.(conditions := Set(cp.status.conditions, c, now)), faults),
              c.kind, c.reason, c.message)
  {
    hide Set, Find;
    SetSays(cp.status.conditions, c, now);
  }

  // A live object that gives no binding is told so.
  lemma NoBindingReconciles(world: World, cache: Store, live: Store, key: Key, faults: Faults, now: int,
    cp: ClusterPermission)
    requires UidsLong(cache) && Reads(cache, key, faults, cp) && !cp.deleting && NoBindingGiven(cp.spec)
    ensures RefusedWith(live, key, cp, faults, Reconciled(world, cache, live, key, faults, now),
                        "Validation", "FailedValidationNoBindingsDefined", "no bindings defined")
  {
    VerdictExact(world, cp);
    PutRecords(live, key, cp, faults, ConditionOf(NoBindings), now);
    hide Judge, Set, RefusedWith, PutStatus, Accepts;
  }

  // So is one that lies in no managed cluster's namespace.
  lemma NotInClusterReconciles(world: World, cache: Store, live: Store, key: Key, faults: Faults, now: int,
    cp: ClusterPermission)
    requires UidsLong(cache) && Reads(cache, key, faults, cp) && !cp.deleting && !NoBindingGiven(cp.spec)
    requires world.GetManagedCluster(cp.namespace).Failure? && world.GetManagedCluster(cp.namespace).error.NotFound?
    ensures RefusedWith(live, key, cp, faults, Reconciled(world, cache, live, key, faults, now),
                        "Validation", "FailedValidationNotInManagedClusterNamespace",
                        "namespace value is not a managed cluster")
  {
    VerdictExact(world, cp);
    PutRecords(live, key, cp, faults, ConditionOf(NotInCluster), now);
    hide Judge, Set, RefusedWith, PutStatus, Accepts;
  }

  // One that is not accepted has the compile error recorded; no work is touched.
  lemma UnacceptedReconciles(world: World, cache: Store, live: Store, key: Key, faults: Faults, now: int,
    cp: ClusterPermission)
    requires UidsLong(cache) && Reads(cache, key, faults, cp) && !cp.deleting && !NoBindingGiven(cp.spec)
    requires world.GetManagedCluster(cp.namespace).Success? && !Accepts(world, cp)
    ensures Compile(world, cp, cp.spec.validate == Some(true)).Failure?
    ensures RefusedWith(live, key, cp, faults, Reconciled(world, cache, live, key, faults, now),
                        "AppliedRBACManifestWork", "FailedBuildManifestWork",
                        Message(Compile(world, cp, cp.spec.validate == Some(true)).error))
  {
    hide Judge, Set, RefusedWith, PutStatus, Accepts, Compile, Message;
    VerdictExact(world, cp);
    var e := Compile(world, cp, cp.spec.validate == Some(true)).error;
    PutRecords(live, key, cp, faults, ConditionOf(BuildFailed(e)), now);
  }

  function Word(entry: Entry): string {
    if entry == RoleEntry then "Role" else "RoleBinding"
  }

  // The text of each of the source's own errors, as it is recorded.
  lemma UnplacedText(entry: Entry)
    ensures Message(Unplaced(entry)) ==
            "both " + Word(entry) + " Namespace and NamespaceSelector cannot be nil and empty"
  {
  }

  lemma AmbiguousText(entry: Entry)
    ensures Message(Ambiguous(entry)) ==
            "both " + Word(entry) + " Namespace and NamespaceSelector cannot populated at the same time"
  {
  }

  lemma NoneSelectedText()
    ensures Message(NoNamespaceSelected) == "unable to find any Namespace using NamespaceSelector"
  {
  }

  lemma HalfGivenTexts(namespace: string)
    ensures Message(MissingApiGroup(namespace)) ==
            "the RoleBinding for Namespace " + namespace + " missing APIGroup for the RoleRef"
    ensures Message(MissingName(namespace)) ==
            "the RoleBinding for Namespace " + namespace + " missing Name for the RoleRef"
  {
  }

  lemma FailureText(text: string)
    ensures Message(ApiFailure(text)) == text
  {
  }

  // --- Applying

  // What the server stores of a spec: the same objects, as raw bytes, and the same options.
  predicate StoredAs(built: WorkSpec, stored: WorkSpec) {
    && stored.configs == built.configs
    && |stored.manifests| == |built.manifests|
    && forall i :: 0 <= i < |built.manifests| ==> stored.manifests[i] == Decoded(built.manifests[i].manifest)
  }

  // One work is written and nothing else.
  predicate WorkWritten(live: Store, e: Effect, wk: Key) {
    && e.error.None? && e.store.permissions == live.permissions && wk in e.store.works
    && e.store.works == live.works[wk := e.store.works[wk]]
  }

  // The work is created: the one write fails with the API's error, or because a work of that name
  // has come to be; otherwise it is stored with its name, its owner and its objects.
  predicate CreatedFrom(live: Store, wk: Key, work: ManifestWork, faults: Faults, e: Effect) {
    if faults.write.Some? then e == Effect(live, faults.write)
    else if wk in live.works then e == Effect(live, Some(AlreadyExists(Works, wk.name)))
    else
      && WorkWritten(live, e, wk)
      && e.store.works[wk] == work.(spec := e.store.works[wk].spec)
      && StoredAs(work.spec, e.store.works[wk].spec)
  }

  // The work is updated: the one write fails with the API's error, or because the work is gone or
  // is no longer the one that was read; otherwise its spec alone is replaced.
  predicate UpdatedFrom(live: Store, wk: Key, read: ManifestWork, work: ManifestWork, faults: Faults, e: Effect) {
    if faults.write.Some? then e == Effect(live, faults.write)
    else if wk !in live.works then e == Effect(live, Some(NotFound(Works, wk.name)))
    else if live.works[wk] != read then e == Effect(live, Some(Conflict(Works, wk.name)))
    else
      && WorkWritten(live, e, wk)
      && e.store.works[wk] == read.(spec := e.store.works[wk].spec)
      && StoredAs(work.spec, e.store.works[wk].spec)
  }

  // An accepted object in a managed cluster's namespace has the work compiled from it created, if
  // the work read under its name is not found, and updated, if one is found with another spec.
  lemma AcceptedReconciles(world: World, cache: Store, live: Store, key: Key, faults: Faults, now: int,
    cp: ClusterPermission)
    requires UidsLong(cache) && Reads(cache, key, faults, cp) && !cp.deleting && !NoBindingGiven(cp.spec)
    requires world.GetManagedCluster(cp.namespace).Success? && Accepts(world, cp)
    ensures Compile(world, cp, cp.spec.validate == Some(true)).Success?
    ensures var validate := cp.spec.validate == Some(true);
      var name := GenerateManifestWorkName(cp);
      var work := WorkOf(cp, name, Compile(world, cp, validate).value, validate);
      var wk, e := Key(cp.namespace, name), Reconciled(world, cache, live, key, faults, now);
      if faults.getWork.Some? && !faults.getWork.value.NotFound? then e == Effect(live, faults.getWork)
      else if faults.getWork.Some? || wk !in cache.works then CreatedFrom(live, wk, work, faults, e)
      else if cache.works[wk].spec == work.spec then e == Effect(live, None)
      else UpdatedFrom(live, wk, cache.works[wk], work, faults, e)
  {
    hide Judge, Accepts, Compile, WorkOf, GenerateManifestWorkName;
    VerdictExact(world, cp);
    var validate := cp.spec.validate == Some(true);
    var name := GenerateManifestWorkName(cp);
    var work := WorkOf(cp, name, Compile(world, cp, validate).value, validate);
    var wk := Key(cp.namespace, name);
    CreateCreates(live, wk, work, faults);
    if wk in cache.works {
      UpdateUpdates(live, wk, cache.works[wk], work, faults);
    }
    hide CreatedFrom, UpdatedFrom, CreateWork, UpdateWork;
  }

  lemma CreateCreates(live: Store, wk: Key, work: ManifestWork, faults: Faults)
    ensures CreatedFrom(live, wk, work, faults, CreateWork(live, wk, work, faults))
  {
  }

  lemma UpdateUpdates(live: Store, wk: Key, read: ManifestWork, work: ManifestWork, faults: Faults)
    ensures UpdatedFrom(live, wk, read, work, faults, UpdateWork(live, wk, read, work.spec, faults))
  {
  }
}
