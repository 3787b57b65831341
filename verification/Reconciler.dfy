/** The main reconcile: validate, compile, then create, update or keep a ManifestWork, or record a failure. */
module Reconciler {
  import opened Prelude
  import opened Api
  import opened Hub
  import opened Conditions
  import opened Payload
  import opened Works

  datatype Key = Key(namespace: string, name: string)

  // The versioned objects the controller writes.
  datatype Store = Store(permissions: map<Key, ClusterPermission>, works: map<Key, ManifestWork>)

  // The API errors the environment may inject into one reconcile.
  datatype Faults = Faults(getPermission: Option<Error>, getWork: Option<Error>, write: Option<Error>)

  const NO_FAULTS := Faults(None, None, None)

  // --- What a reconcile decides, from the ClusterPermission and the world alone

  // The three reasons a reconcile refuses a spec, each with the condition it records.
  datatype Refusal = NoBindings | NotInCluster | BuildFailed(error: Error)

  function ConditionOf(refusal: Refusal): Condition {
    match refusal
    case NoBindings =>
      Condition(VALIDATION, FALSE, "FailedValidationNoBindingsDefined", "no bindings defined", 0)
    case NotInCluster =>
      Condition(VALIDATION, FALSE, "FailedValidationNotInManagedClusterNamespace",
          "namespace value is not a managed cluster", 0)
    case BuildFailed(error) =>
      Condition(APPLIED_RBAC_MANIFEST_WORK, FALSE, "FailedBuildManifestWork", Message(error), 0)
  }

  predicate HasBinding(spec: Spec) {
    spec.clusterRoleBinding.Some? || Elements(spec.clusterRoleBindings) != [] || Elements(spec.roleBindings) != []
  }

  predicate Validates(spec: Spec) {
    spec.validate == Some(true)
  }

  datatype Verdict =
    | Ignored
    | Aborted(error: Error)
    | Refused(refusal: Refusal)
    | Applied(work: ManifestWork)

  function Judge(world: World, cp: ClusterPermission): Verdict
    requires |cp.uid| >= 5
  {
    if cp.deleting then Ignored
    else if !HasBinding(cp.spec) then Refused(NoBindings)
    else match world.GetManagedCluster(cp.namespace)
      case Failure(NotFound(_, _)) => Refused(NotInCluster)
      case Failure(e) => Aborted(e)
      case Success(_) =>
        match Compile(world, cp, Validates(cp.spec))
        case Failure(e) => Refused(BuildFailed(e))
        case Success(p) => Applied(WorkOf(cp, GenerateManifestWorkName(cp), p, Validates(cp.spec)))
  }

  // No field of the spec gives a binding.
  predicate NoBindingGiven(spec: Spec) {
    && spec.clusterRoleBinding.None?
    && (spec.clusterRoleBindings.None? || spec.clusterRoleBindings.value == [])
    && (spec.roleBindings.None? || spec.roleBindings.value == [])
  }

  // The verdict, case by case: an object being deleted is ignored; a live one is refused for giving
  // no binding, then for lying in no managed cluster's namespace, which another lookup failure
  // leaves open, then for not being accepted; otherwise the work compiled from it is applied,
  // validated exactly if the spec asks for it.
  lemma VerdictExact(world: World, cp: ClusterPermission)
    requires |cp.uid| >= 5
    ensures var cluster, validate := world.GetManagedCluster(cp.namespace), cp.spec.validate == Some(true);
      if cp.deleting then Judge(world, cp) == Ignored
      else if NoBindingGiven(cp.spec) then Judge(world, cp) == Refused(NoBindings)
      else if cluster.Failure? then
        Judge(world, cp) == if cluster.error.NotFound? then Refused(NotInCluster) else Aborted(cluster.error)
      else if !Accepts(world, cp) then
        && Compile(world, cp, validate).Failure?
        && Judge(world, cp) == Refused(BuildFailed(Compile(world, cp, validate).error))
      else
        && Compile(world, cp, validate).Success?
        && Judge(world, cp) ==
             Applied(WorkOf(cp, GenerateManifestWorkName(cp), Compile(world, cp, validate).value, validate))
  {
    hide Compile, Accepts, WorkOf, GenerateManifestWorkName, World.GetManagedCluster;
    AcceptsExactly(world, cp, cp.spec.validate == Some(true));
  }

  // --- Reading and writing the store

  // What the server keeps of a work: its manifests as raw bytes.
  function Encode(spec: WorkSpec): WorkSpec {
    spec.(manifests :=
      seq(|spec.manifests|, i requires 0 <= i < |spec.manifests| => Decoded(spec.manifests[i].manifest)))
  }

  function Encoded(work: ManifestWork): ManifestWork {
    work.(spec := Encode(work.spec))
  }

  function WorkKey(cp: ClusterPermission): Key
    requires |cp.uid| >= 5
  {
    Key(cp.namespace, GenerateManifestWorkName(cp))
  }

  function GetPermission(cache: Store, key: Key, faults: Faults): Result<ClusterPermission, Error> {
    if faults.getPermission.Some? then Failure(faults.getPermission.value)
    else if key in cache.permissions then Success(cache.permissions[key])
    else Failure(NotFound(Permissions, key.name))
  }

  function GetWork(cache: Store, key: Key, faults: Faults): Result<ManifestWork, Error> {
    if faults.getWork.Some? then Failure(faults.getWork.value)
    else if key in cache.works then Success(cache.works[key])
    else Failure(NotFound(Works, key.name))
  }

  // A store and the error of the request that led to it.
  datatype Effect = Effect(store: Store, error: Option<Error>)

  // The server takes a status, or an updated work, only for the object that was read: an
  // optimistic lock, here on the object itself, which determines its resource version.
  function PutStatus(live: Store, key: Key, read: ClusterPermission, status: Status, faults: Faults): Effect {
    if faults.write.Some? then Effect(live, faults.write)
    else if key !in live.permissions then Effect(live, Some(NotFound(Permissions, key.name)))
    else if live.permissions[key] != read then Effect(live, Some(Conflict(Permissions, key.name)))
    else Effect(live.(permissions := live.permissions[key := read.(status := status)]), None)
  }

  function CreateWork(live: Store, key: Key, work: ManifestWork, faults: Faults): Effect {
    if faults.write.Some? then Effect(live, faults.write)
    else if key in live.works then Effect(live, Some(AlreadyExists(Works, key.name)))
    else Effect(live.(works := live.works[key := Encoded(work)]), None)
  }

  function UpdateWork(live: Store, key: Key, read: ManifestWork, spec: WorkSpec, faults: Faults): Effect {
    if faults.write.Some? then Effect(live, faults.write)
    else if key !in live.works then Effect(live, Some(NotFound(Works, key.name)))
    else if live.works[key] != read then Effect(live, Some(Conflict(Works, key.name)))
    else Effect(live.(works := live.works[key := Encoded(read.(spec := spec))]), None)
  }

  // The specification of one reconcile: reads go to a cache, writes to the live store.
  function Reconciled(world: World, cache: Store, live: Store, key: Key, faults: Faults, now: int): Effect
    requires UidsLong(cache)
  {
    match GetPermission(cache, key, faults)
    case Failure(NotFound(_, _)) => Effect(live, None)
    case Failure(e) => Effect(live, Some(e))
    case Success(cp) =>
      match Judge(world, cp)
      case Ignored => Effect(live, None)
      case Aborted(e) => Effect(live, Some(e))
      case Refused(refusal) =>
        PutStatus(live, key, cp, cp.status.(conditions := Set(cp.status.conditions, ConditionOf(refusal), now)), faults)
      case Applied(work) =>
        match GetWork(cache, WorkKey(cp), faults)
        case Failure(NotFound(_, _)) => CreateWork(live, WorkKey(cp), work, faults)
        case Failure(e) => Effect(live, Some(e))
        case Success(read) =>
          if read.spec != work.spec then UpdateWork(live, WorkKey(cp), read, work.spec, faults) else Effect(live, None)
  }

  predicate UidsLong(store: Store) {
    forall k :: k in store.permissions ==> |store.permissions[k].uid| >= 5
  }

  // The attempts RetryOnConflict makes with its default backoff.
  const RETRY_STEPS := 4

  predicate Retried(effect: Effect) {
    effect.error.Some? && effect.error.value.Conflict?
  }

  function RecordOnce(live: Store, key: Key, read: ClusterPermission, condition: Condition,
                      faults: Faults, now: int): Effect {
    PutStatus(live, key, read, read.status.(conditions := Set(read.status.conditions, condition, now)), faults)
  }

  // The attempts one after another, each meeting what others have made of the store by then; all
  // of them offer the edit of the object that was read once.
  function Recorded(lives: seq<Store>, key: Key, read: ClusterPermission, condition: Condition,
                    faults: Faults, now: int): Effect
    requires lives != []
  {
    var effect := RecordOnce(lives[0], key, read, condition, faults, now);
    if Retried(effect) && |lives| > 1 then Recorded(lives[1..], key, read, condition, faults, now) else effect
  }

  // All attempts but the last are in conflict and write nothing: together they are that last one.
  lemma {:induction false} RecordedAtOne(lives: seq<Store>, key: Key, read: ClusterPermission,
                                         condition: Condition, faults: Faults, now: int) returns (i: nat)
    requires lives != []
    ensures i < |lives| && forall j :: 0 <= j < i ==> Retried(RecordOnce(lives[j], key, read, condition, faults, now))
    ensures Recorded(lives, key, read, condition, faults, now) ==
            RecordOnce(lives[i], key, read, condition, faults, now)
  {
    hide RecordOnce;
    i := 0;
    if |lives| > 1 && Retried(RecordOnce(lives[0], key, read, condition, faults, now)) {
      i := RecordedAtOne(lives[1..], key, read, condition, faults, now);
      i := i + 1;
      assert forall j :: 1 <= j < i ==> lives[j] == lives[1..][j - 1];
    }
  }

  // Any error but a conflict ends the attempts at the first.
  lemma FaultEndsAttempts(lives: seq<Store>, key: Key, read: ClusterPermission,
                          condition: Condition, faults: Faults, now: int)
    requires lives != [] && faults.write.Some? && !faults.write.value.Conflict?
    ensures Recorded(lives, key, read, condition, faults, now) == Effect(lives[0], faults.write)
  {
  }

  predicate Refuses(world: World, cache: Store, key: Key, faults: Faults)
    requires UidsLong(cache)
  {
    GetPermission(cache, key, faults).Success? && Judge(world, cache.permissions[key]).Refused?
  }

  // One reconcile with others writing between the attempts of its status update.
  function ReconciledAmong(world: World, cache: Store, live: Store, lives: seq<Store>, key: Key,
                           faults: Faults, now: int): Effect
    requires UidsLong(cache) && lives != []
  {
    if Refuses(world, cache, key, faults) then
      var cp := cache.permissions[key];
      Recorded(lives, key, cp, ConditionOf(Judge(world, cp).refusal), faults, now)
    else Reconciled(world, cache, live, key, faults, now)
  }

  // Whatever others write meanwhile, a reconcile is one step at one moment: that of its only
  // write, which for a status update is the last attempt.
  lemma AtOneMoment(world: World, cache: Store, live: Store, lives: seq<Store>, key: Key, faults: Faults, now: int)
    returns (moment: Store)
    requires UidsLong(cache) && lives != []
    ensures moment == live || moment in lives
    ensures ReconciledAmong(world, cache, live, lives, key, faults, now) ==
            Reconciled(world, cache, moment, key, faults, now)
  {
    hide Judge, ConditionOf, Set;
    moment := live;
    if Refuses(world, cache, key, faults) {
      var cp := cache.permissions[key];
      var i := RecordedAtOne(lives, key, cp, ConditionOf(Judge(world, cp).refusal), faults, now);
      moment := lives[i];
    }
  }

  // An object that has moved on never becomes the one that was read again: its version grows.
  predicate MovesOn(lives: seq<Store>, key: Key, read: ClusterPermission) {
    && (forall i :: 0 <= i < |lives| ==> key in lives[i].permissions)
    && (forall i, j :: 0 <= i < j < |lives| && lives[j].permissions[key] == read ==> lives[i].permissions[key] == read)
  }

  // With API calls succeeding, the status update goes through if and only if the object was
  // still the one that was read at the first attempt: the retries add nothing.
  lemma {:induction false} RetriesAddNothing(lives: seq<Store>, key: Key, read: ClusterPermission,
                                             condition: Condition, faults: Faults, now: int)
    requires lives != [] && MovesOn(lives, key, read) && faults.write.None?
    ensures var e := Recorded(lives, key, read, condition, faults, now);
      && (e.error.None? <==> lives[0].permissions[key] == read)
      && (e.error.None? ==> e == RecordOnce(lives[0], key, read, condition, faults, now))
      && (e.error.Some? ==> Retried(e) && e.store == lives[|lives| - 1])
  {
    hide Set;
    if |lives| > 1 && lives[0].permissions[key] != read {
      assert MovesOn(lives[1..], key, read);
      RetriesAddNothing(lives[1..], key, read, condition, faults, now);
    }
  }

  class ClusterPermissionReconciler {
    var world: World
    var cache: Store
    var live: Store

    // The status update retries on conflict, but on the object it already edited and without
    // reading it again: the lock it holds stays the one of the first read.
    method UpdateStatus(key: Key, read: ClusterPermission, condition: Condition, lives: seq<Store>,
                        faults: Faults, now: int)
      returns (error: Option<Error>)
      requires |lives| == RETRY_STEPS
      modifies this`live
      ensures var effect := Recorded(lives, key, read, condition, faults, now);
              error == effect.error && live == effect.store
    {
      hide Set, PutStatus;
      ghost var all := Recorded(lives, key, read, condition, faults, now);
      var edited := read;
      var attempt := 0;
      error := None;
      assert lives[0..] == lives;
      while attempt < RETRY_STEPS
        invariant 0 <= attempt <= RETRY_STEPS
        invariant || edited == read
                  || edited.status == read.status.(conditions := Set(read.status.conditions, condition, now))
        invariant attempt < RETRY_STEPS ==> all == Recorded(lives[attempt..], key, read, condition, faults, now)
        invariant attempt == RETRY_STEPS ==> all == Effect(live, error)
      {
        assert attempt + 1 < RETRY_STEPS ==> lives[attempt..][1..] == lives[attempt + 1..];
        SetIdempotent(read.status.conditions, condition, now, now);
        edited := edited.(status := edited.status.(conditions := Set(edited.status.conditions, condition, now)));
        var effect := PutStatus(lives[attempt], key, read, edited.status, faults);
        error := effect.error;
        live := effect.store;
        if error.None? || !error.value.Conflict? {
          return;
        }
        attempt := attempt + 1;
      }
    }

    method ApplyWork(cp: ClusterPermission, work: ManifestWork, faults: Faults) returns (error: Option<Error>)
      requires |cp.uid| >= 5
      modifies this`live
      ensures var effect := match GetWork(cache, WorkKey(cp), faults)
                case Failure(NotFound(_, _)) => CreateWork(old(live), WorkKey(cp), work, faults)
                case Failure(e) => Effect(old(live), Some(e))
                case Success(read) =>
                  if read.spec != work.spec then UpdateWork(old(live), WorkKey(cp), read, work.spec, faults)
                  else Effect(old(live), None);
              error == effect.error && live == effect.store
    {
      var found := GetWork(cache, WorkKey(cp), faults);
      if found.Failure? && found.error.NotFound? {
        var created := CreateWork(live, WorkKey(cp), work, faults);
        live := created.store;
        return created.error;
      } else if found.Success? {
        if found.value.spec != work.spec {
          var updated := UpdateWork(live, WorkKey(cp), found.value, work.spec, faults);
          live := updated.store;
          return updated.error;
        }
        return None;
      } else {
        return Some(found.error);
      }
    }

    // `lives` is what others have made of the store by each attempt at a status update.
    method Reconcile(key: Key, lives: seq<Store>, faults: Faults, now: int) returns (error: Option<Error>)
      requires UidsLong(cache) && |lives| == RETRY_STEPS
      modifies this`live
      ensures var effect := ReconciledAmong(world, cache, old(live), lives, key, faults, now);
              error == effect.error && live == effect.store
    {
      hide Set, PutStatus, CreateWork, UpdateWork, Compile, WorkOf, GenerateManifestWorkName, ConditionOf, Recorded;
      var found := GetPermission(cache, key, faults);
      if found.Failure? {
        return if found.error.NotFound? then None else Some(found.error);
      }
      var cp := found.value;
      if cp.deleting {
        return None;
      }
      if cp.spec.clusterRoleBinding.None?
         && (cp.spec.clusterRoleBindings.None? || |cp.spec.clusterRoleBindings.value| == 0)
         && (cp.spec.roleBindings.None? || |cp.spec.roleBindings.value| == 0) {
        error := UpdateStatus(key, cp, ConditionOf(NoBindings), lives, faults, now);
        return;
      }
      var cluster := world.GetManagedCluster(cp.namespace);
      if cluster.Failure? {
        if cluster.error.NotFound? {
          error := UpdateStatus(key, cp, ConditionOf(NotInCluster), lives, faults, now);
          return;
        }
        return Some(cluster.error);
      }
      var validate := false;
      if cp.spec.validate.Some? && cp.spec.validate.value {
        validate := true;
      }
      var payload := GenerateManifestWorkPayload(world, cp, validate);
      if payload.Failure? {
        error := UpdateStatus(key, cp, ConditionOf(BuildFailed(payload.error)), lives, faults, now);
        return;
      }
      var work := BuildManifestWork(cp, GenerateManifestWorkName(cp), payload.value, validate);
      error := ApplyWork(cp, work, faults);
    }
  }
}
