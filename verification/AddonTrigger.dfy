/**
 From an addon change to recompiled ManifestWorks. Addon versions reach the informer's indexer,
 update notices reach its filter, keys wait in its queue, its one worker recompiles the
 ClusterPermissions its predicate selects, and the main controller reconciles edited ones by its
 own queue. Compiling and writing are separate steps, and a compile reads the addon through a
 cache of its own, which need not agree with the indexer.
 */
module AddonTrigger {
  import opened Prelude
  import opened Api
  import opened Hub
  import opened Subjects
  import opened Payload
  import opened PayloadProperties
  import opened Reconciler
  import opened AddonInformer

  // What a compile was made from: the object, the world apart from addons, the addon version it
  // read, and the version the indexer held at that moment.
  datatype Basis = Basis(cp: ClusterPermission, base: World, read: nat, at: nat)

  // The outcome of the last finished compile; only a successful one writes the payload.
  datatype Outcome = Stored(payload: Payload, basis: Basis) | Failed(error: Error, basis: Basis)

  // An update notice on its way to the filter.
  datatype Notice = Notice(namespace: string, before: Addon, after: Addon)

  // The informer's worker, and the ClusterPermissions of its list it has yet to reconcile.
  datatype Worker = Idle | Handling(namespace: string, todo: set<Key>)

  // A compile whose write is still to come.
  datatype Flight = Grounded | Flying(key: Key, basis: Basis)

  // Both reconcile loops have a single worker.
  datatype Actor = Handler | Controller

  // `begun` is bookkeeping no step looks at: what each object's latest compile to start was made from.

  datatype State = State(
    versions: map<string, seq<Addon>>,
    indexed: map<string, nat>,
    notices: seq<Notice>,
    queue: Queue,
    worker: Worker,
    handlerFlight: Flight,
    controllerFlight: Flight,
    permissions: map<Key, ClusterPermission>,
    own: set<Key>,
    base: World,
    begun: map<Key, Basis>,
    outcomes: map<Key, Outcome>)
  {
    predicate Has(namespace: string) {
      && namespace in versions && versions[namespace] != []
      && namespace in indexed && indexed[namespace] < |versions[namespace]|
    }

    function InFlight(actor: Actor): Flight {
      if actor.Handler? then handlerFlight else controllerFlight
    }
  }

  function WorldAt(s: State, base: World, namespace: string, version: nat): World
    requires s.Has(namespace) && version < |s.versions[namespace]|
  {
    WithAddon(base, namespace, s.versions[namespace][version])
  }

  // --- Steps

  datatype Event =
    | AddonUpdated(namespace: string, addon: Addon)
    | WorldChanged(base: World)
    | PermissionEdited(key: Key, cp: ClusterPermission)
    | PermissionDeleted(key: Key)
    | Resynced
    | Delivered(namespace: string, version: nat)
    | NoticeFiltered
    | WorkerTakes(namespace: string)
    | HandlerCompiles(key: Key, read: nat)
    | ControllerCompiles(key: Key, read: nat)
    | Writes(actor: Actor)
    | WorkerDone

  function Selected(s: State, namespace: string): set<Key> {
    set k | k in s.permissions && k.namespace == namespace && UsesManaged(s.permissions[k].spec)
  }

  predicate Enabled(s: State, e: Event) {
    match e
    case AddonUpdated(namespace, _) => s.Has(namespace)
    case WorldChanged(_) => true
    case PermissionEdited(key, cp) => s.Has(key.namespace) && cp.namespace == key.namespace
    case PermissionDeleted(_) => true
    case Resynced => true
    // The watch moves the indexer forward, after a relist by more than one version.
    case Delivered(namespace, version) => s.Has(namespace) && s.indexed[namespace] < version < |s.versions[namespace]|
    case NoticeFiltered => s.notices != []
    case WorkerTakes(namespace) => s.worker.Idle? && s.queue.order != [] && s.queue.order[0] == AddonKey(namespace)
    case HandlerCompiles(key, read) =>
      && s.worker.Handling? && key in s.worker.todo && s.handlerFlight.Grounded?
      && s.Has(key.namespace) && read < |s.versions[key.namespace]|
    case ControllerCompiles(key, read) =>
      && key in s.own && s.controllerFlight.Grounded?
      && s.Has(key.namespace) && read < |s.versions[key.namespace]|
    case Writes(actor) =>
      && s.InFlight(actor).Flying? && s.Has(s.InFlight(actor).key.namespace)
      && s.InFlight(actor).basis.read < |s.versions[s.InFlight(actor).key.namespace]|
    case WorkerDone => s.worker.Handling? && s.worker.todo == {} && s.handlerFlight.Grounded?
  }

  function BasisOf(s: State, key: Key, read: nat): Basis
    requires s.Has(key.namespace) && key in s.permissions
  {
    Basis(s.permissions[key], s.base, read, s.indexed[key.namespace])
  }

  // A reconcile that finds its object gone does nothing.
  function Compiles(s: State, key: Key, read: nat): Flight
    requires s.Has(key.namespace)
  {
    if key in s.permissions then Flying(key, BasisOf(s, key, read)) else Grounded
  }

  function Begins(s: State, key: Key, read: nat): map<Key, Basis>
    requires s.Has(key.namespace)
  {
    if key in s.permissions then s.begun[key := BasisOf(s, key, read)] else s.begun
  }

  function OutcomeOf(s: State, key: Key, b: Basis): Outcome
    requires s.Has(key.namespace) && b.read < |s.versions[key.namespace]|
  {
    match Compile(WorldAt(s, b.base, key.namespace, b.read), b.cp, Validates(b.cp.spec))
    case Success(payload) => Stored(payload, b)
    case Failure(e) => Failed(e, b)
  }

  function Apply(s: State, e: Event): State
    requires Enabled(s, e)
  {
    match e
    case AddonUpdated(namespace, addon) => s.(versions := s.versions[namespace := s.versions[namespace] + [addon]])
    case WorldChanged(base) => s.(base := base)
    case PermissionEdited(key, cp) => s.(permissions := s.permissions[key := cp], own := s.own + {key})
    case PermissionDeleted(key) => s.(permissions := s.permissions - {key})
    // The periodic resync of the manager's cache queues every object again.
    case Resynced => s.(own := s.own + s.permissions.Keys)
    case Delivered(namespace, version) =>
      var before, after := s.versions[namespace][s.indexed[namespace]], s.versions[namespace][version];
      s.(indexed := s.indexed[namespace := version], notices := s.notices + [Notice(namespace, before, after)])
    case NoticeFiltered =>
      var n := s.notices[0];
      s.(notices := s.notices[1..],
         queue := if SameFields(n.before, n.after) then s.queue else s.queue.Add(AddonKey(n.namespace)))
    case WorkerTakes(namespace) => s.(queue := s.queue.Take(), worker := Handling(namespace, Selected(s, namespace)))
    case HandlerCompiles(key, read) =>
      s.(worker := s.worker.(todo := s.worker.todo - {key}),
         handlerFlight := Compiles(s, key, read), begun := Begins(s, key, read))
    case ControllerCompiles(key, read) =>
      s.(own := s.own - {key}, controllerFlight := Compiles(s, key, read), begun := Begins(s, key, read))
    case Writes(actor) =>
      var f := s.InFlight(actor);
      var s' := s.(outcomes := s.outcomes[f.key := OutcomeOf(s, f.key, f.basis)]);
      if actor.Handler? then s'.(handlerFlight := Grounded) else s'.(controllerFlight := Grounded)
    case WorkerDone => s.(queue := s.queue.Done(AddonKey(s.worker.namespace)), worker := Idle)
  }

  predicate Init(s: State) {
    && s.notices == [] && s.queue == Queue([], {}, {}) && s.worker.Idle?
    && s.handlerFlight.Grounded? && s.controllerFlight.Grounded?
    && s.own == s.permissions.Keys && s.begun == map[] && s.outcomes == map[]
    && (forall k :: k in s.permissions ==> s.Has(k.namespace) && s.permissions[k].namespace == k.namespace)
  }

  // --- What may go wrong, as conditions on single steps

  // The two loops never work on the same object at the same time.
  predicate Apart(s: State, e: Event) {
    match e
    case HandlerCompiles(key, _) => s.controllerFlight.Flying? ==> s.controllerFlight.key != key
    case ControllerCompiles(key, _) => s.handlerFlight.Flying? ==> s.handlerFlight.key != key
    case _ => true
  }

  // A compile reads no older addon than the indexer holds.
  predicate FreshRead(s: State, e: Event) {
    match e
    case HandlerCompiles(key, read) => s.Has(key.namespace) && s.indexed[key.namespace] <= read
    case ControllerCompiles(key, read) => s.Has(key.namespace) && s.indexed[key.namespace] <= read
    case _ => true
  }

  // The watch delivers version by version.
  predicate Stepwise(s: State, e: Event) {
    match e
    case Delivered(namespace, version) => s.Has(namespace) && version == s.indexed[namespace] + 1
    case _ => true
  }

  // Which of the three a run respects.
  datatype Rules = Rules(apart: bool, freshReads: bool, stepwise: bool) {
    predicate Strict() {
      freshReads && stepwise
    }
  }

  predicate Allowed(s: State, e: Event, rules: Rules) {
    && Enabled(s, e)
    && (rules.apart ==> Apart(s, e))
    && (rules.freshReads ==> FreshRead(s, e))
    && (rules.stepwise ==> Stepwise(s, e))
  }

  // --- The invariant

  // A changed notice, or the key itself, is on its way to the worker.
  predicate Announced(s: State, namespace: string) {
    || (exists i :: 0 <= i < |s.notices| && Announces(s.notices[i], namespace))
    || AddonKey(namespace) in s.queue.dirty
  }

  predicate Announces(n: Notice, namespace: string) {
    n.namespace == namespace && !SameFields(n.before, n.after)
  }

  predicate InTodo(s: State, key: Key) {
    s.worker.Handling? && key in s.worker.todo
  }

  // The version that counts: in a strict run the one that was read, otherwise the indexed one.
  predicate Matches(s: State, namespace: string, b: Basis, strict: bool)
    requires s.Has(namespace) && b.read < |s.versions[namespace]| && b.at < |s.versions[namespace]|
  {
    var now := s.versions[namespace][s.indexed[namespace]];
    if strict then b.read > s.indexed[namespace] || SameFields(s.versions[namespace][b.read], now)
    else SameFields(s.versions[namespace][b.at], now)
  }

  // A compile of an existing object is up to date, or something is pending that will redo it.
  predicate Covered(s: State, key: Key, b: Basis, strict: bool) {
    && s.Has(key.namespace) && b.read < |s.versions[key.namespace]| && b.at < |s.versions[key.namespace]|
    && b.cp.namespace == key.namespace
    && (key in s.permissions && key !in s.own ==>
          && b.cp == s.permissions[key]
          && (UsesManaged(b.cp.spec) ==>
                Announced(s, key.namespace) || InTodo(s, key) || Matches(s, key.namespace, b, strict)))
  }

  predicate Flies(f: Flight, key: Key) {
    f.Flying? && f.key == key
  }

  predicate Airborne(s: State, key: Key) {
    Flies(s.handlerFlight, key) || Flies(s.controllerFlight, key)
  }

  // A recorded outcome is the compilation of its basis.
  predicate Genuine(s: State, key: Key)
    requires key in s.outcomes
  {
    var b := s.outcomes[key].basis;
    s.Has(key.namespace) && b.read < |s.versions[key.namespace]| && s.outcomes[key] == OutcomeOf(s, key, b)
  }

  ghost predicate QueueOk(s: State) {
    s.queue.Valid() && s.queue.processing == if s.worker.Handling? then {AddonKey(s.worker.namespace)} else {}
  }

  predicate Known(s: State) {
    && (forall k :: k in s.permissions ==> s.Has(k.namespace) && s.permissions[k].namespace == k.namespace)
    && (s.worker.Handling? ==> forall k :: k in s.worker.todo ==> k.namespace == s.worker.namespace)
    && (forall k :: k in s.permissions && k !in s.own ==> k in s.begun)
    && (forall k :: k in s.begun ==> k in s.outcomes || Airborne(s, k))
  }

  ghost predicate AllCovered(s: State, strict: bool) {
    forall k :: k in s.begun ==> Covered(s, k, s.begun[k], strict)
  }

  ghost predicate AllGenuine(s: State) {
    forall k :: k in s.outcomes ==> Genuine(s, k)
  }

  // Whatever lands later, it is the latest compile to start that is covered.
  ghost predicate Inv(s: State, strict: bool) {
    QueueOk(s) && Known(s) && AllCovered(s, strict) && AllGenuine(s)
  }

  // --- The invariant is kept

  // What a step must leave alone for an object's compiles to stay covered.
  predicate Framed(s: State, s': State, key: Key) {
    var ns := key.namespace;
    && s.Has(ns) && s'.Has(ns) && s.versions[ns] <= s'.versions[ns] && s.indexed[ns] == s'.indexed[ns]
    && (key in s'.permissions && key !in s'.own ==>
          && key in s.permissions && key !in s.own && s'.permissions[key] == s.permissions[key]
          && (UsesManaged(s.permissions[key].spec) ==>
                (Announced(s, ns) || InTodo(s, key) ==> Announced(s', ns) || InTodo(s', key))))
  }

  lemma CoveredKept(s: State, s': State, key: Key, b: Basis, strict: bool)
    requires Covered(s, key, b, strict) && Framed(s, s', key)
    ensures Covered(s', key, b, strict)
  {
    hide Announced, UsesManaged, InTodo;
  }

  lemma GenuineKept(s: State, s': State, key: Key)
    requires key in s.outcomes && Genuine(s, key) && key in s'.outcomes && s'.outcomes[key] == s.outcomes[key]
    requires s'.Has(key.namespace) && s.versions[key.namespace] <= s'.versions[key.namespace]
    ensures Genuine(s', key)
  {
    hide Compile;
  }

  // Addon versions are only ever added.
  ghost predicate Grows(s: State, s': State) {
    forall ns :: s.Has(ns) ==> s'.Has(ns) && s.versions[ns] <= s'.versions[ns]
  }

  lemma AllGenuineKept(s: State, s': State)
    requires AllGenuine(s) && s'.outcomes == s.outcomes && Grows(s, s')
    ensures AllGenuine(s')
  {
    hide OutcomeOf;
    forall k | k in s'.outcomes ensures Genuine(s', k) {
      assert Genuine(s, k);
      GenuineKept(s, s', k);
    }
  }

  // A step that starts and ends no compile.
  predicate Quiet(s: State, s': State) {
    && s'.handlerFlight == s.handlerFlight && s'.controllerFlight == s.controllerFlight
    && s'.begun == s.begun && s'.outcomes == s.outcomes
  }

  // It keeps the invariant if it leaves every object framed.
  lemma QuietStep(s: State, s': State, strict: bool)
    requires Inv(s, strict) && QueueOk(s') && Known(s') && Quiet(s, s') && Grows(s, s')
    requires forall k: Key :: s.Has(k.namespace) ==> Framed(s, s', k)
    ensures Inv(s', strict)
  {
    AllGenuineKept(s, s');
    forall k | k in s'.begun ensures Covered(s', k, s'.begun[k], strict) {
      CoveredKept(s, s', k, s.begun[k], strict);
    }
  }

  lemma AddonUpdatedKeeps(s: State, namespace: string, addon: Addon, strict: bool)
    requires Inv(s, strict) && Enabled(s, AddonUpdated(namespace, addon))
    ensures Inv(Apply(s, AddonUpdated(namespace, addon)), strict)
  {
    hide AllCovered, AllGenuine, OutcomeOf, UsesManaged, AddonKey;
    QuietStep(s, Apply(s, AddonUpdated(namespace, addon)), strict);
  }

  lemma WorldChangedKeeps(s: State, base: World, strict: bool)
    requires Inv(s, strict)
    ensures Inv(Apply(s, WorldChanged(base)), strict)
  {
    hide AllCovered, AllGenuine, OutcomeOf, UsesManaged, AddonKey;
    QuietStep(s, Apply(s, WorldChanged(base)), strict);
  }

  lemma PermissionEditedKeeps(s: State, key: Key, cp: ClusterPermission, strict: bool)
    requires Inv(s, strict) && Enabled(s, PermissionEdited(key, cp))
    ensures Inv(Apply(s, PermissionEdited(key, cp)), strict)
  {
    hide AllCovered, AllGenuine, OutcomeOf, UsesManaged, AddonKey;
    QuietStep(s, Apply(s, PermissionEdited(key, cp)), strict);
  }

  lemma PermissionDeletedKeeps(s: State, key: Key, strict: bool)
    requires Inv(s, strict)
    ensures Inv(Apply(s, PermissionDeleted(key)), strict)
  {
    hide AllCovered, AllGenuine, OutcomeOf, UsesManaged, AddonKey;
    QuietStep(s, Apply(s, PermissionDeleted(key)), strict);
  }

  lemma ResyncedKeeps(s: State, strict: bool)
    requires Inv(s, strict)
    ensures Inv(Apply(s, Resynced), strict)
  {
    hide AllCovered, AllGenuine, OutcomeOf, UsesManaged, AddonKey;
    QuietStep(s, Apply(s, Resynced), strict);
  }

  // A filtered notice that carried a change leaves the key in the queue.
  lemma NoticeFilteredKeeps(s: State, strict: bool)
    requires Inv(s, strict) && Enabled(s, NoticeFiltered)
    ensures Inv(Apply(s, NoticeFiltered), strict)
  {
    hide AllCovered, AllGenuine, OutcomeOf, UsesManaged, AddonKey, SameFields;
    var s' := Apply(s, NoticeFiltered);
    AddKeepsValid(s.queue, AddonKey(s.notices[0].namespace));
    forall ns | Announced(s, ns) ensures Announced(s', ns) {
      if i :| 0 <= i < |s.notices| && Announces(s.notices[i], ns) {
        if i > 0 {
          assert s'.notices[i - 1] == s.notices[i];
        }
      }
    }
    hide Queue.Valid, Announced;
    QuietStep(s, s', strict);
  }

  // Taking the key hands what it announced over to the list of selected objects.
  lemma WorkerTakesKeeps(s: State, namespace: string, strict: bool)
    requires Inv(s, strict) && Enabled(s, WorkerTakes(namespace))
    ensures Inv(Apply(s, WorkerTakes(namespace)), strict)
  {
    hide AllCovered, AllGenuine, OutcomeOf, UsesManaged, AddonKey, SameFields;
    var s' := Apply(s, WorkerTakes(namespace));
    TakeKeepsValid(s.queue);
    forall k: Key | s.Has(k.namespace) ensures Framed(s, s', k) {
      AddonKeyInjective(namespace, k.namespace);
    }
    hide Queue.Valid, Announced, Framed;
    QuietStep(s, s', strict);
  }

  lemma WorkerDoneKeeps(s: State, strict: bool)
    requires Inv(s, strict) && Enabled(s, WorkerDone)
    ensures Inv(Apply(s, WorkerDone), strict)
  {
    hide AllCovered, AllGenuine, OutcomeOf, UsesManaged, AddonKey, SameFields;
    DoneKeepsValid(s.queue, AddonKey(s.worker.namespace));
    hide Queue.Valid;
    QuietStep(s, Apply(s, WorkerDone), strict);
  }

  // A delivery either changes neither field, so what matched still does, or is announced.
  lemma DeliveredCovered(s: State, namespace: string, version: nat, key: Key, b: Basis, strict: bool)
    requires Enabled(s, Delivered(namespace, version)) && (strict ==> Stepwise(s, Delivered(namespace, version)))
    requires Covered(s, key, b, strict)
    ensures Covered(Apply(s, Delivered(namespace, version)), key, b, strict)
  {
    hide UsesManaged, AddonKey;
    var s' := Apply(s, Delivered(namespace, version));
    var n := |s.notices|;
    assert s'.notices[n].namespace == namespace;
    assert forall i :: 0 <= i < n ==> s'.notices[i] == s.notices[i];
  }

  lemma DeliveredKeeps(s: State, namespace: string, version: nat, strict: bool)
    requires Inv(s, strict) && Enabled(s, Delivered(namespace, version))
    requires strict ==> Stepwise(s, Delivered(namespace, version))
    ensures Inv(Apply(s, Delivered(namespace, version)), strict)
  {
    hide Covered, AllGenuine, OutcomeOf, UsesManaged, AddonKey;
    var e := Delivered(namespace, version);
    forall k | k in s.begun ensures Covered(Apply(s, e), k, s.begun[k], strict) {
      DeliveredCovered(s, namespace, version, k, s.begun[k], strict);
    }
    AllGenuineKept(s, Apply(s, e));
  }

  // --- Compiles

  // Another object is framed by a step that only moves one object from a list to the air.
  ghost predicate FramedExcept(s: State, s': State, key: Key) {
    forall k: Key :: k != key && s.Has(k.namespace) ==> Framed(s, s', k)
  }

  lemma CoveredKnown(s: State, s': State, key: Key, b: Basis, strict: bool)
    requires Covered(s, key, b, strict)
    ensures s.Has(key.namespace)
    ensures s'.versions == s.versions && s'.indexed == s.indexed && key !in s'.permissions ==> Framed(s, s', key)
  {
  }

  // A compile begins, and is covered itself; every other object keeps its latest one.
  lemma CompileStep(s: State, s': State, key: Key, read: nat, strict: bool)
    requires Inv(s, strict) && QueueOk(s') && Known(s') && s.Has(key.namespace)
    requires s'.versions == s.versions && s'.indexed == s.indexed && s'.permissions == s.permissions
    requires s'.begun == Begins(s, key, read) && s'.outcomes == s.outcomes && FramedExcept(s, s', key)
    requires key in s.permissions ==> Covered(s', key, BasisOf(s, key, read), strict)
    ensures Inv(s', strict)
  {
    hide Covered, Framed, Known, QueueOk, AllGenuine, BasisOf;
    forall k | k in s'.begun ensures Covered(s', k, s'.begun[k], strict) {
      if k != key || key !in s.permissions {
        CoveredKnown(s, s', k, s.begun[k], strict);
        CoveredKept(s, s', k, s.begun[k], strict);
      }
    }
    AllGenuineKept(s, s');
  }

  lemma FreshlyCompiled(s: State, s': State, key: Key, read: nat, strict: bool)
    requires s.Has(key.namespace) && read < |s.versions[key.namespace]| && key in s.permissions
    requires s.permissions[key].namespace == key.namespace
    requires strict ==> s.indexed[key.namespace] <= read
    requires s'.versions == s.versions && s'.indexed == s.indexed && s'.permissions == s.permissions
    ensures Covered(s', key, BasisOf(s, key, read), strict)
  {
    hide UsesManaged, Announced;
  }

  lemma HandlerCompilesFrames(s: State, key: Key, read: nat)
    requires QueueOk(s) && Known(s) && Enabled(s, HandlerCompiles(key, read))
    ensures var s' := Apply(s, HandlerCompiles(key, read)); QueueOk(s') && Known(s') && FramedExcept(s, s', key)
  {
    hide UsesManaged, AddonKey, SameFields, Queue.Valid, BasisOf;
    var s' := Apply(s, HandlerCompiles(key, read));
    assert forall ns :: Announced(s', ns) <==> Announced(s, ns);
    hide Announced;
  }

  lemma HandlerCompilesKeeps(s: State, key: Key, read: nat, strict: bool)
    requires Inv(s, strict) && Enabled(s, HandlerCompiles(key, read))
    requires strict ==> FreshRead(s, HandlerCompiles(key, read))
    ensures Inv(Apply(s, HandlerCompiles(key, read)), strict)
  {
    HandlerCompilesFrames(s, key, read);
    hide FramedExcept, QueueOk, Covered, AllCovered, AllGenuine, BasisOf, Begins, Compiles;
    var s' := Apply(s, HandlerCompiles(key, read));
    if key in s.permissions {
      FreshlyCompiled(s, s', key, read, strict);
    }
    hide Known;
    CompileStep(s, s', key, read, strict);
  }

  lemma ControllerCompilesFrames(s: State, key: Key, read: nat)
    requires QueueOk(s) && Known(s) && Enabled(s, ControllerCompiles(key, read))
    ensures var s' := Apply(s, ControllerCompiles(key, read)); QueueOk(s') && Known(s') && FramedExcept(s, s', key)
  {
    hide UsesManaged, AddonKey, SameFields, Queue.Valid, BasisOf;
    var s' := Apply(s, ControllerCompiles(key, read));
    assert forall ns :: Announced(s', ns) <==> Announced(s, ns);
    hide Announced;
  }

  lemma ControllerCompilesKeeps(s: State, key: Key, read: nat, strict: bool)
    requires Inv(s, strict) && Enabled(s, ControllerCompiles(key, read))
    requires strict ==> FreshRead(s, ControllerCompiles(key, read))
    ensures Inv(Apply(s, ControllerCompiles(key, read)), strict)
  {
    ControllerCompilesFrames(s, key, read);
    hide FramedExcept, QueueOk, Covered, AllCovered, AllGenuine, BasisOf, Begins, Compiles;
    var s' := Apply(s, ControllerCompiles(key, read));
    if key in s.permissions {
      FreshlyCompiled(s, s', key, read, strict);
    }
    hide Known;
    CompileStep(s, s', key, read, strict);
  }

  // A write lands a compile as the object's outcome, be it the latest or not.
  lemma WritesKeeps(s: State, actor: Actor, strict: bool)
    requires Inv(s, strict) && Enabled(s, Writes(actor))
    ensures Inv(Apply(s, Writes(actor)), strict)
  {
    hide OutcomeOf, Covered, QueueOk, State.Has;
    var s', f := Apply(s, Writes(actor)), s.InFlight(actor);
    forall k | k in s'.begun ensures Covered(s', k, s'.begun[k], strict) {
      CoveredLanding(s, s', k, s.begun[k], strict);
    }
    assert QueueOk(s') by {
      SameQueue(s, s');
    }
    hide Known;
    forall k | k in s'.outcomes ensures Genuine(s', k) {
      if k == f.key {
        OutcomeLanded(s, s', k, f.basis);
      } else {
        assert Genuine(s, k);
        SameOutcome(s, s', k, s.outcomes[k].basis);
      }
    }
    assert Known(s') by {
      LandingKnown(s, actor);
    }
  }

  lemma LandingKnown(s: State, actor: Actor)
    requires Known(s) && Enabled(s, Writes(actor))
    ensures Known(Apply(s, Writes(actor)))
  {
    hide OutcomeOf, State.Has;
    SameNamespaces(s, Apply(s, Writes(actor)));
  }

  lemma SameQueue(s: State, s': State)
    requires QueueOk(s) && s'.queue == s.queue && s'.worker == s.worker
    ensures QueueOk(s')
  {
  }

  lemma SameNamespaces(s: State, s': State)
    requires s'.versions == s.versions && s'.indexed == s.indexed
    ensures forall ns :: s'.Has(ns) <==> s.Has(ns)
  {
  }

  lemma OutcomeLanded(s: State, s': State, key: Key, b: Basis)
    requires s'.versions == s.versions && s'.indexed == s.indexed
    requires s.Has(key.namespace) && b.read < |s.versions[key.namespace]|
    requires key in s'.outcomes && s'.outcomes[key] == OutcomeOf(s, key, b)
    ensures s'.outcomes[key].basis == b && Genuine(s', key)
  {
    hide Compile;
  }

  // Outcomes depend on the addon versions only.
  lemma SameOutcome(s: State, s': State, key: Key, b: Basis)
    requires s'.versions == s.versions && s'.indexed == s.indexed && s.Has(key.namespace)
    requires b.read < |s.versions[key.namespace]|
    ensures s'.Has(key.namespace) && OutcomeOf(s', key, b) == OutcomeOf(s, key, b)
  {
    hide Compile;
  }

  lemma CoveredLanding(s: State, s': State, key: Key, b: Basis, strict: bool)
    requires Covered(s, key, b, strict)
    requires s'.versions == s.versions && s'.indexed == s.indexed && s'.permissions == s.permissions && s'.own == s.own
    requires s'.notices == s.notices && s'.queue == s.queue && s'.worker == s.worker
    ensures Covered(s', key, b, strict)
  {
    hide UsesManaged, AddonKey, SameFields;
  }

  // --- Runs

  // The state a run of events leads to, if each was allowed where it happened.
  function Run(s: State, events: seq<Event>, rules: Rules): Option<State>
    decreases |events|
  {
    if events == [] then Some(s)
    else if Allowed(s, events[0], rules) then Run(Apply(s, events[0]), events[1..], rules)
    else None
  }

  // What the claims need of a step: nothing, or in a strict run the last two of the three rules.
  predicate Respects(s: State, e: Event, strict: bool) {
    Enabled(s, e) && (strict ==> FreshRead(s, e) && Stepwise(s, e))
  }

  lemma StepKeepsInv(s: State, e: Event, strict: bool)
    requires Inv(s, strict) && Respects(s, e, strict)
    ensures Inv(Apply(s, e), strict)
  {
    hide Inv, Apply;
    match e
    case AddonUpdated(namespace, addon) => AddonUpdatedKeeps(s, namespace, addon, strict);
    case WorldChanged(base) => WorldChangedKeeps(s, base, strict);
    case PermissionEdited(key, cp) => PermissionEditedKeeps(s, key, cp, strict);
    case PermissionDeleted(key) => PermissionDeletedKeeps(s, key, strict);
    case Resynced => ResyncedKeeps(s, strict);
    case Delivered(namespace, version) => DeliveredKeeps(s, namespace, version, strict);
    case NoticeFiltered => NoticeFilteredKeeps(s, strict);
    case WorkerTakes(namespace) => WorkerTakesKeeps(s, namespace, strict);
    case HandlerCompiles(key, read) => HandlerCompilesKeeps(s, key, read, strict);
    case ControllerCompiles(key, read) => ControllerCompilesKeeps(s, key, read, strict);
    case Writes(actor) => WritesKeeps(s, actor, strict);
    case WorkerDone => WorkerDoneKeeps(s, strict);
  }

  lemma {:induction false} RunKeepsInv(s: State, events: seq<Event>, rules: Rules, strict: bool)
    requires Inv(s, strict) && Run(s, events, rules).Some? && (strict ==> rules.Strict())
    ensures Inv(Run(s, events, rules).value, strict)
    decreases |events|
  {
    hide Enabled, Apart, FreshRead, Stepwise, Apply, Inv;
    if events != [] {
      StepKeepsInv(s, events[0], strict);
      RunKeepsInv(Apply(s, events[0]), events[1..], rules, strict);
    }
  }

  lemma InitInv(s: State, strict: bool)
    requires Init(s)
    ensures Inv(s, strict)
  {
  }

  // --- Loops that stay apart

  predicate FlightLatest(s: State, f: Flight) {
    f.Flying? ==> f.key in s.begun && s.begun[f.key] == f.basis
  }

  // Only one compile of an object is in the air, and what landed last is what started last.
  predicate Latest(s: State) {
    && (s.handlerFlight.Flying? && s.controllerFlight.Flying? ==> s.handlerFlight.key != s.controllerFlight.key)
    && FlightLatest(s, s.handlerFlight) && FlightLatest(s, s.controllerFlight)
    && (forall k :: k in s.outcomes ==> Airborne(s, k) || (k in s.begun && s.begun[k] == s.outcomes[k].basis))
  }

  lemma BasisKept(s: State, key: Key, b: Basis)
    requires s.Has(key.namespace) && b.read < |s.versions[key.namespace]|
    ensures OutcomeOf(s, key, b).basis == b
  {
    hide Compile;
  }

  lemma WritesKeepsLatest(s: State, actor: Actor)
    requires Latest(s) && Enabled(s, Writes(actor))
    ensures Latest(Apply(s, Writes(actor)))
  {
    hide OutcomeOf, State.Has;
    BasisKept(s, s.InFlight(actor).key, s.InFlight(actor).basis);
  }

  lemma SameCompilesLatest(s: State, s': State)
    requires Latest(s) && Quiet(s, s')
    ensures Latest(s')
  {
  }

  lemma StepKeepsLatest(s: State, e: Event)
    requires Latest(s) && Enabled(s, e) && Apart(s, e)
    ensures Latest(Apply(s, e))
  {
    hide OutcomeOf, AddonKey, UsesManaged, SameFields, State.Has, BasisOf;
    if e.Writes? {
      WritesKeepsLatest(s, e.actor);
    } else if !e.HandlerCompiles? && !e.ControllerCompiles? {
      hide Latest;
      SameCompilesLatest(s, Apply(s, e));
    }
  }

  lemma {:induction false} RunKeepsLatest(s: State, events: seq<Event>, rules: Rules)
    requires rules.apart && Latest(s) && Run(s, events, rules).Some?
    ensures Latest(Run(s, events, rules).value)
    decreases |events|
  {
    hide Enabled, Apart, FreshRead, Stepwise, Apply, Latest;
    if events != [] {
      StepKeepsLatest(s, events[0]);
      RunKeepsLatest(Apply(s, events[0]), events[1..], rules);
    }
  }

  // --- No missed recompile

  // Something is still under way that will recompile the object: an edit or a compile of its
  // own, or an addon change somewhere between the server and the worker's list.
  predicate Pending(s: State, key: Key)
    requires s.Has(key.namespace)
  {
    || key in s.own
    || Airborne(s, key)
    || InTodo(s, key)
    || Announced(s, key.namespace)
    || s.indexed[key.namespace] < |s.versions[key.namespace]| - 1
  }

  function CompiledWith(s: State, key: Key, base: World, cp: ClusterPermission, version: nat): Result<Payload, Error>
    requires s.Has(key.namespace) && version < |s.versions[key.namespace]|
  {
    Compile(WorldAt(s, base, key.namespace, version), cp, Validates(cp.spec))
  }

  function ResultOf(o: Outcome): Result<Payload, Error> {
    match o
    case Stored(payload, _) => Success(payload)
    case Failed(error, _) => Failure(error)
  }

  // The landed outcome, payload or error, is what the object as it is now compiles to with the
  // addon as it is now, in a world that is otherwise the one the landed compile found: changes of
  // the rest of the world trigger no recompile, and do not count here.
  predicate UpToDate(s: State, key: Key)
    requires s.Has(key.namespace) && key in s.permissions && key in s.outcomes
  {
    var o, last := s.outcomes[key], |s.versions[key.namespace]| - 1;
    CompiledWith(s, key, o.basis.base, s.permissions[key], last) == ResultOf(o)
  }

  // The bases of an object's landed and latest compiles name addon versions there are.
  predicate Traced(s: State, key: Key)
    requires s.Has(key.namespace)
  {
    && key in s.begun && key in s.outcomes
    && s.begun[key].at < |s.versions[key.namespace]|
    && s.outcomes[key].basis.read < |s.versions[key.namespace]|
  }

  lemma SameFieldsCompileAlike(s: State, key: Key, base: World, cp: ClusterPermission, v1: nat, v2: nat)
    requires s.Has(key.namespace) && v1 < |s.versions[key.namespace]| && v2 < |s.versions[key.namespace]|
    requires cp.namespace == key.namespace
    requires UsesManaged(cp.spec) ==> SameFields(s.versions[key.namespace][v1], s.versions[key.namespace][v2])
    ensures CompiledWith(s, key, base, cp, v1) == CompiledWith(s, key, base, cp, v2)
  {
    hide UsesManaged, Compile;
    TriggerSound(WorldAt(s, base, key.namespace, v1), WorldAt(s, base, key.namespace, v2), cp, Validates(cp.spec));
  }

  // What the invariant says of an object with nothing pending.
  lemma Unpending(s: State, key: Key, strict: bool)
    requires Inv(s, strict) && key in s.permissions && s.Has(key.namespace) && !Pending(s, key)
    ensures Traced(s, key) && Genuine(s, key)
    ensures s.begun[key].cp == s.permissions[key] && s.permissions[key].namespace == key.namespace
    ensures s.begun[key].read < |s.versions[key.namespace]|
    ensures UsesManaged(s.permissions[key].spec) ==> Matches(s, key.namespace, s.begun[key], strict)
    ensures s.indexed[key.namespace] == |s.versions[key.namespace]| - 1
  {
    hide OutcomeOf, UsesManaged, Announced, QueueOk, Matches;
    assert Covered(s, key, s.begun[key], strict) && Genuine(s, key);
  }

  lemma GenuineResult(s: State, key: Key)
    requires key in s.outcomes && Genuine(s, key)
    ensures var o := s.outcomes[key];
      CompiledWith(s, key, o.basis.base, o.basis.cp, o.basis.read) == ResultOf(o)
  {
    hide Compile;
  }

  // In every reachable state of every run: an object with nothing pending has had a compile of
  // its present form, the latest to start, and a landed one. What landed is up to date if and
  // only if it compiles to the same as what started last does with the addon version the indexer
  // held then.
  lemma MissedExactly(s0: State, events: seq<Event>, rules: Rules, s: State, key: Key)
    requires Init(s0) && Run(s0, events, rules) == Some(s)
    requires key in s.permissions && s.Has(key.namespace) && !Pending(s, key)
    ensures Traced(s, key) && s.begun[key].cp == s.permissions[key]
    ensures var o, b := s.outcomes[key], s.begun[key];
      UpToDate(s, key) <==>
      CompiledWith(s, key, o.basis.base, o.basis.cp, o.basis.read) == CompiledWith(s, key, o.basis.base, b.cp, b.at)
  {
    hide Run, Init, Inv, UsesManaged, Pending, Genuine, SameFields, CompiledWith, Traced;
    InitInv(s0, false);
    RunKeepsInv(s0, events, rules, false);
    Unpending(s, key, false);
    hide *;
    MissedOnce(s, key);
  }

  lemma MissedOnce(s: State, key: Key)
    requires key in s.permissions && s.Has(key.namespace) && Traced(s, key) && Genuine(s, key)
    requires s.begun[key].cp == s.permissions[key] && s.permissions[key].namespace == key.namespace
    requires s.begun[key].read < |s.versions[key.namespace]|
    requires UsesManaged(s.permissions[key].spec) ==> Matches(s, key.namespace, s.begun[key], false)
    requires s.indexed[key.namespace] == |s.versions[key.namespace]| - 1
    ensures var o, b := s.outcomes[key], s.begun[key];
      UpToDate(s, key) <==>
      CompiledWith(s, key, o.basis.base, o.basis.cp, o.basis.read) == CompiledWith(s, key, o.basis.base, b.cp, b.at)
  {
    hide UsesManaged, Genuine, SameFields, CompiledWith;
    var o, b := s.outcomes[key], s.begun[key];
    SameFieldsCompileAlike(s, key, o.basis.base, b.cp, b.at, s.indexed[key.namespace]);
    GenuineResult(s, key);
  }

  // In closed form, where the landed compile is of the object's present form: it failed, or the
  // addon version it read has the effective namespace of the one the indexer held when the
  // latest compile started, or the object emits no managed subject.
  predicate ReadWhatCounts(s: State, key: Key)
    requires s.Has(key.namespace) && Traced(s, key)
  {
    var o, versions := s.outcomes[key], s.versions[key.namespace];
    || o.Failed?
    || EffectiveNamespace(versions[o.basis.read]) == EffectiveNamespace(versions[s.begun[key].at])
    || !EmitsManaged(WorldAt(s, o.basis.base, key.namespace, o.basis.read), o.basis.cp)
  }

  lemma MissedClosed(s0: State, events: seq<Event>, rules: Rules, s: State, key: Key)
    requires Init(s0) && Run(s0, events, rules) == Some(s)
    requires key in s.permissions && s.Has(key.namespace) && !Pending(s, key)
    ensures Traced(s, key)
    ensures s.outcomes[key].basis.cp == s.permissions[key] ==> (UpToDate(s, key) <==> ReadWhatCounts(s, key))
  {
    hide Run, Init, Inv, Pending, Genuine, Matches, Compile, EffectiveNamespace, EmitsManaged, UpToDate, UsesManaged;
    MissedExactly(s0, events, rules, s, key);
    InitInv(s0, false);
    RunKeepsInv(s0, events, rules, false);
    Unpending(s, key, false);
    var o := s.outcomes[key];
    if o.basis.cp == s.permissions[key] {
      GenuineResult(s, key);
      var read, held := s.versions[key.namespace][o.basis.read], s.versions[key.namespace][s.begun[key].at];
      if o.Stored? {
        AddonChangeExact(o.basis.base, o.basis.cp, read, held, Validates(o.basis.cp.spec));
      } else {
        FailureAnyAddon(o.basis.base, o.basis.cp, read, held, Validates(o.basis.cp.spec));
      }
    }
  }

  // With the loops apart what landed last is what started last, so the condition is about that
  // one compile: whether the addon it read counts as the one the indexer held.
  lemma MissedExactlyApart(s0: State, events: seq<Event>, rules: Rules, s: State, key: Key)
    requires Init(s0) && rules.apart && Run(s0, events, rules) == Some(s)
    requires key in s.permissions && s.Has(key.namespace) && !Pending(s, key)
    ensures Traced(s, key) && s.outcomes[key].basis == s.begun[key] && s.begun[key].cp == s.permissions[key]
    ensures UpToDate(s, key) <==> ReadWhatCounts(s, key)
  {
    hide ReadWhatCounts, UpToDate, Inv;
    MissedExactly(s0, events, rules, s, key);
    MissedClosed(s0, events, rules, s, key);
    RunKeepsLatest(s0, events, rules);
    hide Init, Run, Announced;
  }

  // No missed recompile: with the loops apart, compiles that read no older addon than the indexer
  // holds and a watch that delivers version by version, an object with nothing pending is up to
  // date, be its outcome a payload or an error.
  lemma NeverMissed(s0: State, events: seq<Event>, rules: Rules, s: State, key: Key)
    requires Init(s0) && rules.apart && rules.Strict() && Run(s0, events, rules) == Some(s)
    requires key in s.permissions && s.Has(key.namespace) && !Pending(s, key)
    ensures key in s.outcomes && s.outcomes[key].basis.cp == s.permissions[key]
    ensures UpToDate(s, key)
  {
    hide Run, Init, Inv, UsesManaged, Pending, Genuine, SameFields, CompiledWith, ReadWhatCounts, UpToDate;
    MissedExactlyApart(s0, events, rules, s, key);
    InitInv(s0, true);
    RunKeepsInv(s0, events, rules, true);
    Unpending(s, key, true);
    hide *;
    StrictlyUpToDate(s, key);
  }

  lemma StrictlyUpToDate(s: State, key: Key)
    requires key in s.permissions && s.Has(key.namespace) && Traced(s, key) && Genuine(s, key)
    requires s.outcomes[key].basis == s.begun[key] && s.begun[key].cp == s.permissions[key]
    requires s.permissions[key].namespace == key.namespace
    requires UsesManaged(s.permissions[key].spec) ==> Matches(s, key.namespace, s.begun[key], true)
    requires s.indexed[key.namespace] == |s.versions[key.namespace]| - 1
    ensures UpToDate(s, key)
  {
    hide UsesManaged, Genuine, SameFields, CompiledWith;
    var b := s.begun[key];
    SameFieldsCompileAlike(s, key, b.base, b.cp, b.read, s.indexed[key.namespace]);
    GenuineResult(s, key);
  }

  // Nothing is waiting anywhere: every notice filtered, the queue empty, the worker idle.
  predicate Drained(s: State) {
    && (forall ns :: ns in s.versions && s.Has(ns) ==> s.indexed[ns] == |s.versions[ns]| - 1)
    && s.notices == [] && s.queue.order == [] && s.worker.Idle? && s.own == {}
    && s.handlerFlight.Grounded? && s.controllerFlight.Grounded?
  }

  // A drained state has nothing pending: a key that was added is in the queue or in the worker.
  lemma DrainedNotPending(s0: State, events: seq<Event>, rules: Rules, s: State, key: Key)
    requires Init(s0) && Run(s0, events, rules) == Some(s)
    requires Drained(s) && key in s.permissions
    ensures s.Has(key.namespace) && !Pending(s, key)
  {
    InitInv(s0, false);
    RunKeepsInv(s0, events, rules, false);
    hide Run, Init;
    DrainedUnannounced(s, key.namespace);
    hide Announced, Covered, Genuine, QueueOk, AddonKey;
  }

  lemma DrainedUnannounced(s: State, namespace: string)
    requires QueueOk(s) && Drained(s)
    ensures !Announced(s, namespace)
  {
    hide AddonKey, SameFields;
    assert AddonKey(namespace) !in s.queue.order;
  }

  // A drained queue means every object is up to date.
  lemma DrainedUpToDate(s0: State, events: seq<Event>, rules: Rules, s: State, key: Key)
    requires Init(s0) && rules.apart && rules.Strict() && Run(s0, events, rules) == Some(s)
    requires Drained(s) && key in s.permissions
    ensures s.Has(key.namespace) && key in s.outcomes && s.outcomes[key].basis.cp == s.permissions[key]
    ensures UpToDate(s, key)
  {
    hide Init, Run, Drained, Pending, UpToDate;
    DrainedNotPending(s0, events, rules, s, key);
    NeverMissed(s0, events, rules, s, key);
  }

  // --- Repair

  // A step that does not change the namespace's addon, nor compile the object with another version.
  predicate Calm(e: Event, key: Key, version: nat) {
    match e
    case AddonUpdated(namespace, _) => namespace != key.namespace
    case HandlerCompiles(k, read) => k == key ==> read == version
    case ControllerCompiles(k, read) => k == key ==> read == version
    case _ => true
  }

  // The object is queued, or its latest compile to start has read that version.
  predicate Redone(s: State, key: Key, version: nat) {
    key in s.permissions && key !in s.own ==> key in s.begun && s.begun[key].read == version
  }

  lemma StepKeepsRedone(s: State, e: Event, key: Key, version: nat)
    requires Enabled(s, e) && Calm(e, key, version) && Redone(s, key, version) && s.Has(key.namespace)
    ensures Redone(Apply(s, e), key, version)
    ensures Apply(s, e).Has(key.namespace) && Apply(s, e).versions[key.namespace] == s.versions[key.namespace]
  {
    hide OutcomeOf, AddonKey, UsesManaged, SameFields, Queue.Add, Queue.Take, Queue.Done;
  }

  lemma {:induction false} RunKeepsRedone(s: State, events: seq<Event>, rules: Rules, key: Key, version: nat)
    requires Redone(s, key, version) && s.Has(key.namespace) && Run(s, events, rules).Some?
    requires forall e :: e in events ==> Calm(e, key, version)
    ensures var s' := Run(s, events, rules).value;
      Redone(s', key, version) && s'.Has(key.namespace) && s'.versions[key.namespace] == s.versions[key.namespace]
    decreases |events|
  {
    hide Enabled, Apart, FreshRead, Stepwise, Apply, Calm, Redone, State.Has;
    if events != [] {
      assert events[0] in events;
      StepKeepsRedone(s, events[0], key, version);
      RunKeepsRedone(Apply(s, events[0]), events[1..], rules, key, version);
    }
  }

  // What a resync repairs. Let a run whose loops stay apart reach a resync, and go on in any way in
  // which the namespace's addon does not change and every compile of the object reads its last
  // version. Then whenever the object has nothing pending, it is up to date.
  lemma ResyncRepairs(s0: State, before: seq<Event>, s: State, after: seq<Event>, rules: Rules, s': State, key: Key)
    requires Init(s0) && rules.apart && Run(s0, before, rules) == Some(s)
    requires Run(Apply(s, Resynced), after, rules) == Some(s')
    requires s.Has(key.namespace) && forall e :: e in after ==> Calm(e, key, |s.versions[key.namespace]| - 1)
    requires key in s'.permissions && s'.Has(key.namespace) && !Pending(s', key)
    ensures key in s'.outcomes && s'.outcomes[key].basis.cp == s'.permissions[key]
    ensures UpToDate(s', key)
  {
    hide Run, Init, Inv, Latest, Pending, Genuine, UpToDate, Matches, UsesManaged, Calm;
    var s1, last := Apply(s, Resynced), |s.versions[key.namespace]| - 1;
    InitInv(s0, false);
    InitLatest(s0);
    RunKeepsInv(s0, before, rules, false);
    RunKeepsLatest(s0, before, rules);
    StepKeepsInv(s, Resynced, false);
    StepKeepsLatest(s, Resynced);
    RunKeepsInv(s1, after, rules, false);
    RunKeepsLatest(s1, after, rules);
    RunKeepsRedone(s1, after, rules, key, last);
    Unpending(s', key, false);
    hide *;
    LastRead(s', key);
  }

  lemma InitLatest(s: State)
    requires Init(s)
    ensures Latest(s)
  {
  }

  // An outcome that is the latest compile, of the last addon version, is up to date.
  lemma LastRead(s: State, key: Key)
    requires Latest(s) && key in s.permissions && s.Has(key.namespace) && !Pending(s, key)
    requires Traced(s, key) && Genuine(s, key) && s.begun[key].cp == s.permissions[key]
    requires Redone(s, key, |s.versions[key.namespace]| - 1)
    ensures s.outcomes[key].basis == s.begun[key] && UpToDate(s, key)
  {
    hide Genuine, CompiledWith, Announced;
    GenuineResult(s, key);
  }
}
