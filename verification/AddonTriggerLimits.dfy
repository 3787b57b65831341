/** Each of the three conditions under which no recompile is missed is needed: a run without it that misses one. */
module AddonTriggerLimits {
  import opened Prelude
  import opened Rbac
  import opened Api
  import opened Hub
  import opened Subjects
  import opened Payload
  import opened PayloadProperties
  import opened Reconciler
  import opened AddonInformer
  import opened AddonTrigger

  // One object in one cluster, to be reconciled for the first time.
  function OneObject(base: World, key: Key, cp: ClusterPermission, addon: Addon): State {
    State(map[key.namespace := [addon]], map[key.namespace := 0], [], Queue([], {}, {}), Idle, Grounded, Grounded,
          map[key := cp], {key}, base, map[], map[])
  }

  // An object that compiles, emits a managed subject, and so compiles differently with the other addon.
  predicate Depends(base: World, key: Key, cp: ClusterPermission, a: Addon, b: Addon) {
    && cp.namespace == key.namespace
    && Accepts(WithAddon(base, key.namespace, a), cp)
    && EmitsManaged(base, cp)
    && EffectiveNamespace(a) != EffectiveNamespace(b)
  }

  // One cluster binding of a managed service account.
  function AccountBinding(account: string): Spec {
    var subject := Subject(ACCOUNT_GROUP, ACCOUNT_KIND, "", account);
    Spec(None, None, Some(ClusterRoleBindingSpec(Some(subject), [], "", None)), None, None, None)
  }

  // Such objects exist: any with one such binding, where the account does, and any two addons of
  // different effective namespaces.
  lemma AccountBindingDepends(base: World, key: Key, cp: ClusterPermission, account: string, a: Addon, b: Addon)
    requires cp.namespace == key.namespace && cp.spec == AccountBinding(account)
    requires base.GetServiceAccount(key.namespace, account).Success?
    requires EffectiveNamespace(a) != EffectiveNamespace(b)
    ensures Depends(base, key, cp, a, b)
  {
    var w := WithAddon(base, key.namespace, a);
    var bs := EffectiveClusterBindings(cp.spec);
    assert bs == [cp.spec.clusterRoleBinding.value];
    var subjects := GetSubjects(bs[0].subject, bs[0].subjects);
    assert subjects == [bs[0].subject.value] && IsManaged(subjects[0]);
    assert w.GetServiceAccount(cp.namespace, account) == base.GetServiceAccount(cp.namespace, account);
    assert SubjectsResolve(w, cp.namespace, subjects);
  }

  lemma DependsCanBeMet()
    ensures exists base, key, cp, a, b :: Depends(base, key, cp, a, b)
  {
    var base := World(map[], map[("cluster", "account") := Success(())], map[], map[]);
    var cp := ClusterPermission("name", "cluster", "12345", false, AccountBinding("account"), Status([], None));
    AccountBindingDepends(base, Key("cluster", "name"), cp, "account", Addon("x", "", ""), Addon("y", "", ""));
  }

  // Nothing is pending anywhere and the stored payload is not what the object compiles to now.
  predicate Missed(s: State, key: Key) {
    && Drained(s) && s.Has(key.namespace) && key in s.permissions && key in s.outcomes
    && s.outcomes[key].Stored? && !UpToDate(s, key)
  }

  predicate Misses(s: State, events: seq<Event>, rules: Rules, key: Key) {
    var end := Run(s, events, rules);
    Init(s) && end.Some? && Missed(end.value, key)
  }

  // A run spelled out state by state.
  lemma {:induction false} RunOfStates(states: seq<State>, events: seq<Event>, rules: Rules)
    requires |states| == |events| + 1
    requires forall i :: 0 <= i < |events| ==>
               Allowed(states[i], events[i], rules) && Apply(states[i], events[i]) == states[i + 1]
    ensures Run(states[0], events, rules) == Some(states[|events|])
    decreases |events|
  {
    hide Enabled, Apart, FreshRead, Stepwise, Apply;
    if events != [] {
      RunOfStates(states[1..], events[1..], rules);
    }
  }

  lemma {:induction false} RunAppend(s: State, events: seq<Event>, more: seq<Event>, rules: Rules)
    requires Run(s, events, rules).Some?
    ensures Run(s, events + more, rules) == Run(Run(s, events, rules).value, more, rules)
    decreases |events|
  {
    hide Enabled, Apart, FreshRead, Stepwise, Apply;
    if events == [] {
      assert events + more == more;
    } else {
      RunAppend(Apply(s, events[0]), events[1..], more, rules);
      assert (events + more)[0] == events[0] && (events + more)[1..] == events[1..] + more;
    }
  }

  // With addons of different effect, a payload compiled from one is not up to date under the other.
  lemma OutdatedUnder(s: State, key: Key, base: World, a: Addon, b: Addon, basis: Basis)
    requires s.Has(key.namespace) && Depends(base, key, basis.cp, a, b) && basis.base == base
    requires key in s.permissions && s.permissions[key] == basis.cp
    requires basis.read < |s.versions[key.namespace]| && s.versions[key.namespace][basis.read] == a
    requires s.versions[key.namespace][|s.versions[key.namespace]| - 1] == b
    requires key in s.outcomes && s.outcomes[key] == OutcomeOf(s, key, basis)
    ensures s.outcomes[key].Stored? && !UpToDate(s, key)
  {
    hide Accepts, EmitsManaged, Compile, EffectiveNamespace;
    var w, validate := WithAddon(base, key.namespace, a), Validates(basis.cp.spec);
    AcceptsExactly(w, basis.cp, validate);
    SameEmission(base, w, basis.cp);
    AddonChangeExact(base, basis.cp, a, b, validate);
  }

  // Which bindings are emitted does not depend on addons.
  lemma SameEmission(w1: World, w2: World, cp: ClusterPermission)
    requires AgreeExceptAddons(w1, w2)
    ensures EmitsManaged(w1, cp) <==> EmitsManaged(w2, cp)
  {
    hide AnyManaged, GetSubjects;
    forall b: RoleBindingSpec ensures RoleBindingEmitsManaged(w1, b) <==> RoleBindingEmitsManaged(w2, b) {
    }
  }

  // --- The parts the runs are made of

  function Recorded(s: State, key: Key, b: Basis): State
    requires s.Has(key.namespace) && b.read < |s.versions[key.namespace]|
  {
    s.(outcomes := s.outcomes[key := OutcomeOf(s, key, b)])
  }

  lemma VersionAdded(s: State, namespace: string, list: seq<Addon>, addon: Addon, rules: Rules)
    requires s.versions == map[namespace := list] && list != [] && s.Has(namespace)
    ensures Allowed(s, AddonUpdated(namespace, addon), rules)
    ensures Apply(s, AddonUpdated(namespace, addon)) == s.(versions := map[namespace := list + [addon]])
  {
    assert s.versions[namespace := list + [addon]] == map[namespace := list + [addon]];
  }

  lemma VersionDelivered(s: State, namespace: string, list: seq<Addon>, version: nat, rules: Rules)
    requires s.versions == map[namespace := list] && s.indexed == map[namespace := 0] && s.notices == []
    requires 0 < version < |list| && (rules.stepwise ==> version == 1)
    ensures Allowed(s, Delivered(namespace, version), rules)
    ensures Apply(s, Delivered(namespace, version)) ==
            s.(indexed := map[namespace := version], notices := [Notice(namespace, list[0], list[version])])
  {
    assert s.indexed[namespace := version] == map[namespace := version];
  }

  lemma NoticePassed(s: State, namespace: string, a: Addon, b: Addon, rules: Rules)
    requires s.notices == [Notice(namespace, a, b)] && s.queue == Queue([], {}, {})
    ensures Allowed(s, NoticeFiltered, rules)
    ensures Apply(s, NoticeFiltered) == s.(notices := [],
      queue := if SameFields(a, b) then Queue([], {}, {}) else Queue([AddonKey(namespace)], {AddonKey(namespace)}, {}))
  {
    hide AddonKey, SameFields;
  }

  lemma KeyTaken(s: State, key: Key, cp: ClusterPermission, rules: Rules)
    requires s.worker.Idle? && s.queue == Queue([AddonKey(key.namespace)], {AddonKey(key.namespace)}, {})
    requires s.permissions == map[key := cp] && UsesManaged(cp.spec)
    ensures Allowed(s, WorkerTakes(key.namespace), rules)
    ensures Apply(s, WorkerTakes(key.namespace)) ==
            s.(queue := Queue([], {}, {AddonKey(key.namespace)}), worker := Handling(key.namespace, {key}))
  {
    hide AddonKey, UsesManaged;
    assert s.queue.Take() == Queue([], {}, {AddonKey(key.namespace)});
    assert Selected(s, key.namespace) == {key};
  }

  // The addon changes, the indexer gets it, the filter queues the key and the worker takes it.
  function Announcement(namespace: string, b: Addon): seq<Event> {
    [AddonUpdated(namespace, b), Delivered(namespace, 1), NoticeFiltered, WorkerTakes(namespace)]
  }

  // A cluster whose addon has one version, with nothing on its way to the worker.
  predicate Quiet(s: State, key: Key, cp: ClusterPermission, a: Addon) {
    && s.versions == map[key.namespace := [a]] && s.indexed == map[key.namespace := 0] && s.notices == []
    && s.queue == Queue([], {}, {}) && s.worker.Idle? && s.permissions == map[key := cp]
  }

  function Taken(s: State, key: Key, a: Addon, b: Addon): State {
    s.(versions := map[key.namespace := [a, b]], indexed := map[key.namespace := 1],
       queue := Queue([], {}, {AddonKey(key.namespace)}), worker := Handling(key.namespace, {key}))
  }

  lemma DifferentFields(a: Addon, b: Addon)
    requires EffectiveNamespace(a) != EffectiveNamespace(b)
    ensures !SameFields(a, b)
  {
  }

  lemma AnnouncementTaken(s: State, key: Key, cp: ClusterPermission, a: Addon, b: Addon, rules: Rules)
    requires Quiet(s, key, cp, a) && UsesManaged(cp.spec) && EffectiveNamespace(a) != EffectiveNamespace(b)
    ensures Run(s, Announcement(key.namespace, b), rules) == Some(Taken(s, key, a, b))
  {
    hide Apply, Allowed, UsesManaged, AddonKey, SameFields, EffectiveNamespace;
    DifferentFields(a, b);
    var ns := key.namespace;
    var s1 := s.(versions := map[ns := [a] + [b]]);
    var s2 := s1.(indexed := map[ns := 1], notices := [Notice(ns, a, b)]);
    var s3 := s2.(notices := [], queue := Queue([AddonKey(ns)], {AddonKey(ns)}, {}));
    VersionAdded(s, ns, [a], b, rules);
    VersionDelivered(s1, ns, [a] + [b], 1, rules);
    NoticePassed(s2, ns, a, b, rules);
    KeyTaken(s3, key, cp, rules);
    assert [a] + [b] == [a, b];
    RunOfStates([s, s1, s2, s3, Taken(s, key, a, b)], Announcement(ns, b), rules);
  }

  // The worker compiles its one object, writes and is done.
  function HandlerRun(key: Key, read: nat): seq<Event> {
    [HandlerCompiles(key, read), Writes(Handler), WorkerDone]
  }

  function AfterHandling(s: State, key: Key, cp: ClusterPermission, read: nat): State
    requires s.Has(key.namespace) && read < |s.versions[key.namespace]|
  {
    var b := Basis(cp, s.base, read, s.indexed[key.namespace]);
    Recorded(s, key, b).(queue := Queue([], {}, {}), worker := Idle, begun := s.begun[key := b])
  }

  lemma HandlerStarts(s: State, key: Key, cp: ClusterPermission, read: nat, rules: Rules)
    requires s.Has(key.namespace) && read < |s.versions[key.namespace]| && s.permissions == map[key := cp]
    requires s.worker == Handling(key.namespace, {key}) && s.handlerFlight.Grounded?
    requires rules.apart ==> Apart(s, HandlerCompiles(key, read))
    requires rules.freshReads ==> s.indexed[key.namespace] <= read
    ensures Allowed(s, HandlerCompiles(key, read), rules)
    ensures var b := Basis(cp, s.base, read, s.indexed[key.namespace]);
      Apply(s, HandlerCompiles(key, read)) ==
        s.(worker := Handling(key.namespace, {}), handlerFlight := Flying(key, b), begun := s.begun[key := b])
  {
    assert {key} - {key} == {};
  }

  lemma HandlerLands(s: State, key: Key, b: Basis, rules: Rules)
    requires s.Has(key.namespace) && b.read < |s.versions[key.namespace]| && s.handlerFlight == Flying(key, b)
    ensures Allowed(s, Writes(Handler), rules)
    ensures Apply(s, Writes(Handler)) == Recorded(s, key, b).(handlerFlight := Grounded)
  {
    hide OutcomeOf;
  }

  lemma KeyDone(s: State, namespace: string, rules: Rules)
    requires s.worker == Handling(namespace, {}) && s.queue == Queue([], {}, {AddonKey(namespace)})
    requires s.handlerFlight.Grounded?
    ensures Allowed(s, WorkerDone, rules) && Apply(s, WorkerDone) == s.(queue := Queue([], {}, {}), worker := Idle)
  {
    hide AddonKey;
    assert s.queue.Done(AddonKey(namespace)) == Queue([], {}, {});
  }

  lemma WorkerFinishes(s: State, key: Key, cp: ClusterPermission, read: nat, rules: Rules)
    requires s.Has(key.namespace) && read < |s.versions[key.namespace]| && s.permissions == map[key := cp]
    requires s.worker == Handling(key.namespace, {key}) && s.queue == Queue([], {}, {AddonKey(key.namespace)})
    requires s.handlerFlight.Grounded?
    requires rules.apart ==> Apart(s, HandlerCompiles(key, read))
    requires rules.freshReads ==> s.indexed[key.namespace] <= read
    ensures Run(s, HandlerRun(key, read), rules) == Some(AfterHandling(s, key, cp, read))
  {
    hide Apply, Allowed, Apart, OutcomeOf, AddonKey;
    var b := Basis(cp, s.base, read, s.indexed[key.namespace]);
    var s1 := s.(worker := Handling(key.namespace, {}), handlerFlight := Flying(key, b), begun := s.begun[key := b]);
    var s2 := Recorded(s, key, b).(worker := Handling(key.namespace, {}), begun := s.begun[key := b]);
    HandlerStarts(s, key, cp, read, rules);
    SameOutcome(s, s1, key, b);
    HandlerLands(s1, key, b, rules);
    KeyDone(s2, key.namespace, rules);
    RunOfStates([s, s1, s2, AfterHandling(s, key, cp, read)], HandlerRun(key, read), rules);
  }

  function Starts(s: State, key: Key, cp: ClusterPermission, read: nat): State
    requires s.Has(key.namespace)
  {
    var b := Basis(cp, s.base, read, s.indexed[key.namespace]);
    s.(own := {}, controllerFlight := Flying(key, b), begun := s.begun[key := b])
  }

  lemma ControllerStarts(s: State, key: Key, cp: ClusterPermission, read: nat, rules: Rules)
    requires s.Has(key.namespace) && read < |s.versions[key.namespace]| && s.permissions == map[key := cp]
    requires s.own == {key} && s.controllerFlight.Grounded? && s.handlerFlight.Grounded?
    requires rules.freshReads ==> s.indexed[key.namespace] <= read
    ensures Run(s, [ControllerCompiles(key, read)], rules) == Some(Starts(s, key, cp, read))
  {
    hide Compile, OutcomeOf, UsesManaged, AddonKey;
    var e := ControllerCompiles(key, read);
    assert Allowed(s, e, rules) && Apply(s, e) == Starts(s, key, cp, read);
    RunOfStates([s, Starts(s, key, cp, read)], [e], rules);
  }

  lemma ControllerLands(s: State, key: Key, b: Basis, rules: Rules)
    requires s.Has(key.namespace) && b.read < |s.versions[key.namespace]| && s.controllerFlight == Flying(key, b)
    ensures Run(s, [Writes(Controller)], rules) == Some(Recorded(s, key, b).(controllerFlight := Grounded))
  {
    hide Compile, OutcomeOf, UsesManaged, AddonKey;
    var s' := Recorded(s, key, b).(controllerFlight := Grounded);
    assert Allowed(s, Writes(Controller), rules) && Apply(s, Writes(Controller)) == s';
    RunOfStates([s, s'], [Writes(Controller)], rules);
  }

  // --- Reads that lag behind the indexer

  // The object is compiled and stored; then the addon changes, the worker takes the change, and
  // its compile still reads the old addon.
  function StaleRun(key: Key, b: Addon): seq<Event> {
    [ControllerCompiles(key, 0)] + [Writes(Controller)] + Announcement(key.namespace, b) + HandlerRun(key, 0)
  }

  lemma StaleReadMisses(base: World, key: Key, cp: ClusterPermission, a: Addon, b: Addon)
    requires Depends(base, key, cp, a, b)
    ensures Misses(OneObject(base, key, cp, a), StaleRun(key, b), Rules(true, false, true), key)
  {
    hide Compile, OutcomeOf, UsesManaged, AddonKey, Accepts, EmitsManaged, EffectiveNamespace, Run, Apply, Allowed,
        UpToDate;
    var rules := Rules(true, false, true);
    EmittedIsUsed(base, cp);
    var s0 := OneObject(base, key, cp, a);
    ControllerStarts(s0, key, cp, 0, rules);
    var s1 := Starts(s0, key, cp, 0);
    ControllerLands(s1, key, s1.controllerFlight.basis, rules);
    RunAppend(s0, [ControllerCompiles(key, 0)], [Writes(Controller)], rules);
    var s2 := Recorded(s1, key, s1.controllerFlight.basis).(controllerFlight := Grounded);
    AnnouncementTaken(s2, key, cp, a, b, rules);
    RunAppend(s0, [ControllerCompiles(key, 0)] + [Writes(Controller)], Announcement(key.namespace, b), rules);
    var s3 := Taken(s2, key, a, b);
    WorkerFinishes(s3, key, cp, 0, rules);
    RunAppend(s0, [ControllerCompiles(key, 0)] + [Writes(Controller)] + Announcement(key.namespace, b),
        HandlerRun(key, 0), rules);
    var s4 := AfterHandling(s3, key, cp, 0);
    SameOutcome(s3, s4, key, Basis(cp, base, 0, 1));
    OutdatedUnder(s4, key, base, a, b, Basis(cp, base, 0, 1));
  }

  // --- The two loops on one object at once

  // The controller compiles with the old addon; before it writes, the addon changes and the
  // worker recompiles and writes; then the controller's write lands.
  function OverlapRun(key: Key, b: Addon): seq<Event> {
    [ControllerCompiles(key, 0)] + Announcement(key.namespace, b) + HandlerRun(key, 1) + [Writes(Controller)]
  }

  lemma OverlapMisses(base: World, key: Key, cp: ClusterPermission, a: Addon, b: Addon)
    requires Depends(base, key, cp, a, b)
    ensures Misses(OneObject(base, key, cp, a), OverlapRun(key, b), Rules(false, true, true), key)
  {
    hide Compile, OutcomeOf, UsesManaged, AddonKey, Accepts, EmitsManaged, EffectiveNamespace, Run, Apply, Allowed,
        UpToDate;
    var rules := Rules(false, true, true);
    EmittedIsUsed(base, cp);
    var s0 := OneObject(base, key, cp, a);
    ControllerStarts(s0, key, cp, 0, rules);
    var s1 := Starts(s0, key, cp, 0);
    AnnouncementTaken(s1, key, cp, a, b, rules);
    RunAppend(s0, [ControllerCompiles(key, 0)], Announcement(key.namespace, b), rules);
    var s2 := Taken(s1, key, a, b);
    WorkerFinishes(s2, key, cp, 1, rules);
    RunAppend(s0, [ControllerCompiles(key, 0)] + Announcement(key.namespace, b), HandlerRun(key, 1), rules);
    var s3 := AfterHandling(s2, key, cp, 1);
    ControllerLands(s3, key, s3.controllerFlight.basis, rules);
    RunAppend(s0, [ControllerCompiles(key, 0)] + Announcement(key.namespace, b) + HandlerRun(key, 1),
        [Writes(Controller)], rules);
    var s4 := Recorded(s3, key, s3.controllerFlight.basis).(controllerFlight := Grounded);
    SameOutcome(s3, s4, key, Basis(cp, base, 0, 0));
    OutdatedUnder(s4, key, base, a, b, Basis(cp, base, 0, 0));
  }

  // --- A watch that skips a version

  // The addon changes to b, the object is compiled from that, the addon changes back to a, and
  // only then does the watch catch up, from a to a: nothing looks changed.
  function SkippedRun(key: Key, a: Addon, b: Addon): seq<Event> {
    [AddonUpdated(key.namespace, b)] + [ControllerCompiles(key, 1)] + [Writes(Controller)]
      + [AddonUpdated(key.namespace, a), Delivered(key.namespace, 2), NoticeFiltered]
  }

  function CaughtUp(s: State, key: Key, a: Addon, b: Addon): State {
    s.(versions := map[key.namespace := [a, b, a]], indexed := map[key.namespace := 2])
  }

  lemma WatchSkips(s: State, key: Key, cp: ClusterPermission, a: Addon, b: Addon, rules: Rules)
    requires s.versions == map[key.namespace := [a, b]] && s.indexed == map[key.namespace := 0] && s.notices == []
    requires s.queue == Queue([], {}, {}) && !rules.stepwise
    ensures Run(s, [AddonUpdated(key.namespace, a), Delivered(key.namespace, 2), NoticeFiltered], rules) ==
            Some(CaughtUp(s, key, a, b))
  {
    hide Apply, Allowed, AddonKey;
    var ns := key.namespace;
    var s1 := s.(versions := map[ns := [a, b] + [a]]);
    var s2 := s1.(indexed := map[ns := 2], notices := [Notice(ns, a, a)]);
    VersionAdded(s, ns, [a, b], a, rules);
    VersionDelivered(s1, ns, [a, b] + [a], 2, rules);
    NoticePassed(s2, ns, a, a, rules);
    assert [a, b] + [a] == [a, b, a];
    RunOfStates([s, s1, s2, CaughtUp(s, key, a, b)], [AddonUpdated(ns, a), Delivered(ns, 2), NoticeFiltered], rules);
  }

  // The first half: the addon has changed and the object is compiled from it and stored.
  lemma CompiledAhead(base: World, key: Key, cp: ClusterPermission, a: Addon, b: Addon, rules: Rules)
    requires cp.namespace == key.namespace
    ensures var s1 := OneObject(base, key, cp, a).(versions := map[key.namespace := [a, b]]);
      Run(OneObject(base, key, cp, a),
          [AddonUpdated(key.namespace, b)] + [ControllerCompiles(key, 1)] + [Writes(Controller)], rules) ==
        Some(Recorded(Starts(s1, key, cp, 1), key, Basis(cp, base, 1, 0)).(controllerFlight := Grounded))
  {
    hide Compile, OutcomeOf, UsesManaged, AddonKey, Run, Apply, Allowed;
    var s0 := OneObject(base, key, cp, a);
    var s1 := s0.(versions := map[key.namespace := [a] + [b]]);
    assert [a] + [b] == [a, b];
    var first := [AddonUpdated(key.namespace, b)];
    VersionAdded(s0, key.namespace, [a], b, rules);
    RunOfStates([s0, s1], first, rules);
    ControllerStarts(s1, key, cp, 1, rules);
    RunAppend(s0, first, [ControllerCompiles(key, 1)], rules);
    var s2 := Starts(s1, key, cp, 1);
    ControllerLands(s2, key, s2.controllerFlight.basis, rules);
    RunAppend(s0, first + [ControllerCompiles(key, 1)], [Writes(Controller)], rules);
  }

  function SkippedEnd(base: World, key: Key, cp: ClusterPermission, a: Addon, b: Addon): State
    requires cp.namespace == key.namespace
  {
    var s2 := Starts(OneObject(base, key, cp, a).(versions := map[key.namespace := [a, b]]), key, cp, 1);
    CaughtUp(Recorded(s2, key, Basis(cp, base, 1, 0)).(controllerFlight := Grounded), key, a, b)
  }

  lemma SkippedRunEnds(base: World, key: Key, cp: ClusterPermission, a: Addon, b: Addon, rules: Rules)
    requires cp.namespace == key.namespace && !rules.stepwise
    ensures Run(OneObject(base, key, cp, a), SkippedRun(key, a, b), rules) == Some(SkippedEnd(base, key, cp, a, b))
  {
    hide Compile, OutcomeOf, UsesManaged, AddonKey, Run, Apply, Allowed;
    var s2 := Starts(OneObject(base, key, cp, a).(versions := map[key.namespace := [a, b]]), key, cp, 1);
    var s3 := Recorded(s2, key, Basis(cp, base, 1, 0)).(controllerFlight := Grounded);
    CompiledAhead(base, key, cp, a, b, rules);
    WatchSkips(s3, key, cp, a, b, rules);
    RunAppend(OneObject(base, key, cp, a),
              [AddonUpdated(key.namespace, b)] + [ControllerCompiles(key, 1)] + [Writes(Controller)],
              [AddonUpdated(key.namespace, a), Delivered(key.namespace, 2), NoticeFiltered], rules);
  }

  lemma SkippedVersionMisses(base: World, key: Key, cp: ClusterPermission, a: Addon, b: Addon)
    requires Depends(base, key, cp, b, a)
    ensures Misses(OneObject(base, key, cp, a), SkippedRun(key, a, b), Rules(true, true, false), key)
  {
    hide Compile, OutcomeOf, UsesManaged, AddonKey, Accepts, EmitsManaged, EffectiveNamespace, Run, SkippedRun,
        UpToDate;
    SkippedRunEnds(base, key, cp, a, b, Rules(true, true, false));
    var s2 := Starts(OneObject(base, key, cp, a).(versions := map[key.namespace := [a, b]]), key, cp, 1);
    var s4 := SkippedEnd(base, key, cp, a, b);
    LaterOutcome(s2, s4, key, Basis(cp, base, 1, 0));
    OutdatedUnder(s4, key, base, b, a, Basis(cp, base, 1, 0));
  }

  // An outcome does not change when versions are added.
  lemma LaterOutcome(s: State, s': State, key: Key, b: Basis)
    requires s.Has(key.namespace) && b.read < |s.versions[key.namespace]|
    requires s'.Has(key.namespace) && s.versions[key.namespace] <= s'.versions[key.namespace]
    ensures OutcomeOf(s', key, b) == OutcomeOf(s, key, b)
  {
    hide Compile;
  }
}
