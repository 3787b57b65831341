/** What the compiled payload depends on, and what it does not. */
module PayloadProperties {
  import opened Prelude
  import opened Rbac
  import opened Api
  import opened Hub
  import opened Subjects
  import opened RoleRefs
  import opened Payload

  // --- The predicate that decides which ClusterPermissions an addon change recompiles

  predicate ClusterBindingsUseManaged(bindings: seq<ClusterRoleBindingSpec>) {
    exists i :: 0 <= i < |bindings| && BindingUsesManaged(bindings[i].subject, bindings[i].subjects)
  }

  predicate RoleBindingsUseManaged(bindings: seq<RoleBindingSpec>) {
    exists i :: 0 <= i < |bindings| && BindingUsesManaged(bindings[i].subject, bindings[i].subjects)
  }

  predicate UsesManaged(spec: Spec) {
    || ClusterBindingsUseManaged(SingularBinding(spec))
    || ClusterBindingsUseManaged(Elements(spec.clusterRoleBindings))
    || RoleBindingsUseManaged(Elements(spec.roleBindings))
  }

  method ContainsManaged(subjects: seq<Subject>) returns (found: bool)
    ensures found == AnyManaged(subjects)
  {
    for i := 0 to |subjects|
      invariant forall k :: 0 <= k < i ==> !IsManaged(subjects[k])
    {
      if IsManaged(subjects[i]) {
        return true;
      }
    }
    return false;
  }

  // The source's search: every binding is looked at, overridden or not, and both subject fields.
  method ClusterPermissionUsesManagedServiceAccount(spec: Spec) returns (uses: bool)
    ensures uses == UsesManaged(spec)
  {
    hide IsManaged, AnyManaged;
    if spec.clusterRoleBinding.Some? {
      var b := spec.clusterRoleBinding.value;
      assert SingularBinding(spec)[0] == b;
      if b.subject.Some? && IsManaged(b.subject.value) {
        return true;
      }
      var found := ContainsManaged(b.subjects);
      if found {
        return true;
      }
    }
    if spec.clusterRoleBindings.Some? {
      var bs := spec.clusterRoleBindings.value;
      for i := 0 to |bs|
        invariant forall k :: 0 <= k < i ==> !BindingUsesManaged(bs[k].subject, bs[k].subjects)
      {
        if bs[i].subject.Some? && IsManaged(bs[i].subject.value) {
          return true;
        }
        var found := ContainsManaged(bs[i].subjects);
        if found {
          return true;
        }
      }
    }
    if spec.roleBindings.Some? {
      var bs := spec.roleBindings.value;
      for i := 0 to |bs|
        invariant forall k :: 0 <= k < i ==> !BindingUsesManaged(bs[k].subject, bs[k].subjects)
      {
        if bs[i].subject.Some? && IsManaged(bs[i].subject.value) {
          return true;
        }
        var found := ContainsManaged(bs[i].subjects);
        if found {
          return true;
        }
      }
    }
    return false;
  }

  predicate IsAccount(subject: Subject) {
    subject.apiGroup == "authentication.open-cluster-management.io" && subject.kind == "ManagedServiceAccount"
  }

  predicate NamesAccount(subject: Option<Subject>, subjects: seq<Subject>) {
    (subject.Some? && IsAccount(subject.value)) || exists s :: s in subjects && IsAccount(s)
  }

  // What the search looks for: a managed service account in either subject field of any binding of
  // the three binding fields, whether or not that field or binding comes to be used.
  lemma UsesManagedExactly(spec: Spec)
    ensures UsesManaged(spec) <==>
      || (spec.clusterRoleBinding.Some? &&
            NamesAccount(spec.clusterRoleBinding.value.subject, spec.clusterRoleBinding.value.subjects))
      || (spec.clusterRoleBindings.Some? &&
            exists b :: b in spec.clusterRoleBindings.value && NamesAccount(b.subject, b.subjects))
      || (spec.roleBindings.Some? &&
            exists b :: b in spec.roleBindings.value && NamesAccount(b.subject, b.subjects))
  {
    forall subject, subjects ensures BindingUsesManaged(subject, subjects) <==> NamesAccount(subject, subjects) {
      NamesManaged(subject, subjects);
    }
    hide BindingUsesManaged, NamesAccount;
    ClusterBindingsUse(SingularBinding(spec));
    ClusterBindingsUse(Elements(spec.clusterRoleBindings));
    RoleBindingsUse(Elements(spec.roleBindings));
  }

  lemma NamesManaged(subject: Option<Subject>, subjects: seq<Subject>)
    ensures BindingUsesManaged(subject, subjects) <==> NamesAccount(subject, subjects)
  {
    assert forall s :: IsManaged(s) <==> IsAccount(s);
    hide IsManaged, IsAccount;
  }

  lemma ClusterBindingsUse(bs: seq<ClusterRoleBindingSpec>)
    ensures ClusterBindingsUseManaged(bs) <==> exists b :: b in bs && BindingUsesManaged(b.subject, b.subjects)
  {
    hide BindingUsesManaged;
  }

  lemma RoleBindingsUse(bs: seq<RoleBindingSpec>)
    ensures RoleBindingsUseManaged(bs) <==> exists b :: b in bs && BindingUsesManaged(b.subject, b.subjects)
  {
    hide BindingUsesManaged;
  }

  // --- Two worlds that differ only in addons

  predicate AgreeExceptAddons(w1: World, w2: World) {
    && w1.managedClusters == w2.managedClusters
    && w1.serviceAccounts == w2.serviceAccounts
    && w1.listings == w2.listings
  }

  // The same lookup failure, or two addons with the same effective namespace.
  predicate SameAddonEffect(w1: World, w2: World, cluster: string) {
    var a1, a2 := w1.GetAddon(cluster), w2.GetAddon(cluster);
    || (a1.Failure? && a1 == a2)
    || (a1.Success? && a2.Success? && EffectiveNamespace(a1.value) == EffectiveNamespace(a2.value))
  }

  lemma SubjectsUnaffected(w1: World, w2: World, cluster: string, subjects: seq<Subject>)
    requires AgreeExceptAddons(w1, w2)
    requires SameAddonEffect(w1, w2, cluster) || !AnyManaged(subjects)
    ensures SubjectChecks(w1, cluster, subjects) == SubjectChecks(w2, cluster, subjects)
    ensures TranslateEach(subjects, AddonNamespace(w1, cluster)) == TranslateEach(subjects, AddonNamespace(w2, cluster))
  {
    hide IsManaged;
    assert AccountChecks(w1, cluster, subjects) == AccountChecks(w2, cluster, subjects);
    assert AddonCheck(w1, cluster, subjects) == AddonCheck(w2, cluster, subjects);
  }

  // --- Which specs really depend on the addon

  predicate RoleBindingEmitsManaged(world: World, b: RoleBindingSpec) {
    Targets(world, b.namespace, b.namespaceSelector) != [] && AnyManaged(GetSubjects(b.subject, b.subjects))
  }

  // Some binding that is emitted has a managed subject among those it uses.
  predicate EmitsManaged(world: World, cp: ClusterPermission) {
    || (exists i :: 0 <= i < |EffectiveClusterBindings(cp.spec)| &&
          var b := EffectiveClusterBindings(cp.spec)[i]; AnyManaged(GetSubjects(b.subject, b.subjects)))
    || (exists i :: 0 <= i < |Elements(cp.spec.roleBindings)| &&
          RoleBindingEmitsManaged(world, Elements(cp.spec.roleBindings)[i]))
  }

  // The search over-approximates: it also sees bindings that are overridden or never emitted.
  lemma EmittedIsUsed(world: World, cp: ClusterPermission)
    requires EmitsManaged(world, cp)
    ensures UsesManaged(cp.spec)
  {
    hide IsManaged;
    var bs, rs := EffectiveClusterBindings(cp.spec), Elements(cp.spec.roleBindings);
    if i :| 0 <= i < |bs| && AnyManaged(GetSubjects(bs[i].subject, bs[i].subjects)) {
      assert BindingUsesManaged(bs[i].subject, bs[i].subjects);
    } else {
      var i :| 0 <= i < |rs| && RoleBindingEmitsManaged(world, rs[i]);
      assert BindingUsesManaged(rs[i].subject, rs[i].subjects);
    }
  }

  lemma RoleBindingUnaffected(w1: World, w2: World, cp: ClusterPermission, b: RoleBindingSpec)
    requires AgreeExceptAddons(w1, w2)
    requires SameAddonEffect(w1, w2, cp.namespace) || !RoleBindingEmitsManaged(w1, b)
    ensures RoleBindingChecks(w1, cp, b) == RoleBindingChecks(w2, cp, b)
    ensures RoleBindingBlock(w1, cp, b) == RoleBindingBlock(w2, cp, b)
  {
    hide AnyManaged, IsManaged, SubjectChecks, TranslateEach, AddonNamespace, SameAddonEffect, GetSubjects;
    assert Targets(w1, b.namespace, b.namespaceSelector) == Targets(w2, b.namespace, b.namespaceSelector);
    if Targets(w1, b.namespace, b.namespaceSelector) != [] {
      SubjectsUnaffected(w1, w2, cp.namespace, GetSubjects(b.subject, b.subjects));
    }
  }

  lemma ClusterBindingUnaffected(w1: World, w2: World, cp: ClusterPermission, b: ClusterRoleBindingSpec)
    requires AgreeExceptAddons(w1, w2)
    requires SameAddonEffect(w1, w2, cp.namespace) || !AnyManaged(GetSubjects(b.subject, b.subjects))
    ensures ClusterBindingChecks(w1, cp, b) == ClusterBindingChecks(w2, cp, b)
    ensures ClusterBindingOf(w1, cp, b) == ClusterBindingOf(w2, cp, b)
  {
    hide AnyManaged, IsManaged, SubjectChecks, TranslateEach, AddonNamespace, SameAddonEffect, GetSubjects;
    SubjectsUnaffected(w1, w2, cp.namespace, GetSubjects(b.subject, b.subjects));
  }

  // In two worlds that differ only in addons, compilation gives the same payload or the same
  // error, provided the addon has the same effect in both or no emitted binding is managed.
  lemma CompileUnaffected(w1: World, w2: World, cp: ClusterPermission, validate: bool)
    requires AgreeExceptAddons(w1, w2)
    requires SameAddonEffect(w1, w2, cp.namespace) || !EmitsManaged(w1, cp)
    ensures Compile(w1, cp, validate) == Compile(w2, cp, validate)
  {
    hide SameAddonEffect, AnyManaged, GetSubjects, RoleBindingEmitsManaged, ClusterBindingChecks, ClusterBindingOf,
         RoleBindingChecks, RoleBindingBlock, First;
    var bs := EffectiveClusterBindings(cp.spec);
    forall i | 0 <= i < |bs|
      ensures ClusterBindingChecks(w1, cp, bs[i]) == ClusterBindingChecks(w2, cp, bs[i])
      ensures ClusterBindingOf(w1, cp, bs[i]) == ClusterBindingOf(w2, cp, bs[i])
    {
      ClusterBindingUnaffected(w1, w2, cp, bs[i]);
    }
    assert ClusterCheckBlocks(w1, cp) == ClusterCheckBlocks(w2, cp);
    assert ClusterBindings(w1, cp) == ClusterBindings(w2, cp);
    var rs := Elements(cp.spec.roleBindings);
    forall i | 0 <= i < |rs|
      ensures RoleBindingChecks(w1, cp, rs[i]) == RoleBindingChecks(w2, cp, rs[i])
      ensures RoleBindingBlock(w1, cp, rs[i]) == RoleBindingBlock(w2, cp, rs[i])
    {
      RoleBindingUnaffected(w1, w2, cp, rs[i]);
    }
    assert RoleBindingCheckBlocks(w1, cp) == RoleBindingCheckBlocks(w2, cp);
    assert RoleBindingBlocks(w1, cp) == RoleBindingBlocks(w2, cp);
    assert RoleCheckBlocks(w1, cp) == RoleCheckBlocks(w2, cp);
    assert RoleBlocks(w1, cp) == RoleBlocks(w2, cp);
  }

  // Trigger soundness: where the search for managed subjects comes up empty, or the addon
  // keeps its effective namespace, a recompile that is not triggered would change nothing.
  lemma TriggerSound(w1: World, w2: World, cp: ClusterPermission, validate: bool)
    requires AgreeExceptAddons(w1, w2)
    requires SameAddonEffect(w1, w2, cp.namespace) || !UsesManaged(cp.spec)
    ensures Compile(w1, cp, validate) == Compile(w2, cp, validate)
  {
    hide SameAddonEffect, Compile;
    if EmitsManaged(w1, cp) {
      EmittedIsUsed(w1, cp);
    }
    CompileUnaffected(w1, w2, cp, validate);
  }

  function WithAddon(world: World, cluster: string, addon: Addon): World {
    world.(addons := world.addons[cluster := Success(addon)])
  }

  lemma ManagedSubjectMoves(subjects: seq<Subject>, n1: string, n2: string)
    requires n1 != n2
    ensures TranslateEach(subjects, n1) == TranslateEach(subjects, n2) <==> !AnyManaged(subjects)
  {
    hide IsManaged;
    if AnyManaged(subjects) {
      var i :| 0 <= i < |subjects| && IsManaged(subjects[i]);
      assert TranslateEach(subjects, n1)[i].namespace == n1 && TranslateEach(subjects, n2)[i].namespace == n2;
    }
  }

  lemma {:induction false} ConcatInjective<T>(a: seq<seq<T>>, b: seq<seq<T>>)
    requires |a| == |b| && forall i :: 0 <= i < |a| ==> |a[i]| == |b[i]|
    ensures Concat(a) == Concat(b) ==> a == b
  {
    if a != [] && Concat(a) == Concat(b) {
      assert a[0] == Concat(a)[..|a[0]|] && b[0] == Concat(b)[..|b[0]|];
      assert Concat(a[1..]) == Concat(a)[|a[0]|..] && Concat(b[1..]) == Concat(b)[|b[0]|..];
      ConcatInjective(a[1..], b[1..]);
      assert a == [a[0]] + a[1..] && b == [b[0]] + b[1..];
    }
  }

  lemma RoleBindingsMove(w1: World, w2: World, cp: ClusterPermission, i: nat)
    requires AgreeExceptAddons(w1, w2) && i < |Elements(cp.spec.roleBindings)|
    requires AddonNamespace(w1, cp.namespace) != AddonNamespace(w2, cp.namespace)
    requires var b := Elements(cp.spec.roleBindings)[i];
      Targets(w1, b.namespace, b.namespaceSelector) != [] && AnyManaged(GetSubjects(b.subject, b.subjects))
    ensures Concat(RoleBindingBlocks(w1, cp)) != Concat(RoleBindingBlocks(w2, cp))
  {
    hide AnyManaged, TranslateEach, AddonNamespace, GetSubjects;
    var b := Elements(cp.spec.roleBindings)[i];
    ManagedSubjectMoves(GetSubjects(b.subject, b.subjects), AddonNamespace(w1, cp.namespace),
        AddonNamespace(w2, cp.namespace));
    assert forall k :: 0 <= k < |Elements(cp.spec.roleBindings)| ==>
      |RoleBindingBlocks(w1, cp)[k]| == |RoleBindingBlocks(w2, cp)[k]|;
    ConcatInjective(RoleBindingBlocks(w1, cp), RoleBindingBlocks(w2, cp));
    assert RoleBindingBlocks(w1, cp)[i][0].subjects != RoleBindingBlocks(w2, cp)[i][0].subjects;
  }

  lemma ClusterBindingsMove(w1: World, w2: World, cp: ClusterPermission, i: nat)
    requires i < |EffectiveClusterBindings(cp.spec)|
    requires AddonNamespace(w1, cp.namespace) != AddonNamespace(w2, cp.namespace)
    requires var b := EffectiveClusterBindings(cp.spec)[i]; AnyManaged(GetSubjects(b.subject, b.subjects))
    ensures ClusterBindings(w1, cp) != ClusterBindings(w2, cp)
  {
    hide AnyManaged, TranslateEach, AddonNamespace, GetSubjects;
    var b := EffectiveClusterBindings(cp.spec)[i];
    ManagedSubjectMoves(GetSubjects(b.subject, b.subjects), AddonNamespace(w1, cp.namespace),
        AddonNamespace(w2, cp.namespace));
    assert ClusterBindings(w1, cp)[i].subjects != ClusterBindings(w2, cp)[i].subjects;
  }

  // Exact dependence. For two addons with different effective namespaces, an accepted spec
  // compiles to the same payload if and only if no binding it emits has a managed subject.
  lemma DependenceExact(w1: World, w2: World, cp: ClusterPermission, validate: bool)
    requires AgreeExceptAddons(w1, w2) && Accepts(w1, cp) && Accepts(w2, cp)
    requires AddonNamespace(w1, cp.namespace) != AddonNamespace(w2, cp.namespace)
    ensures Compile(w1, cp, validate) == Compile(w2, cp, validate) <==> !EmitsManaged(w1, cp)
  {
    AcceptsExactly(w1, cp, validate);
    AcceptsExactly(w2, cp, validate);
    hide AddonNamespace, Accepts, AnyManaged, GetSubjects, Checks;
    if !EmitsManaged(w1, cp) {
      CompileUnaffected(w1, w2, cp, validate);
    } else {
      var bs, rs := EffectiveClusterBindings(cp.spec), Elements(cp.spec.roleBindings);
      if i :| 0 <= i < |bs| && AnyManaged(GetSubjects(bs[i].subject, bs[i].subjects)) {
        ClusterBindingsMove(w1, w2, cp, i);
      } else {
        var i :| 0 <= i < |rs| && RoleBindingEmitsManaged(w1, rs[i]);
        RoleBindingsMove(w1, w2, cp, i);
      }
    }
  }

  lemma SubjectChecksAnyAddon(world: World, cluster: string, a: Addon, b: Addon, subjects: seq<Subject>)
    ensures SubjectChecks(WithAddon(world, cluster, a), cluster, subjects)
            == SubjectChecks(WithAddon(world, cluster, b), cluster, subjects)
  {
    hide IsManaged, AnyManaged;
    var w1, w2 := WithAddon(world, cluster, a), WithAddon(world, cluster, b);
    assert AccountChecks(w1, cluster, subjects) == AccountChecks(w2, cluster, subjects);
  }

  // Which addon is present decides no check, as long as one is.
  lemma ChecksAnyAddon(world: World, cp: ClusterPermission, a: Addon, b: Addon)
    ensures Checks(WithAddon(world, cp.namespace, a), cp) == Checks(WithAddon(world, cp.namespace, b), cp)
  {
    hide SubjectChecks, GetSubjects;
    var w1, w2 := WithAddon(world, cp.namespace, a), WithAddon(world, cp.namespace, b);
    var bs, rs := EffectiveClusterBindings(cp.spec), Elements(cp.spec.roleBindings);
    forall subjects ensures SubjectChecks(w1, cp.namespace, subjects) == SubjectChecks(w2, cp.namespace, subjects) {
      SubjectChecksAnyAddon(world, cp.namespace, a, b, subjects);
    }
    forall i | 0 <= i < |rs| ensures RoleBindingChecks(w1, cp, rs[i]) == RoleBindingChecks(w2, cp, rs[i]) {
    }
    hide WithAddon, RoleBindingChecks;
    assert ClusterCheckBlocks(w1, cp) == ClusterCheckBlocks(w2, cp);
    assert RoleBindingCheckBlocks(w1, cp) == RoleBindingCheckBlocks(w2, cp);
    assert RoleCheckBlocks(w1, cp) == RoleCheckBlocks(w2, cp);
  }

  // So a spec that fails to compile with one addon fails with the same error with any other.
  lemma FailureAnyAddon(world: World, cp: ClusterPermission, a: Addon, b: Addon, validate: bool)
    requires Compile(WithAddon(world, cp.namespace, a), cp, validate).Failure?
    ensures Compile(WithAddon(world, cp.namespace, b), cp, validate)
            == Compile(WithAddon(world, cp.namespace, a), cp, validate)
  {
    hide Checks, Flatten, WithAddon;
    ChecksAnyAddon(world, cp, a, b);
  }

  // Exact dependence on a change of the addon: a spec that compiles with one addon compiles to
  // the same with another if and only if both have the same effective namespace or the spec
  // emits no managed subject.
  lemma AddonChangeExact(world: World, cp: ClusterPermission, a: Addon, b: Addon, validate: bool)
    requires Compile(WithAddon(world, cp.namespace, a), cp, validate).Success?
    ensures Compile(WithAddon(world, cp.namespace, a), cp, validate) ==
            Compile(WithAddon(world, cp.namespace, b), cp, validate)
            <==> EffectiveNamespace(a) == EffectiveNamespace(b) || !EmitsManaged(WithAddon(world, cp.namespace, a), cp)
  {
    hide Accepts, Compile, EmitsManaged, EffectiveNamespace;
    var w1, w2 := WithAddon(world, cp.namespace, a), WithAddon(world, cp.namespace, b);
    if EffectiveNamespace(a) == EffectiveNamespace(b) {
      CompileUnaffected(w1, w2, cp, validate);
    } else {
      if Compile(w2, cp, validate).Failure? {
        FailureAnyAddon(world, cp, b, a, validate);
      }
      AcceptsExactly(w1, cp, validate);
      AcceptsExactly(w2, cp, validate);
      assert AddonNamespace(w1, cp.namespace) == EffectiveNamespace(a);
      assert AddonNamespace(w2, cp.namespace) == EffectiveNamespace(b);
      DependenceExact(w1, w2, cp, validate);
    }
  }

  // --- What of a ClusterPermission is compiled

  // One entry is compiled from itself and the owner's name and namespace, nothing else.
  lemma SameIdentityClusterBinding(world: World, cp: ClusterPermission, cp': ClusterPermission,
      b: ClusterRoleBindingSpec)
    requires cp.name == cp'.name && cp.namespace == cp'.namespace
    ensures ClusterBindingChecks(world, cp, b) == ClusterBindingChecks(world, cp', b)
    ensures ClusterBindingOf(world, cp, b) == ClusterBindingOf(world, cp', b)
  {
  }

  lemma SameIdentityRole(world: World, cp: ClusterPermission, cp': ClusterPermission, r: RoleSpec)
    requires cp.name == cp'.name
    ensures RoleBlock(world, cp, r) == RoleBlock(world, cp', r)
  {
  }

  lemma SameIdentityRoleBinding(world: World, cp: ClusterPermission, cp': ClusterPermission, b: RoleBindingSpec)
    requires cp.name == cp'.name && cp.namespace == cp'.namespace
    ensures RoleBindingChecks(world, cp, b) == RoleBindingChecks(world, cp', b)
    ensures RoleBindingBlock(world, cp, b) == RoleBindingBlock(world, cp', b)
  {
  }

  // Compilation reads the name, the namespace and the effective entries: two objects that
  // agree on those compile alike, whatever their status or UID.
  lemma SameInputsCompileAlike(world: World, cp: ClusterPermission, cp': ClusterPermission, validate: bool)
    requires cp.name == cp'.name && cp.namespace == cp'.namespace
    requires cp.spec.clusterRole == cp'.spec.clusterRole
    requires EffectiveClusterBindings(cp.spec) == EffectiveClusterBindings(cp'.spec)
    requires Elements(cp.spec.roles) == Elements(cp'.spec.roles)
    requires Elements(cp.spec.roleBindings) == Elements(cp'.spec.roleBindings)
    requires validate ==> Extracted(cp.spec) == Extracted(cp'.spec)
    ensures Compile(world, cp, validate) == Compile(world, cp', validate)
  {
    hide ClusterBindingChecks, ClusterBindingOf, RoleChecks, RoleBlock, RoleBindingChecks, RoleBindingBlock, First,
         EffectiveClusterBindings, Elements, Extracted;
    var bs, rs, rbs := EffectiveClusterBindings(cp.spec), Elements(cp.spec.roles), Elements(cp.spec.roleBindings);
    forall i | 0 <= i < |bs|
      ensures ClusterBindingChecks(world, cp, bs[i]) == ClusterBindingChecks(world, cp', bs[i])
      ensures ClusterBindingOf(world, cp, bs[i]) == ClusterBindingOf(world, cp', bs[i])
    {
      SameIdentityClusterBinding(world, cp, cp', bs[i]);
    }
    forall i | 0 <= i < |rs| ensures RoleBlock(world, cp, rs[i]) == RoleBlock(world, cp', rs[i]) {
      SameIdentityRole(world, cp, cp', rs[i]);
    }
    forall i | 0 <= i < |rbs|
      ensures RoleBindingChecks(world, cp, rbs[i]) == RoleBindingChecks(world, cp', rbs[i])
      ensures RoleBindingBlock(world, cp, rbs[i]) == RoleBindingBlock(world, cp', rbs[i])
    {
      SameIdentityRoleBinding(world, cp, cp', rbs[i]);
    }
    assert ClusterCheckBlocks(world, cp) == ClusterCheckBlocks(world, cp');
    assert ClusterBindings(world, cp) == ClusterBindings(world, cp');
    assert RoleBlocks(world, cp) == RoleBlocks(world, cp') && RoleCheckBlocks(world, cp) == RoleCheckBlocks(world, cp');
    assert RoleBindingCheckBlocks(world, cp) == RoleBindingCheckBlocks(world, cp');
    assert RoleBindingBlocks(world, cp) == RoleBindingBlocks(world, cp');
  }

  // A plural list that is not empty makes the singular binding irrelevant to everything
  // emitted, errors included; only the extracted references still see it.
  lemma PluralReplacesSingular(world: World, cp: ClusterPermission, other: Option<ClusterRoleBindingSpec>)
    requires Elements(cp.spec.clusterRoleBindings) != []
    ensures Compile(world, cp, false) == Compile(world, cp.(spec := cp.spec.(clusterRoleBinding := other)), false)
  {
    SameInputsCompileAlike(world, cp, cp.(spec := cp.spec.(clusterRoleBinding := other)), false);
  }

  // --- The order namespaces are listed in

  predicate PermutedListing(a: Listing, b: Listing) {
    || a == b
    || (a.Listed? && b.Listed? && a.items.Some? && b.items.Some? && multiset(a.items.value) == multiset(b.items.value))
  }

  ghost predicate PermutedListings(w1: World, w2: World) {
    && w1.managedClusters == w2.managedClusters
    && w1.serviceAccounts == w2.serviceAccounts
    && w1.addons == w2.addons
    && (forall selector: Selector :: PermutedListing(w1.ListNamespaces(selector), w2.ListNamespaces(selector)))
  }

  predicate PermutedPayload(p1: Payload, p2: Payload) {
    && p1.clusterRole == p2.clusterRole
    && p1.clusterRoleBindings == p2.clusterRoleBindings
    && p1.roleRefs == p2.roleRefs
    && multiset(p1.roles) == multiset(p2.roles)
    && multiset(p1.roleBindings) == multiset(p2.roleBindings)
  }

  // The blocks of one entry: reordered if a selector placed them, otherwise the same.
  predicate PermutedBlock<T(==)>(selector: Option<Selector>, b1: seq<T>, b2: seq<T>) {
    && multiset(b1) == multiset(b2)
    && (selector.None? ==> b1 == b2)
  }

  lemma TargetsPermuted(w1: World, w2: World, namespace: string, selector: Option<Selector>)
    requires PermutedListings(w1, w2)
    ensures multiset(Targets(w1, namespace, selector)) == multiset(Targets(w2, namespace, selector))
    ensures selector.None? ==> Targets(w1, namespace, selector) == Targets(w2, namespace, selector)
    ensures ListingCheck(w1, selector) == ListingCheck(w2, selector)
    ensures Targets(w1, namespace, selector) == [] <==> Targets(w2, namespace, selector) == []
  {
    if selector.Some? {
      assert PermutedListing(w1.ListNamespaces(selector.value), w2.ListNamespaces(selector.value));
    }
    var t1, t2 := Targets(w1, namespace, selector), Targets(w2, namespace, selector);
    assert |multiset(t1)| == |t1| && |multiset(t2)| == |t2|;
  }

  lemma RoleBlockPermuted(w1: World, w2: World, cp: ClusterPermission, r: RoleSpec)
    requires PermutedListings(w1, w2)
    ensures RoleChecks(w1, r) == RoleChecks(w2, r)
    ensures multiset(RoleBlock(w1, cp, r)) == multiset(RoleBlock(w2, cp, r))
    ensures r.namespaceSelector.None? ==> RoleBlock(w1, cp, r) == RoleBlock(w2, cp, r)
  {
    hide PermutedListings, Targets, ListingCheck;
    TargetsPermuted(w1, w2, r.namespace, r.namespaceSelector);
    MapPermuted(Targets(w1, r.namespace, r.namespaceSelector), Targets(w2, r.namespace, r.namespaceSelector),
                RoleBlock(w1, cp, r), RoleBlock(w2, cp, r), (n: string) => RoleIn(cp, r.rules, n));
  }

  lemma RoleBindingInSame(w1: World, w2: World, cp: ClusterPermission, b: RoleBindingSpec, n: string)
    requires w1.addons == w2.addons
    ensures RoleBindingIn(w1, cp, b, n) == RoleBindingIn(w2, cp, b, n)
  {
    hide IsManaged;
    assert AddonNamespace(w1, cp.namespace) == AddonNamespace(w2, cp.namespace);
  }

  lemma SubjectChecksSame(w1: World, w2: World, cluster: string, subjects: seq<Subject>)
    requires w1.addons == w2.addons && w1.serviceAccounts == w2.serviceAccounts
    ensures SubjectChecks(w1, cluster, subjects) == SubjectChecks(w2, cluster, subjects)
    ensures AddonNamespace(w1, cluster) == AddonNamespace(w2, cluster)
  {
    hide IsManaged;
    assert AccountChecks(w1, cluster, subjects) == AccountChecks(w2, cluster, subjects);
  }

  lemma RoleBindingBlockPermuted(w1: World, w2: World, cp: ClusterPermission, b: RoleBindingSpec)
    requires PermutedListings(w1, w2)
    ensures RoleBindingChecks(w1, cp, b) == RoleBindingChecks(w2, cp, b)
    ensures multiset(RoleBindingBlock(w1, cp, b)) == multiset(RoleBindingBlock(w2, cp, b))
    ensures b.namespaceSelector.None? ==> RoleBindingBlock(w1, cp, b) == RoleBindingBlock(w2, cp, b)
  {
    SubjectChecksSame(w1, w2, cp.namespace, GetSubjects(b.subject, b.subjects));
    TargetsPermuted(w1, w2, b.namespace, b.namespaceSelector);
    hide Targets, ListingCheck, RoleBindingIn, SubjectChecks, GetSubjects, IsManaged;
    forall n: string ensures RoleBindingIn(w1, cp, b, n) == RoleBindingIn(w2, cp, b, n) {
      RoleBindingInSame(w1, w2, cp, b, n);
    }
    hide PermutedListings;
    MapPermuted(Targets(w1, b.namespace, b.namespaceSelector), Targets(w2, b.namespace, b.namespaceSelector),
                RoleBindingBlock(w1, cp, b), RoleBindingBlock(w2, cp, b), (n: string) => RoleBindingIn(w1, cp, b, n));
  }

  // Permuting the namespaces any selector lists changes neither whether compilation succeeds
  // nor its error. The cluster-scoped part is the same, each role or binding entry's block is a
  // permutation of what it was, and a block without a selector is the same block.
  lemma OrderInsensitive(w1: World, w2: World, cp: ClusterPermission, validate: bool)
    requires PermutedListings(w1, w2)
    ensures Checks(w1, cp) == Checks(w2, cp)
    ensures Compile(w1, cp, validate).Failure? ==> Compile(w2, cp, validate) == Compile(w1, cp, validate)
    ensures Compile(w1, cp, validate).Success? ==> Compile(w2, cp, validate).Success?
    ensures Compile(w1, cp, validate).Success? ==>
              PermutedPayload(Compile(w1, cp, validate).value, Compile(w2, cp, validate).value)
    ensures forall i :: 0 <= i < |Elements(cp.spec.roles)| ==>
              PermutedBlock(Elements(cp.spec.roles)[i].namespaceSelector, RoleBlocks(w1, cp)[i], RoleBlocks(w2, cp)[i])
    ensures forall i :: 0 <= i < |Elements(cp.spec.roleBindings)| ==>
              PermutedBlock(Elements(cp.spec.roleBindings)[i].namespaceSelector,
                            RoleBindingBlocks(w1, cp)[i], RoleBindingBlocks(w2, cp)[i])
  {
    var bs, rs, rbs := EffectiveClusterBindings(cp.spec), Elements(cp.spec.roles), Elements(cp.spec.roleBindings);
    forall i | 0 <= i < |bs|
      ensures ClusterBindingChecks(w1, cp, bs[i]) == ClusterBindingChecks(w2, cp, bs[i])
      ensures ClusterBindingOf(w1, cp, bs[i]) == ClusterBindingOf(w2, cp, bs[i])
    {
      SubjectChecksSame(w1, w2, cp.namespace, GetSubjects(bs[i].subject, bs[i].subjects));
    }
    hide PermutedListings, ClusterBindingChecks, ClusterBindingOf, RoleChecks, RoleBlock, RoleBindingChecks,
        RoleBindingBlock, First;
    assert ClusterCheckBlocks(w1, cp) == ClusterCheckBlocks(w2, cp);
    assert ClusterBindings(w1, cp) == ClusterBindings(w2, cp);
    forall i | 0 <= i < |rs|
      ensures RoleChecks(w1, rs[i]) == RoleChecks(w2, rs[i])
      ensures PermutedBlock(rs[i].namespaceSelector, RoleBlock(w1, cp, rs[i]), RoleBlock(w2, cp, rs[i]))
    {
      RoleBlockPermuted(w1, w2, cp, rs[i]);
    }
    forall i | 0 <= i < |rbs|
      ensures RoleBindingChecks(w1, cp, rbs[i]) == RoleBindingChecks(w2, cp, rbs[i])
      ensures PermutedBlock(rbs[i].namespaceSelector, RoleBindingBlock(w1, cp, rbs[i]),
              RoleBindingBlock(w2, cp, rbs[i]))
    {
      RoleBindingBlockPermuted(w1, w2, cp, rbs[i]);
    }
    assert RoleCheckBlocks(w1, cp) == RoleCheckBlocks(w2, cp);
    assert RoleBindingCheckBlocks(w1, cp) == RoleBindingCheckBlocks(w2, cp);
    ConcatPermuted(RoleBlocks(w1, cp), RoleBlocks(w2, cp));
    ConcatPermuted(RoleBindingBlocks(w1, cp), RoleBindingBlocks(w2, cp));
  }
}
