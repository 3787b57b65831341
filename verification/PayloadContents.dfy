/** What a compiled payload holds and which error a refused one names, said of the spec and the world alone. */
module PayloadContents {
  import opened Prelude
  import opened Rbac
  import opened Api
  import opened Hub
  import opened Subjects
  import opened RoleRefs
  import opened Payload

  // --- Subjects

  // What an emitted subject is to the one given: a managed service account becomes the service
  // account of its name in the namespace the addon runs in, anything else stays.
  predicate StandsFor(world: World, cluster: string, given: Subject, emitted: Subject) {
    if given.apiGroup == "authentication.open-cluster-management.io" && given.kind == "ManagedServiceAccount" then
      && world.GetAddon(cluster).Success?
      && emitted.apiGroup == "" && emitted.kind == "ServiceAccount" && emitted.name == given.name
      && var addon := world.GetAddon(cluster).value;
         (addon.statusNamespace != "" ==> emitted.namespace == addon.statusNamespace)
         && (addon.statusNamespace == "" ==> emitted.namespace == addon.installNamespace)
    else emitted == given
  }

  // The list is used whenever it has elements, the single subject only when it has none.
  predicate SubjectsStand(world: World, cluster: string, subject: Option<Subject>, subjects: seq<Subject>,
                          emitted: seq<Subject>)
  {
    && (subjects != [] ==> |emitted| == |subjects|)
    && (subjects != [] ==> forall i :: 0 <= i < |emitted| && i < |subjects| ==>
          StandsFor(world, cluster, subjects[i], emitted[i]))
    && (subjects == [] && subject.Some? ==> |emitted| == 1 && StandsFor(world, cluster, subject.value, emitted[0]))
    && (subjects == [] && subject.None? ==> emitted == [])
  }

  lemma TranslatedStand(world: World, cluster: string, subject: Option<Subject>, subjects: seq<Subject>)
    requires SubjectsResolve(world, cluster, GetSubjects(subject, subjects))
    ensures SubjectsStand(world, cluster, subject, subjects,
                          TranslateEach(GetSubjects(subject, subjects), AddonNamespace(world, cluster)))
  {
    var given := GetSubjects(subject, subjects);
    forall i | 0 <= i < |given|
      ensures StandsFor(world, cluster, given[i], TranslateEach(given, AddonNamespace(world, cluster))[i])
    {
      OneStands(world, cluster, given[i]);
    }
  }

  lemma OneStands(world: World, cluster: string, subject: Subject)
    requires IsManaged(subject) ==> world.GetAddon(cluster).Success?
    ensures StandsFor(world, cluster, subject, Translate(subject, AddonNamespace(world, cluster)))
  {
  }

  // --- The payload

  // The cluster role is named after its owner and has the rules of the spec.
  lemma CompiledClusterRole(world: World, cp: ClusterPermission, validate: bool)
    requires Compile(world, cp, validate).Success?
    ensures var role := Compile(world, cp, validate).value.clusterRole;
      && (role.Some? <==> cp.spec.clusterRole.Some?)
      && (role.Some? ==> role.value.name == cp.name && role.value.rules == cp.spec.clusterRole.value.rules)
  {
    hide Checks, ClusterBindings, RoleBlocks, RoleBindingBlocks, Extracted;
  }

  predicate ClusterBindingFits(world: World, cp: ClusterPermission, b: ClusterRoleBindingSpec,
                               emitted: ClusterRoleBinding)
  {
    && (b.name != "" ==> emitted.name == b.name)
    && (b.name == "" ==> emitted.name == cp.name)
    && (b.roleRef.Some? ==> emitted.roleRef == b.roleRef.value)
    && (b.roleRef.None? ==>
          && emitted.roleRef.apiGroup == "rbac.authorization.k8s.io"
          && emitted.roleRef.kind == "ClusterRole"
          && emitted.roleRef.name == cp.name)
    && SubjectsStand(world, cp.namespace, b.subject, b.subjects, emitted.subjects)
  }

  // One cluster binding for each entry of the plural list if it has any, otherwise for the singular one.
  lemma CompiledClusterBindings(world: World, cp: ClusterPermission, validate: bool)
    requires Compile(world, cp, validate).Success?
    ensures var emitted, plural := Compile(world, cp, validate).value.clusterRoleBindings, cp.spec.clusterRoleBindings;
      if plural.Some? && plural.value != [] then
        && |emitted| == |plural.value|
        && forall i :: 0 <= i < |emitted| ==> ClusterBindingFits(world, cp, plural.value[i], emitted[i])
      else if cp.spec.clusterRoleBinding.Some? then
        |emitted| == 1 && ClusterBindingFits(world, cp, cp.spec.clusterRoleBinding.value, emitted[0])
      else emitted == []
  {
    hide RoleBlocks, RoleBindingBlocks, Extracted, Checks, AcceptsRoles, AcceptsRoleBindings, SubjectsResolve,
         ClusterBindingFits, ClusterBindingOf;
    AcceptsExactly(world, cp, validate);
    var bs := EffectiveClusterBindings(cp.spec);
    forall i | 0 <= i < |bs| ensures ClusterBindingFits(world, cp, bs[i], ClusterBindingOf(world, cp, bs[i])) {
      OneClusterBindingFits(world, cp, bs[i]);
    }
  }

  lemma OneClusterBindingFits(world: World, cp: ClusterPermission, b: ClusterRoleBindingSpec)
    requires SubjectsResolve(world, cp.namespace, GetSubjects(b.subject, b.subjects))
    ensures ClusterBindingFits(world, cp, b, ClusterBindingOf(world, cp, b))
  {
    hide SubjectsResolve, SubjectsStand, TranslateEach, GetSubjects, AddonNamespace;
    TranslatedStand(world, cp.namespace, b.subject, b.subjects);
  }

  // The namespaces an entry is placed in: its own, or exactly those its selector lists, in their order.
  predicate PlacedIn(world: World, namespace: string, selector: Option<Selector>, namespaces: seq<string>) {
    && (selector.None? ==> namespace != "" && namespaces == [namespace])
    && (selector.Some? ==> namespace == "" && world.ListNamespaces(selector.value) == Listed(Some(namespaces)))
  }

  predicate RoleFits(world: World, cp: ClusterPermission, r: RoleSpec, emitted: seq<Role>) {
    && PlacedIn(world, r.namespace, r.namespaceSelector,
                seq(|emitted|, k requires 0 <= k < |emitted| => emitted[k].namespace))
    && forall k :: 0 <= k < |emitted| ==> emitted[k].name == cp.name && emitted[k].rules == r.rules
  }

  // The roles are the entries' own roles, one entry after another.
  lemma CompiledRoles(world: World, cp: ClusterPermission, validate: bool) returns (emitted: seq<seq<Role>>)
    requires Compile(world, cp, validate).Success?
    ensures Compile(world, cp, validate).value.roles == Concat(emitted)
    ensures var rs := cp.spec.roles;
      if rs.None? then emitted == []
      else |emitted| == |rs.value| && forall i :: 0 <= i < |emitted| ==> RoleFits(world, cp, rs.value[i], emitted[i])
  {
    hide ClusterBindings, RoleBindingBlocks, Extracted, Checks, AcceptsClusterBindings, AcceptsRoleBindings,
         RoleFits, RoleBlock, Placed, Resolves;
    AcceptsExactly(world, cp, validate);
    emitted := RoleBlocks(world, cp);
    forall i | 0 <= i < |emitted| ensures RoleFits(world, cp, Elements(cp.spec.roles)[i], emitted[i]) {
      OneRoleFits(world, cp, Elements(cp.spec.roles)[i]);
    }
  }

  lemma OneRoleFits(world: World, cp: ClusterPermission, r: RoleSpec)
    requires Placed(r.namespace, r.namespaceSelector) && Resolves(world, r.namespaceSelector)
    ensures RoleFits(world, cp, r, RoleBlock(world, cp, r))
  {
    var block := RoleBlock(world, cp, r);
    assert seq(|block|, k requires 0 <= k < |block| => block[k].namespace) ==
           Targets(world, r.namespace, r.namespaceSelector);
  }

  // An emitted role binding keeps the kind its entry refers to. Where a namespace places it, the
  // entry's own name and role are used if given; a selector uses the defaults throughout.
  predicate RoleBindingFits(world: World, cp: ClusterPermission, b: RoleBindingSpec, emitted: RoleBinding) {
    && (b.namespaceSelector.None? && b.name != "" ==> emitted.name == b.name)
    && (b.namespaceSelector.Some? || b.name == "" ==> emitted.name == cp.name)
    && emitted.roleRef.kind == b.roleRef.kind
    && (b.namespaceSelector.None? && b.roleRef.name != "" ==>
          emitted.roleRef.name == b.roleRef.name && emitted.roleRef.apiGroup == b.roleRef.apiGroup)
    && (b.namespaceSelector.Some? || b.roleRef.name == "" ==>
          emitted.roleRef.name == cp.name && emitted.roleRef.apiGroup == "rbac.authorization.k8s.io")
    && SubjectsStand(world, cp.namespace, b.subject, b.subjects, emitted.subjects)
  }

  predicate RoleBindingsFit(world: World, cp: ClusterPermission, b: RoleBindingSpec, emitted: seq<RoleBinding>) {
    && PlacedIn(world, b.namespace, b.namespaceSelector,
                seq(|emitted|, k requires 0 <= k < |emitted| => emitted[k].namespace))
    && forall k :: 0 <= k < |emitted| ==> RoleBindingFits(world, cp, b, emitted[k])
  }

  // The role bindings are the entries' own, one entry after another.
  lemma CompiledRoleBindings(world: World, cp: ClusterPermission, validate: bool)
    returns (emitted: seq<seq<RoleBinding>>)
    requires Compile(world, cp, validate).Success?
    ensures Compile(world, cp, validate).value.roleBindings == Concat(emitted)
    ensures var bs := cp.spec.roleBindings;
      if bs.None? then emitted == []
      else
        && |emitted| == |bs.value|
        && forall i :: 0 <= i < |emitted| ==> RoleBindingsFit(world, cp, bs.value[i], emitted[i])
  {
    hide ClusterBindings, RoleBlocks, Extracted, Checks, AcceptsClusterBindings, AcceptsRoles, RoleBindingsFit,
         RoleBindingBlock, AcceptsRoleBinding;
    AcceptsExactly(world, cp, validate);
    emitted := RoleBindingBlocks(world, cp);
    forall i | 0 <= i < |emitted| ensures RoleBindingsFit(world, cp, Elements(cp.spec.roleBindings)[i], emitted[i]) {
      OneEntryFits(world, cp, Elements(cp.spec.roleBindings)[i]);
    }
  }

  lemma OneEntryFits(world: World, cp: ClusterPermission, b: RoleBindingSpec)
    requires AcceptsRoleBinding(world, cp, b)
    ensures RoleBindingsFit(world, cp, b, RoleBindingBlock(world, cp, b))
  {
    hide SubjectsResolve, SubjectsStand, TranslateEach, GetSubjects, AddonNamespace, RoleBindingFits;
    var block := RoleBindingBlock(world, cp, b);
    var targets := Targets(world, b.namespace, b.namespaceSelector);
    assert seq(|block|, k requires 0 <= k < |block| => block[k].namespace) == targets;
    forall k | 0 <= k < |block| ensures RoleBindingFits(world, cp, b, block[k]) {
      OneRoleBindingFits(world, cp, b, targets[k]);
    }
  }

  lemma OneRoleBindingFits(world: World, cp: ClusterPermission, b: RoleBindingSpec, namespace: string)
    requires AcceptsRoleBinding(world, cp, b) && Targets(world, b.namespace, b.namespaceSelector) != []
    ensures RoleBindingFits(world, cp, b, RoleBindingIn(world, cp, b, namespace))
  {
    hide SubjectsResolve, SubjectsStand, TranslateEach, GetSubjects, AddonNamespace, Targets, Placed, Resolves;
    TranslatedStand(world, cp.namespace, b.subject, b.subjects);
  }

  // --- The error

  // A subject list fails with its first missing account, or with the addon's error when all
  // accounts are there and one of them is managed.
  ghost predicate SubjectsFail(world: World, cluster: string, subjects: seq<Subject>, e: Error) {
    || (exists i :: 0 <= i < |subjects| && AccountFails(world, cluster, subjects[i], e)
          && forall j :: 0 <= j < i ==> AccountPasses(world, cluster, subjects[j]))
    || ((forall j :: 0 <= j < |subjects| ==> AccountPasses(world, cluster, subjects[j]))
          && AnyManaged(subjects) && world.GetAddon(cluster) == Failure(e))
  }

  predicate AccountFails(world: World, cluster: string, subject: Subject, e: Error) {
    IsManaged(subject) && world.GetServiceAccount(cluster, subject.name) == Failure(e)
  }

  predicate AccountPasses(world: World, cluster: string, subject: Subject) {
    IsManaged(subject) ==> world.GetServiceAccount(cluster, subject.name).Success?
  }

  lemma {:induction false} FirstExactly<T>(options: seq<Option<T>>, x: T)
    ensures First(options) == Some(x) <==>
            exists i :: 0 <= i < |options| && options[i] == Some(x) && forall j :: 0 <= j < i ==> options[j].None?
  {
    if First(options).Some? {
      var i := FirstStands(options);
    }
    if i :| 0 <= i < |options| && options[i] == Some(x) && forall j :: 0 <= j < i ==> options[j].None? {
      FirstAbsent(options);
      var k := FirstStands(options);
      assert i == k;
    }
  }

  lemma SubjectsFailExactly(world: World, cluster: string, subjects: seq<Subject>, e: Error)
    ensures First(SubjectChecks(world, cluster, subjects)) == Some(e) <==> SubjectsFail(world, cluster, subjects, e)
  {
    hide IsManaged, AnyManaged, First;
    var accounts := AccountChecks(world, cluster, subjects);
    var last := AddonCheck(world, cluster, subjects);
    FirstAppend(accounts, [last]);
    FirstExactly(accounts, e);
    FirstAbsent(accounts);
    FirstExactly([last], e);
    assert forall i :: 0 <= i < |subjects| ==>
      && (accounts[i] == Some(e) <==> AccountFails(world, cluster, subjects[i], e))
      && (accounts[i].None? <==> AccountPasses(world, cluster, subjects[i]));
    assert First([last]) == Some(e) <==> AnyManaged(subjects) && world.GetAddon(cluster) == Failure(e) by {
      if last == Some(e) {
        assert [last][0] == Some(e);
      }
    }
  }

  // How an entry's placement fails: neither given, both given, the listing's error, or a nil list.
  predicate PlacementFails(world: World, entry: Entry, namespace: string, selector: Option<Selector>, e: Error) {
    if namespace == "" && selector.None? then e == Unplaced(entry)
    else if namespace != "" && selector.Some? then e == Ambiguous(entry)
    else
      && selector.Some?
      && match world.ListNamespaces(selector.value)
         case BadSelector(error) => e == error
         case ListFailed(error) => e == error
         case Listed(items) => items.None? && e == NoNamespaceSelected
  }

  lemma PlacementFailsExactly(world: World, entry: Entry, namespace: string, selector: Option<Selector>, e: Error)
    ensures First([PlacementCheck(entry, namespace, selector), ListingCheck(world, selector)]) == Some(e) <==>
            PlacementFails(world, entry, namespace, selector, e)
  {
    FirstOfTwo(PlacementCheck(entry, namespace, selector), ListingCheck(world, selector));
  }

  // A role binding fails by its placement first, then by its subjects if it is placed anywhere, and
  // last, where a namespace places it, by giving only one of API group and name.
  ghost predicate RoleBindingFails(world: World, cp: ClusterPermission, b: RoleBindingSpec, e: Error) {
    || PlacementFails(world, RoleBindingEntry, b.namespace, b.namespaceSelector, e)
    || (&& Placed(b.namespace, b.namespaceSelector) && Resolves(world, b.namespaceSelector)
        && (b.namespaceSelector.Some? ==> world.ListNamespaces(b.namespaceSelector.value) != Listed(Some([])))
        && SubjectsFail(world, cp.namespace, GetSubjects(b.subject, b.subjects), e))
    || (&& b.namespace != "" && b.namespaceSelector.None?
        && SubjectsResolve(world, cp.namespace, GetSubjects(b.subject, b.subjects))
        && (|| (b.roleRef.apiGroup == "" && b.roleRef.name != "" && e == MissingApiGroup(b.namespace))
            || (b.roleRef.apiGroup != "" && b.roleRef.name == "" && e == MissingName(b.namespace))))
  }

  lemma RoleBindingFailsExactly(world: World, cp: ClusterPermission, b: RoleBindingSpec, e: Error)
    ensures First(RoleBindingChecks(world, cp, b)) == Some(e) <==> RoleBindingFails(world, cp, b, e)
  {
    hide SubjectsFail, SubjectsResolve, SubjectChecks, GetSubjects;
    var subjects := GetSubjects(b.subject, b.subjects);
    var placement, content := BindingPlacementChecks(world, b), BindingContentChecks(world, cp, b);
    FirstAppend(placement, content);
    PlacementFailsExactly(world, RoleBindingEntry, b.namespace, b.namespaceSelector, e);
    FirstOfTwo(PlacementCheck(RoleBindingEntry, b.namespace, b.namespaceSelector),
               ListingCheck(world, b.namespaceSelector));
    FirstAppend(SubjectChecks(world, cp.namespace, subjects), [RoleRefCheck(b)]);
    SubjectsFailExactly(world, cp.namespace, subjects, e);
    SubjectChecksPass(world, cp.namespace, subjects);
    SubjectsFailOrResolve(world, cp.namespace, subjects, e);
  }

  lemma SubjectsFailOrResolve(world: World, cluster: string, subjects: seq<Subject>, e: Error)
    ensures !(SubjectsFail(world, cluster, subjects, e) && SubjectsResolve(world, cluster, subjects))
  {
    hide IsManaged;
  }

  lemma {:induction false} FirstConcatExactly<T>(blocks: seq<seq<Option<T>>>, x: T)
    ensures First(Concat(blocks)) == Some(x) <==>
            exists i :: 0 <= i < |blocks| && First(blocks[i]) == Some(x)
              && forall j :: 0 <= j < i ==> First(blocks[j]).None?
  {
    if blocks != [] {
      FirstConcatExactly(blocks[1..], x);
      FirstAppend(blocks[0], Concat(blocks[1..]));
      hide First;
      if i :| 0 <= i < |blocks[1..]| && First(blocks[1..][i]) == Some(x)
              && forall j :: 0 <= j < i ==> First(blocks[1..][j]).None? {
        assert First(blocks[i + 1]) == Some(x);
        assert First(blocks[0]).None? ==> forall j :: 1 <= j < i + 1 ==> blocks[j] == blocks[1..][j - 1];
      }
      if i :| 0 <= i < |blocks| && First(blocks[i]) == Some(x) && forall j :: 0 <= j < i ==> First(blocks[j]).None? {
        if i > 0 {
          assert First(blocks[1..][i - 1]) == Some(x);
          assert forall j :: 0 <= j < i - 1 ==> blocks[1..][j] == blocks[j + 1];
        }
      }
    }
  }

  ghost predicate ClusterBindingsFail(world: World, cp: ClusterPermission, e: Error) {
    var bs := EffectiveClusterBindings(cp.spec);
    exists i :: 0 <= i < |bs|
      && SubjectsFail(world, cp.namespace, GetSubjects(bs[i].subject, bs[i].subjects), e)
      && forall j :: 0 <= j < i ==> SubjectsResolve(world, cp.namespace, GetSubjects(bs[j].subject, bs[j].subjects))
  }

  ghost predicate RolesFail(world: World, cp: ClusterPermission, e: Error) {
    var rs := Elements(cp.spec.roles);
    exists i :: 0 <= i < |rs|
      && PlacementFails(world, RoleEntry, rs[i].namespace, rs[i].namespaceSelector, e)
      && forall j :: 0 <= j < i ==>
           Placed(rs[j].namespace, rs[j].namespaceSelector) && Resolves(world, rs[j].namespaceSelector)
  }

  ghost predicate RoleBindingsFail(world: World, cp: ClusterPermission, e: Error) {
    var bs := Elements(cp.spec.roleBindings);
    exists i :: 0 <= i < |bs| && RoleBindingFails(world, cp, bs[i], e)
      && forall j :: 0 <= j < i ==> AcceptsRoleBinding(world, cp, bs[j])
  }

  lemma ClusterBindingsFailExactly(world: World, cp: ClusterPermission, e: Error)
    ensures First(Concat(ClusterCheckBlocks(world, cp))) == Some(e) <==> ClusterBindingsFail(world, cp, e)
  {
    hide SubjectsResolve, SubjectsFail, SubjectChecks, EffectiveClusterBindings, GetSubjects, First, Concat;
    var bs, blocks := EffectiveClusterBindings(cp.spec), ClusterCheckBlocks(world, cp);
    FirstConcatExactly(blocks, e);
    forall i | 0 <= i < |bs|
      ensures var subjects := GetSubjects(bs[i].subject, bs[i].subjects);
        && (First(blocks[i]) == Some(e) <==> SubjectsFail(world, cp.namespace, subjects, e))
        && (First(blocks[i]).None? <==> SubjectsResolve(world, cp.namespace, subjects))
    {
      SubjectsFailExactly(world, cp.namespace, GetSubjects(bs[i].subject, bs[i].subjects), e);
      SubjectChecksPass(world, cp.namespace, GetSubjects(bs[i].subject, bs[i].subjects));
    }
  }

  lemma RolesFailExactly(world: World, cp: ClusterPermission, e: Error)
    ensures First(Concat(RoleCheckBlocks(world, cp))) == Some(e) <==> RolesFail(world, cp, e)
  {
    hide PlacementFails, Placed, Resolves, PlacementCheck, ListingCheck, First, Concat;
    var rs, blocks := Elements(cp.spec.roles), RoleCheckBlocks(world, cp);
    FirstConcatExactly(blocks, e);
    forall i | 0 <= i < |rs|
      ensures First(blocks[i]) == Some(e) <==>
              PlacementFails(world, RoleEntry, rs[i].namespace, rs[i].namespaceSelector, e)
      ensures First(blocks[i]).None? <==>
              Placed(rs[i].namespace, rs[i].namespaceSelector) && Resolves(world, rs[i].namespaceSelector)
    {
      PlacementFailsExactly(world, RoleEntry, rs[i].namespace, rs[i].namespaceSelector, e);
      RoleChecksPass(world, rs[i]);
    }
  }

  lemma RoleBindingsFailExactly(world: World, cp: ClusterPermission, e: Error)
    ensures First(Concat(RoleBindingCheckBlocks(world, cp))) == Some(e) <==> RoleBindingsFail(world, cp, e)
  {
    hide RoleBindingFails, AcceptsRoleBinding, RoleBindingChecks, First, Concat;
    var bs, blocks := Elements(cp.spec.roleBindings), RoleBindingCheckBlocks(world, cp);
    FirstConcatExactly(blocks, e);
    forall i | 0 <= i < |bs|
      ensures First(blocks[i]) == Some(e) <==> RoleBindingFails(world, cp, bs[i], e)
      ensures First(blocks[i]).None? <==> AcceptsRoleBinding(world, cp, bs[i])
    {
      RoleBindingFailsExactly(world, cp, bs[i], e);
      RoleBindingChecksPass(world, cp, bs[i]);
    }
  }

  // The error of a refused spec: that of the first failing cluster binding; or, all of them passing,
  // of the first failing role; or, these passing too, of the first failing role binding.
  lemma FailsExactly(world: World, cp: ClusterPermission, validate: bool, e: Error)
    ensures Compile(world, cp, validate) == Failure(e) <==>
      || ClusterBindingsFail(world, cp, e)
      || (AcceptsClusterBindings(world, cp) && RolesFail(world, cp, e))
      || (AcceptsClusterBindings(world, cp) && AcceptsRoles(world, cp) && RoleBindingsFail(world, cp, e))
  {
    hide First, Concat, AcceptsClusterBindings, AcceptsRoles, Flatten, ClusterBindingsFail, RolesFail, RoleBindingsFail,
         ClusterCheckBlocks, RoleCheckBlocks, RoleBindingCheckBlocks;
    var c, ro, rb := Concat(ClusterCheckBlocks(world, cp)), Concat(RoleCheckBlocks(world, cp)),
                     Concat(RoleBindingCheckBlocks(world, cp));
    FirstAppend(c + ro, rb);
    FirstAppend(c, ro);
    AllClusterChecksPass(world, cp);
    AllRoleChecksPass(world, cp);
    ClusterBindingsFailExactly(world, cp, e);
    RolesFailExactly(world, cp, e);
    RoleBindingsFailExactly(world, cp, e);
  }
}
