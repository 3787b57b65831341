/** The spec compiler: from a ClusterPermission and a world to the RBAC payload, or the first error. */
module Payload {
  import opened Prelude
  import opened Rbac
  import opened Api
  import opened Hub
  import opened Subjects
  import opened RoleRefs

  datatype Payload = Payload(
    clusterRole: Option<ClusterRole>,
    clusterRoleBindings: seq<ClusterRoleBinding>,
    roles: seq<Role>,
    roleBindings: seq<RoleBinding>,
    roleRefs: seq<ValidationRoleRef>)

  // A value, unless one of the checks made before it fails: then the first failure.
  function Outcome<T>(checks: seq<Option<Error>>, value: T): Result<T, Error> {
    match First(checks)
    case None => Success(value)
    case Some(e) => Failure(e)
  }

  // --- What one entry of the spec determines

  function ClusterRoleOf(cp: ClusterPermission): Option<ClusterRole> {
    if cp.spec.clusterRole.Some? then Some(ClusterRole(cp.name, cp.spec.clusterRole.value.rules)) else None
  }

  // A plural list that is not empty replaces the singular binding altogether.
  function EffectiveClusterBindings(spec: Spec): seq<ClusterRoleBindingSpec> {
    if Elements(spec.clusterRoleBindings) != [] then Elements(spec.clusterRoleBindings) else SingularBinding(spec)
  }

  function NameOr(name: string, default: string): string {
    if name != "" then name else default
  }

  function ClusterBindingOf(world: World, cp: ClusterPermission, b: ClusterRoleBindingSpec): ClusterRoleBinding {
    ClusterRoleBinding(
      NameOr(b.name, cp.name),
      if b.roleRef.Some? then b.roleRef.value else RoleRef(GROUP_NAME, CLUSTER_ROLE, cp.name),
      TranslateEach(GetSubjects(b.subject, b.subjects), AddonNamespace(world, cp.namespace)))
  }

  // The namespaces an entry applies to: its own, or those its selector lists.
  function Targets(world: World, namespace: string, selector: Option<Selector>): seq<string> {
    if selector.Some? then
      var listing := world.ListNamespaces(selector.value);
      if listing.Listed? then Elements(listing.items) else []
    else [namespace]
  }

  function RoleIn(cp: ClusterPermission, rules: seq<PolicyRule>, namespace: string): Role {
    Role(cp.name, namespace, rules)
  }

  function RoleBlock(world: World, cp: ClusterPermission, r: RoleSpec): seq<Role> {
    var targets := Targets(world, r.namespace, r.namespaceSelector);
    seq(|targets|, i requires 0 <= i < |targets| => RoleIn(cp, r.rules, targets[i]))
  }

  // A role binding placed by a selector ignores the names the entry may carry.
  function RoleBindingIn(world: World, cp: ClusterPermission, b: RoleBindingSpec, namespace: string): RoleBinding {
    var subjects := TranslateEach(GetSubjects(b.subject, b.subjects), AddonNamespace(world, cp.namespace));
    var default := RoleRef(GROUP_NAME, b.roleRef.kind, cp.name);
    if b.namespaceSelector.Some? then RoleBinding(cp.name, namespace, default, subjects)
    else RoleBinding(NameOr(b.name, cp.name), namespace,
                     if b.roleRef.apiGroup != "" && b.roleRef.name != "" then b.roleRef else default, subjects)
  }

  function RoleBindingBlock(world: World, cp: ClusterPermission, b: RoleBindingSpec): seq<RoleBinding> {
    var targets := Targets(world, b.namespace, b.namespaceSelector);
    seq(|targets|, i requires 0 <= i < |targets| => RoleBindingIn(world, cp, b, targets[i]))
  }

  // --- What can go wrong with one entry, in code order

  function ClusterBindingChecks(world: World, cp: ClusterPermission, b: ClusterRoleBindingSpec): seq<Option<Error>> {
    SubjectChecks(world, cp.namespace, GetSubjects(b.subject, b.subjects))
  }

  function PlacementCheck(entry: Entry, namespace: string, selector: Option<Selector>): Option<Error> {
    if namespace == "" && selector.None? then Some(Unplaced(entry))
    else if namespace != "" && selector.Some? then Some(Ambiguous(entry))
    else None
  }

  function ListingCheck(world: World, selector: Option<Selector>): Option<Error> {
    if selector.None? then None
    else match world.ListNamespaces(selector.value)
      case BadSelector(e) => Some(e)
      case ListFailed(e) => Some(e)
      case Listed(items) => if items.None? then Some(NoNamespaceSelected) else None
  }

  function RoleChecks(world: World, r: RoleSpec): seq<Option<Error>> {
    [PlacementCheck(RoleEntry, r.namespace, r.namespaceSelector), ListingCheck(world, r.namespaceSelector)]
  }

  function RoleRefCheck(b: RoleBindingSpec): Option<Error> {
    if b.roleRef.apiGroup == "" && b.roleRef.name != "" then
      Some(MissingApiGroup(b.namespace))
    else if b.roleRef.apiGroup != "" && b.roleRef.name == "" then
      Some(MissingName(b.namespace))
    else None
  }

  function BindingPlacementChecks(world: World, b: RoleBindingSpec): seq<Option<Error>> {
    [PlacementCheck(RoleBindingEntry, b.namespace, b.namespaceSelector), ListingCheck(world, b.namespaceSelector)]
  }

  // Subjects are checked once per target namespace, so not at all when a selector lists none.
  function BindingContentChecks(world: World, cp: ClusterPermission, b: RoleBindingSpec): seq<Option<Error>> {
    var subjects := SubjectChecks(world, cp.namespace, GetSubjects(b.subject, b.subjects));
    if b.namespaceSelector.None? then subjects + [RoleRefCheck(b)]
    else if Targets(world, b.namespace, b.namespaceSelector) == [] then []
    else subjects
  }

  function RoleBindingChecks(world: World, cp: ClusterPermission, b: RoleBindingSpec): seq<Option<Error>> {
    BindingPlacementChecks(world, b) + BindingContentChecks(world, cp, b)
  }

  // --- The whole spec, entry by entry

  function ClusterBindings(world: World, cp: ClusterPermission): seq<ClusterRoleBinding> {
    var bs := EffectiveClusterBindings(cp.spec);
    seq(|bs|, i requires 0 <= i < |bs| => ClusterBindingOf(world, cp, bs[i]))
  }

  function RoleBlocks(world: World, cp: ClusterPermission): seq<seq<Role>> {
    var rs := Elements(cp.spec.roles);
    seq(|rs|, i requires 0 <= i < |rs| => RoleBlock(world, cp, rs[i]))
  }

  function RoleBindingBlocks(world: World, cp: ClusterPermission): seq<seq<RoleBinding>> {
    var bs := Elements(cp.spec.roleBindings);
    seq(|bs|, i requires 0 <= i < |bs| => RoleBindingBlock(world, cp, bs[i]))
  }

  function Flatten(world: World, cp: ClusterPermission, validate: bool): Payload {
    Payload(ClusterRoleOf(cp), ClusterBindings(world, cp), Concat(RoleBlocks(world, cp)),
            Concat(RoleBindingBlocks(world, cp)), if validate then Extracted(cp.spec) else [])
  }

  function ClusterCheckBlocks(world: World, cp: ClusterPermission): seq<seq<Option<Error>>> {
    var bs := EffectiveClusterBindings(cp.spec);
    seq(|bs|, i requires 0 <= i < |bs| => ClusterBindingChecks(world, cp, bs[i]))
  }

  function RoleCheckBlocks(world: World, cp: ClusterPermission): seq<seq<Option<Error>>> {
    var rs := Elements(cp.spec.roles);
    seq(|rs|, i requires 0 <= i < |rs| => RoleChecks(world, rs[i]))
  }

  function RoleBindingCheckBlocks(world: World, cp: ClusterPermission): seq<seq<Option<Error>>> {
    var bs := Elements(cp.spec.roleBindings);
    seq(|bs|, i requires 0 <= i < |bs| => RoleBindingChecks(world, cp, bs[i]))
  }

  function Checks(world: World, cp: ClusterPermission): seq<Option<Error>> {
    Concat(ClusterCheckBlocks(world, cp)) + Concat(RoleCheckBlocks(world, cp))
      + Concat(RoleBindingCheckBlocks(world, cp))
  }

  // The specification of the compiler: the flattened spec, unless a check fails.
  function Compile(world: World, cp: ClusterPermission, validate: bool): Result<Payload, Error> {
    Outcome(Checks(world, cp), Flatten(world, cp, validate))
  }

  // --- The compiler itself

  // Check a binding's subjects, then translate them.
  method ResolveSubjects(world: World, cp: ClusterPermission, subjects: seq<Subject>)
    returns (r: Result<seq<Subject>, Error>)
    ensures r == Outcome(SubjectChecks(world, cp.namespace, subjects),
                         TranslateEach(subjects, AddonNamespace(world, cp.namespace)))
  {
    FirstAppend(AccountChecks(world, cp.namespace, subjects), [AddonCheck(world, cp.namespace, subjects)]);
    var invalid := ValidateSubject(world, subjects, cp.namespace);
    if invalid.Some? {
      return Failure(invalid.value);
    }
    r := GenerateSubjects(world, subjects, cp.namespace);
  }

  method GenerateClusterRoleBinding(world: World, cp: ClusterPermission, b: ClusterRoleBindingSpec)
    returns (r: Result<ClusterRoleBinding, Error>)
    ensures r == Outcome(ClusterBindingChecks(world, cp, b), ClusterBindingOf(world, cp, b))
  {
    var subjects := ResolveSubjects(world, cp, GetSubjects(b.subject, b.subjects));
    if subjects.Failure? {
      return Failure(subjects.error);
    }
    var name := cp.name;
    if b.name != "" {
      name := b.name;
    }
    var roleRef := RoleRef(GROUP_NAME, CLUSTER_ROLE, cp.name);
    if b.roleRef.Some? {
      roleRef := b.roleRef.value;
    }
    return Success(ClusterRoleBinding(name, roleRef, subjects.value));
  }

  method GeneratePluralClusterRoleBindings(world: World, cp: ClusterPermission)
    returns (r: Result<seq<ClusterRoleBinding>, Error>)
    requires cp.spec.clusterRoleBindings.Some? && |cp.spec.clusterRoleBindings.value| > 0
    ensures r == Outcome(Concat(ClusterCheckBlocks(world, cp)), ClusterBindings(world, cp))
  {
    var bindings: seq<ClusterRoleBinding> := [];
    ghost var checks := ClusterCheckBlocks(world, cp);
    var specs := cp.spec.clusterRoleBindings.value;
    for i := 0 to |specs|
      invariant First(Concat(checks[..i])).None?
      invariant bindings == ClusterBindings(world, cp)[..i]
    {
      var b := GenerateClusterRoleBinding(world, cp, specs[i]);
      FirstConcatPrefix(checks, i);
      if b.Failure? {
        return Failure(b.error);
      }
      bindings := bindings + [b.value];
    }
    assert checks[..|specs|] == checks;
    assert bindings == ClusterBindings(world, cp);
    return Success(bindings);
  }

  method GenerateClusterRoleBindings(world: World, cp: ClusterPermission)
    returns (r: Result<seq<ClusterRoleBinding>, Error>)
    ensures r == Outcome(Concat(ClusterCheckBlocks(world, cp)), ClusterBindings(world, cp))
  {
    if (cp.spec.clusterRoleBindings.None? || |cp.spec.clusterRoleBindings.value| == 0)
       && cp.spec.clusterRoleBinding.Some? {
      var b := GenerateClusterRoleBinding(world, cp, cp.spec.clusterRoleBinding.value);
      ghost var checks := ClusterCheckBlocks(world, cp);
      assert checks == [checks[0]] && Concat(checks) == checks[0];
      if b.Failure? {
        return Failure(b.error);
      }
      assert [b.value] == ClusterBindings(world, cp);
      return Success([b.value]);
    }
    if cp.spec.clusterRoleBindings.Some? && |cp.spec.clusterRoleBindings.value| > 0 {
      r := GeneratePluralClusterRoleBindings(world, cp);
    } else {
      assert ClusterCheckBlocks(world, cp) == [] && ClusterBindings(world, cp) == [];
      r := Success([]);
    }
  }

  method GenerateRole(world: World, cp: ClusterPermission, role: RoleSpec) returns (r: Result<seq<Role>, Error>)
    ensures r == Outcome(RoleChecks(world, role), RoleBlock(world, cp, role))
  {
    FirstOfTwo(PlacementCheck(RoleEntry, role.namespace, role.namespaceSelector),
               ListingCheck(world, role.namespaceSelector));
    if role.namespace == "" && role.namespaceSelector.None? {
      return Failure(Unplaced(RoleEntry));
    }
    if role.namespace != "" && role.namespaceSelector.Some? {
      return Failure(Ambiguous(RoleEntry));
    }
    var roles: seq<Role> := [];
    if role.namespaceSelector.Some? {
      var listing := world.ListNamespaces(role.namespaceSelector.value);
      if listing.BadSelector? || listing.ListFailed? {
        return Failure(listing.error);
      }
      if listing.items.None? {
        return Failure(NoNamespaceSelected);
      }
      var names := listing.items.value;
      for i := 0 to |names|
        invariant roles == RoleBlock(world, cp, role)[..i]
      {
        roles := roles + [Role(cp.name, names[i], role.rules)];
      }
    } else if role.namespace != "" {
      roles := [Role(cp.name, role.namespace, role.rules)];
    }
    assert roles == RoleBlock(world, cp, role);
    return Success(roles);
  }

  method GenerateRoles(world: World, cp: ClusterPermission) returns (r: Result<seq<Role>, Error>)
    ensures r == Outcome(Concat(RoleCheckBlocks(world, cp)), Concat(RoleBlocks(world, cp)))
  {
    var roles: seq<Role> := [];
    if cp.spec.roles.Some? && |cp.spec.roles.value| > 0 {
      var specs := cp.spec.roles.value;
      ghost var checks, blocks := RoleCheckBlocks(world, cp), RoleBlocks(world, cp);
      for i := 0 to |specs|
        invariant First(Concat(checks[..i])).None?
        invariant roles == Concat(blocks[..i])
      {
        var block := GenerateRole(world, cp, specs[i]);
        FirstConcatPrefix(checks, i);
        if block.Failure? {
          return Failure(block.error);
        }
        ConcatStep(blocks, i);
        roles := roles + block.value;
      }
      assert checks[..|specs|] == checks && blocks[..|specs|] == blocks;
    }
    return Success(roles);
  }

  // One role binding per listed namespace, the subjects being resolved anew each time.
  method GenerateSelectedRoleBindings(world: World, cp: ClusterPermission, b: RoleBindingSpec, names: seq<string>)
    returns (r: Result<seq<RoleBinding>, Error>)
    requires b.namespaceSelector.Some? && names == Targets(world, b.namespace, b.namespaceSelector)
    ensures r == Outcome(if names == [] then []
                         else SubjectChecks(world, cp.namespace, GetSubjects(b.subject, b.subjects)),
                         RoleBindingBlock(world, cp, b))
  {
    var bindings: seq<RoleBinding> := [];
    for i := 0 to |names|
      invariant i > 0 ==> First(SubjectChecks(world, cp.namespace, GetSubjects(b.subject, b.subjects))).None?
      invariant bindings == RoleBindingBlock(world, cp, b)[..i]
    {
      var subjects := ResolveSubjects(world, cp, GetSubjects(b.subject, b.subjects));
      if subjects.Failure? {
        return Failure(subjects.error);
      }
      bindings := bindings
        + [RoleBinding(cp.name, names[i], RoleRef(GROUP_NAME, b.roleRef.kind, cp.name), subjects.value)];
    }
    assert bindings == RoleBindingBlock(world, cp, b);
    return Success(bindings);
  }

  method GenerateNamespacedRoleBinding(world: World, cp: ClusterPermission, b: RoleBindingSpec)
    returns (r: Result<seq<RoleBinding>, Error>)
    requires b.namespaceSelector.None?
    ensures r == Outcome(SubjectChecks(world, cp.namespace, GetSubjects(b.subject, b.subjects)) + [RoleRefCheck(b)],
                         RoleBindingBlock(world, cp, b))
  {
    FirstAppend(SubjectChecks(world, cp.namespace, GetSubjects(b.subject, b.subjects)), [RoleRefCheck(b)]);
    var subjects := ResolveSubjects(world, cp, GetSubjects(b.subject, b.subjects));
    if subjects.Failure? {
      return Failure(subjects.error);
    }
    var name := cp.name;
    if b.name != "" {
      name := b.name;
    }
    var roleRef := RoleRef(GROUP_NAME, b.roleRef.kind, cp.name);
    if b.roleRef.apiGroup != "" && b.roleRef.name != "" {
      roleRef := RoleRef(b.roleRef.apiGroup, b.roleRef.kind, b.roleRef.name);
    } else if b.roleRef.apiGroup == "" && b.roleRef.name != "" {
      return Failure(MissingApiGroup(b.namespace));
    } else if b.roleRef.apiGroup != "" && b.roleRef.name == "" {
      return Failure(MissingName(b.namespace));
    }
    r := Success([RoleBinding(name, b.namespace, roleRef, subjects.value)]);
    assert r.value == RoleBindingBlock(world, cp, b);
  }

  method GenerateRoleBinding(world: World, cp: ClusterPermission, b: RoleBindingSpec)
    returns (r: Result<seq<RoleBinding>, Error>)
    ensures r == Outcome(RoleBindingChecks(world, cp, b), RoleBindingBlock(world, cp, b))
  {
    FirstAppend(BindingPlacementChecks(world, b), BindingContentChecks(world, cp, b));
    FirstOfTwo(PlacementCheck(RoleBindingEntry, b.namespace, b.namespaceSelector),
               ListingCheck(world, b.namespaceSelector));
    if b.namespace == "" && b.namespaceSelector.None? {
      return Failure(Unplaced(RoleBindingEntry));
    }
    if b.namespace != "" && b.namespaceSelector.Some? {
      return Failure(Ambiguous(RoleBindingEntry));
    }
    if b.namespaceSelector.Some? {
      var listing := world.ListNamespaces(b.namespaceSelector.value);
      if listing.BadSelector? || listing.ListFailed? {
        return Failure(listing.error);
      }
      if listing.items.None? {
        return Failure(NoNamespaceSelected);
      }
      r := GenerateSelectedRoleBindings(world, cp, b, listing.items.value);
    } else {
      r := GenerateNamespacedRoleBinding(world, cp, b);
    }
  }

  method GenerateRoleBindings(world: World, cp: ClusterPermission) returns (r: Result<seq<RoleBinding>, Error>)
    ensures r == Outcome(Concat(RoleBindingCheckBlocks(world, cp)), Concat(RoleBindingBlocks(world, cp)))
  {
    var bindings: seq<RoleBinding> := [];
    if cp.spec.roleBindings.Some? && |cp.spec.roleBindings.value| > 0 {
      var specs := cp.spec.roleBindings.value;
      ghost var checks, blocks := RoleBindingCheckBlocks(world, cp), RoleBindingBlocks(world, cp);
      for i := 0 to |specs|
        invariant First(Concat(checks[..i])).None?
        invariant bindings == Concat(blocks[..i])
      {
        var block := GenerateRoleBinding(world, cp, specs[i]);
        FirstConcatPrefix(checks, i);
        if block.Failure? {
          return Failure(block.error);
        }
        ConcatStep(blocks, i);
        bindings := bindings + block.value;
      }
      assert checks[..|specs|] == checks && blocks[..|specs|] == blocks;
    }
    return Success(bindings);
  }

  // The compiler, with its loops and early exits, against its specification.
  method GenerateManifestWorkPayload(world: World, cp: ClusterPermission, validate: bool)
    returns (r: Result<Payload, Error>)
    ensures r == Compile(world, cp, validate)
  {
    ghost var c, ro, rb := Concat(ClusterCheckBlocks(world, cp)), Concat(RoleCheckBlocks(world, cp)),
                           Concat(RoleBindingCheckBlocks(world, cp));
    FirstAppend(c + ro, rb);
    FirstAppend(c, ro);
    var clusterRole: Option<ClusterRole> := None;
    if cp.spec.clusterRole.Some? {
      clusterRole := Some(ClusterRole(cp.name, cp.spec.clusterRole.value.rules));
    }
    var clusterRoleBindings := GenerateClusterRoleBindings(world, cp);
    if clusterRoleBindings.Failure? {
      return Failure(clusterRoleBindings.error);
    }
    var roles := GenerateRoles(world, cp);
    if roles.Failure? {
      return Failure(roles.error);
    }
    var roleBindings := GenerateRoleBindings(world, cp);
    if roleBindings.Failure? {
      return Failure(roleBindings.error);
    }
    var roleRefs: seq<ValidationRoleRef> := [];
    if validate {
      roleRefs := ExtractRoleReferencesForValidation(cp.spec);
    }
    return Success(Payload(clusterRole, clusterRoleBindings.value, roles.value, roleBindings.value, roleRefs));
  }

  // --- When compilation succeeds

  // Exactly one of namespace and selector is given.
  predicate Placed(namespace: string, selector: Option<Selector>) {
    namespace != "" <==> selector.None?
  }

  // A listing that fails, or whose item list is nil, does not resolve; an empty list does.
  predicate Resolves(world: World, selector: Option<Selector>) {
    selector.Some? ==> world.ListNamespaces(selector.value).Listed? && world.ListNamespaces(selector.value).items.Some?
  }

  predicate AcceptsRoleBinding(world: World, cp: ClusterPermission, b: RoleBindingSpec) {
    && Placed(b.namespace, b.namespaceSelector)
    && Resolves(world, b.namespaceSelector)
    && (Targets(world, b.namespace, b.namespaceSelector) != [] ==>
          SubjectsResolve(world, cp.namespace, GetSubjects(b.subject, b.subjects)))
    && (b.namespaceSelector.None? ==> (b.roleRef.apiGroup == "" <==> b.roleRef.name == ""))
  }

  predicate AcceptsClusterBindings(world: World, cp: ClusterPermission) {
    forall i :: 0 <= i < |EffectiveClusterBindings(cp.spec)| ==>
      var b := EffectiveClusterBindings(cp.spec)[i];
      SubjectsResolve(world, cp.namespace, GetSubjects(b.subject, b.subjects))
  }

  predicate AcceptsRoles(world: World, cp: ClusterPermission) {
    forall i :: 0 <= i < |Elements(cp.spec.roles)| ==>
      var r := Elements(cp.spec.roles)[i];
      Placed(r.namespace, r.namespaceSelector) && Resolves(world, r.namespaceSelector)
  }

  predicate AcceptsRoleBindings(world: World, cp: ClusterPermission) {
    forall i :: 0 <= i < |Elements(cp.spec.roleBindings)| ==>
      AcceptsRoleBinding(world, cp, Elements(cp.spec.roleBindings)[i])
  }

  predicate Accepts(world: World, cp: ClusterPermission) {
    AcceptsClusterBindings(world, cp) && AcceptsRoles(world, cp) && AcceptsRoleBindings(world, cp)
  }

  lemma RoleChecksPass(world: World, r: RoleSpec)
    ensures First(RoleChecks(world, r)).None? <==>
            Placed(r.namespace, r.namespaceSelector) && Resolves(world, r.namespaceSelector)
  {
    FirstOfTwo(PlacementCheck(RoleEntry, r.namespace, r.namespaceSelector),
               ListingCheck(world, r.namespaceSelector));
  }

  lemma RoleBindingChecksPass(world: World, cp: ClusterPermission, b: RoleBindingSpec)
    ensures First(RoleBindingChecks(world, cp, b)).None? <==> AcceptsRoleBinding(world, cp, b)
  {
    var subjects := GetSubjects(b.subject, b.subjects);
    FirstAppend(BindingPlacementChecks(world, b), BindingContentChecks(world, cp, b));
    FirstOfTwo(PlacementCheck(RoleBindingEntry, b.namespace, b.namespaceSelector),
               ListingCheck(world, b.namespaceSelector));
    FirstAppend(SubjectChecks(world, cp.namespace, subjects), [RoleRefCheck(b)]);
    SubjectChecksPass(world, cp.namespace, subjects);
  }

  lemma AllClusterChecksPass(world: World, cp: ClusterPermission)
    ensures First(Concat(ClusterCheckBlocks(world, cp))).None? <==> AcceptsClusterBindings(world, cp)
  {
    hide SubjectsResolve, SubjectChecks, EffectiveClusterBindings, GetSubjects, First, Concat;
    var bs, blocks := EffectiveClusterBindings(cp.spec), ClusterCheckBlocks(world, cp);
    FirstConcat(blocks);
    forall i | 0 <= i < |bs|
      ensures First(blocks[i]).None? <==>
              SubjectsResolve(world, cp.namespace, GetSubjects(bs[i].subject, bs[i].subjects))
    {
      SubjectChecksPass(world, cp.namespace, GetSubjects(bs[i].subject, bs[i].subjects));
    }
  }

  lemma AllRoleChecksPass(world: World, cp: ClusterPermission)
    ensures First(Concat(RoleCheckBlocks(world, cp))).None? <==> AcceptsRoles(world, cp)
  {
    hide Placed, Resolves, RoleChecks, First, Concat;
    var rs, blocks := Elements(cp.spec.roles), RoleCheckBlocks(world, cp);
    FirstConcat(blocks);
    forall i | 0 <= i < |rs|
      ensures First(blocks[i]).None? <==>
              Placed(rs[i].namespace, rs[i].namespaceSelector) && Resolves(world, rs[i].namespaceSelector)
    {
      RoleChecksPass(world, rs[i]);
    }
  }

  lemma AllRoleBindingChecksPass(world: World, cp: ClusterPermission)
    ensures First(Concat(RoleBindingCheckBlocks(world, cp))).None? <==> AcceptsRoleBindings(world, cp)
  {
    hide AcceptsRoleBinding, RoleBindingChecks, First, Concat;
    var bs, blocks := Elements(cp.spec.roleBindings), RoleBindingCheckBlocks(world, cp);
    FirstConcat(blocks);
    forall i | 0 <= i < |bs| ensures First(blocks[i]).None? <==> AcceptsRoleBinding(world, cp, bs[i]) {
      RoleBindingChecksPass(world, cp, bs[i]);
    }
  }

  // Compilation succeeds if and only if the closed-form predicate holds.
  lemma AcceptsExactly(world: World, cp: ClusterPermission, validate: bool)
    ensures Compile(world, cp, validate).Success? <==> Accepts(world, cp)
  {
    hide First, Concat, AcceptsClusterBindings, AcceptsRoles, AcceptsRoleBindings, Flatten,
         ClusterCheckBlocks, RoleCheckBlocks, RoleBindingCheckBlocks;
    var c, ro, rb := Concat(ClusterCheckBlocks(world, cp)), Concat(RoleCheckBlocks(world, cp)),
                     Concat(RoleBindingCheckBlocks(world, cp));
    FirstAppend(c + ro, rb);
    FirstAppend(c, ro);
    AllClusterChecksPass(world, cp);
    AllRoleChecksPass(world, cp);
    AllRoleBindingChecksPass(world, cp);
  }

  // Otherwise it fails with one of the checks' errors, and every check made before that one passes.
  lemma FailsWithFirst(world: World, cp: ClusterPermission, validate: bool)
    requires !Accepts(world, cp)
    ensures Compile(world, cp, validate).Failure?
    ensures exists i :: 0 <= i < |Checks(world, cp)|
              && Checks(world, cp)[i] == Some(Compile(world, cp, validate).error)
              && forall j :: 0 <= j < i ==> Checks(world, cp)[j].None?
  {
    AcceptsExactly(world, cp, validate);
    hide Accepts, Checks, Flatten;
    var i := FirstStands(Checks(world, cp));
  }
}
