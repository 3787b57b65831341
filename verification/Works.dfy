/** ManifestWorks: building one from a payload, naming it, and finding its owner again. */
module Works {
  import opened Prelude
  import opened Rbac
  import opened Api
  import opened Hub
  import opened Conditions
  import opened Subjects
  import opened RoleRefs
  import opened Payload

  datatype Manifest =
    | ClusterRoleManifest(clusterRole: ClusterRole)
    | ClusterRoleBindingManifest(clusterRoleBinding: ClusterRoleBinding)
    | RoleManifest(role: Role)
    | RoleBindingManifest(roleBinding: RoleBinding)
  {
    function Kind(): string {
      match this
      case ClusterRoleManifest(_) => CLUSTER_ROLE
      case ClusterRoleBindingManifest(_) => "ClusterRoleBinding"
      case RoleManifest(_) => ROLE
      case RoleBindingManifest(_) => "RoleBinding"
    }

    function Name(): string {
      match this
      case ClusterRoleManifest(o) => o.name
      case ClusterRoleBindingManifest(o) => o.name
      case RoleManifest(o) => o.name
      case RoleBindingManifest(o) => o.name
    }

    function Namespace(): string {
      match this
      case ClusterRoleManifest(_) => ""
      case ClusterRoleBindingManifest(_) => ""
      case RoleManifest(o) => o.namespace
      case RoleBindingManifest(o) => o.namespace
    }
  }

  // A raw extension is built around a typed object; once stored and read back it holds raw bytes.
  datatype RawExtension = Built(manifest: Manifest) | Decoded(manifest: Manifest)

  datatype ManifestConfig = ManifestConfig(
    group: string, resource: string, name: string, namespace: string, updateStrategy: string)

  datatype WorkSpec = WorkSpec(manifests: seq<RawExtension>, configs: seq<ManifestConfig>)

  datatype OwnerReference = OwnerReference(
    apiVersion: string, kind: string, name: string, uid: string, controller: Option<bool>)

  // What the agent reports about one manifest.
  datatype ManifestReport = ManifestReport(kind: string, namespace: string, name: string, conditions: seq<Condition>)

  datatype WorkStatus = WorkStatus(conditions: seq<Condition>, manifests: seq<ManifestReport>)

  datatype ManifestWork = ManifestWork(
    name: string, namespace: string, owners: seq<OwnerReference>, spec: WorkSpec, status: WorkStatus)

  const API_VERSION := "rbac.open-cluster-management.io/v1alpha1"
  const PERMISSION_KIND := "ClusterPermission"
  const READ_ONLY := "ReadOnly"

  // --- Building

  function ClusterRoleManifests(role: Option<ClusterRole>): seq<Manifest> {
    if role.Some? then [ClusterRoleManifest(role.value)] else []
  }

  function ClusterRoleBindingManifests(bindings: seq<ClusterRoleBinding>): seq<Manifest> {
    seq(|bindings|, i requires 0 <= i < |bindings| => ClusterRoleBindingManifest(bindings[i]))
  }

  function RoleManifests(roles: seq<Role>): seq<Manifest> {
    seq(|roles|, i requires 0 <= i < |roles| => RoleManifest(roles[i]))
  }

  function RoleBindingManifests(bindings: seq<RoleBinding>): seq<Manifest> {
    seq(|bindings|, i requires 0 <= i < |bindings| => RoleBindingManifest(bindings[i]))
  }

  function Emitted(p: Payload): seq<Manifest> {
    ClusterRoleManifests(p.clusterRole) + ClusterRoleBindingManifests(p.clusterRoleBindings)
      + RoleManifests(p.roles) + RoleBindingManifests(p.roleBindings)
  }

  // The read-only stub standing for an existing role, with its update strategy; other kinds get neither.
  function StubOf(ref: ValidationRoleRef): seq<Manifest> {
    if ref.kind == CLUSTER_ROLE then [ClusterRoleManifest(ClusterRole(ref.name, []))]
    else if ref.kind == ROLE then [RoleManifest(Role(ref.name, ref.namespace, []))]
    else []
  }

  function ConfigOf(ref: ValidationRoleRef): seq<ManifestConfig> {
    if ref.kind == CLUSTER_ROLE then [ManifestConfig(GROUP_NAME, "clusterroles", ref.name, "", READ_ONLY)]
    else if ref.kind == ROLE then [ManifestConfig(GROUP_NAME, "roles", ref.name, ref.namespace, READ_ONLY)]
    else []
  }

  function StubBlocks(refs: seq<ValidationRoleRef>): seq<seq<Manifest>> {
    seq(|refs|, i requires 0 <= i < |refs| => StubOf(refs[i]))
  }

  function ConfigBlocks(refs: seq<ValidationRoleRef>): seq<seq<ManifestConfig>> {
    seq(|refs|, i requires 0 <= i < |refs| => ConfigOf(refs[i]))
  }

  function Manifests(p: Payload, validate: bool): seq<Manifest> {
    Emitted(p) + if validate then Concat(StubBlocks(p.roleRefs)) else []
  }

  function AllBuilt(manifests: seq<Manifest>): seq<RawExtension> {
    seq(|manifests|, i requires 0 <= i < |manifests| => Built(manifests[i]))
  }

  function SpecOf(p: Payload, validate: bool): WorkSpec {
    WorkSpec(AllBuilt(Manifests(p, validate)), if validate then Concat(ConfigBlocks(p.roleRefs)) else [])
  }

  function OwnedBy(cp: ClusterPermission): OwnerReference {
    OwnerReference(API_VERSION, PERMISSION_KIND, cp.name, cp.uid, Some(true))
  }

  function WorkOf(cp: ClusterPermission, name: string, p: Payload, validate: bool): ManifestWork {
    ManifestWork(name, cp.namespace, [OwnedBy(cp)], SpecOf(p, validate), WorkStatus([], []))
  }

  method AppendStubs(refs: seq<ValidationRoleRef>, manifests: seq<RawExtension>)
    returns (manifests': seq<RawExtension>, configs: seq<ManifestConfig>)
    ensures manifests' == manifests + AllBuilt(Concat(StubBlocks(refs)))
    ensures configs == Concat(ConfigBlocks(refs))
  {
    manifests', configs := manifests, [];
    ghost var stubs, options := StubBlocks(refs), ConfigBlocks(refs);
    for i := 0 to |refs|
      invariant manifests' == manifests + AllBuilt(Concat(stubs[..i]))
      invariant configs == Concat(options[..i])
    {
      ConcatStep(stubs, i);
      ConcatStep(options, i);
      if refs[i].kind == CLUSTER_ROLE {
        configs := configs + [ManifestConfig(GROUP_NAME, "clusterroles", refs[i].name, "", READ_ONLY)];
        manifests' := manifests' + [Built(ClusterRoleManifest(ClusterRole(refs[i].name, [])))];
      } else if refs[i].kind == ROLE {
        configs := configs + [ManifestConfig(GROUP_NAME, "roles", refs[i].name, refs[i].namespace, READ_ONLY)];
        manifests' := manifests' + [Built(RoleManifest(Role(refs[i].name, refs[i].namespace, [])))];
      }
    }
    assert stubs[..|refs|] == stubs && options[..|refs|] == options;
  }

  method AppendClusterRoleBindings(manifests: seq<RawExtension>, bindings: seq<ClusterRoleBinding>)
    returns (manifests': seq<RawExtension>)
    ensures manifests' == manifests + AllBuilt(ClusterRoleBindingManifests(bindings))
  {
    manifests' := manifests;
    for i := 0 to |bindings|
      invariant manifests' == manifests + AllBuilt(ClusterRoleBindingManifests(bindings))[..i]
    {
      manifests' := manifests' + [Built(ClusterRoleBindingManifest(bindings[i]))];
    }
  }

  method AppendRoles(manifests: seq<RawExtension>, roles: seq<Role>) returns (manifests': seq<RawExtension>)
    ensures manifests' == manifests + AllBuilt(RoleManifests(roles))
  {
    manifests' := manifests;
    for i := 0 to |roles|
      invariant manifests' == manifests + AllBuilt(RoleManifests(roles))[..i]
    {
      manifests' := manifests' + [Built(RoleManifest(roles[i]))];
    }
  }

  method AppendRoleBindings(manifests: seq<RawExtension>, bindings: seq<RoleBinding>)
    returns (manifests': seq<RawExtension>)
    ensures manifests' == manifests + AllBuilt(RoleBindingManifests(bindings))
  {
    manifests' := manifests;
    for i := 0 to |bindings|
      invariant manifests' == manifests + AllBuilt(RoleBindingManifests(bindings))[..i]
    {
      manifests' := manifests' + [Built(RoleBindingManifest(bindings[i]))];
    }
  }

  lemma AllBuiltAppend(a: seq<Manifest>, b: seq<Manifest>)
    ensures AllBuilt(a + b) == AllBuilt(a) + AllBuilt(b)
  {
  }

  method BuildManifestWork(cp: ClusterPermission, name: string, p: Payload, validate: bool) returns (work: ManifestWork)
    ensures work == WorkOf(cp, name, p, validate)
  {
    var manifests: seq<RawExtension> := [];
    var configs: seq<ManifestConfig> := [];
    if p.clusterRole.Some? {
      manifests := [Built(ClusterRoleManifest(p.clusterRole.value))];
    }
    ghost var a, b := ClusterRoleManifests(p.clusterRole), ClusterRoleBindingManifests(p.clusterRoleBindings);
    ghost var c, d := RoleManifests(p.roles), RoleBindingManifests(p.roleBindings);
    assert manifests == AllBuilt(a);
    hide ClusterRoleManifests, ClusterRoleBindingManifests, RoleManifests, RoleBindingManifests, AllBuilt, StubBlocks,
        ConfigBlocks;
    manifests := AppendClusterRoleBindings(manifests, p.clusterRoleBindings);
    AllBuiltAppend(a, b);
    manifests := AppendRoles(manifests, p.roles);
    AllBuiltAppend(a + b, c);
    manifests := AppendRoleBindings(manifests, p.roleBindings);
    AllBuiltAppend(a + b + c, d);
    if validate && |p.roleRefs| > 0 {
      AllBuiltAppend(Emitted(p), Concat(StubBlocks(p.roleRefs)));
      manifests, configs := AppendStubs(p.roleRefs, manifests);
    } else if validate {
      NothingToStub();
    }
    assert Emitted(p) + [] == Emitted(p);
    return ManifestWork(name, cp.namespace, [OwnedBy(cp)], WorkSpec(manifests, configs), WorkStatus([], []));
  }

  lemma NothingToStub()
    ensures Concat(StubBlocks([])) == [] && Concat(ConfigBlocks([])) == []
  {
  }

  // --- What a built work holds, place by place

  lemma PartAt<T>(all: seq<T>, before: seq<T>, part: seq<T>, after: seq<T>, j: nat)
    requires all == before + part + after && j < |part|
    ensures |before| + j < |all| && all[|before| + j] == part[j]
  {
  }

  lemma ManifestCount(p: Payload, validate: bool)
    ensures |Manifests(p, validate)| >=
            (if p.clusterRole.Some? then 1 else 0) + |p.clusterRoleBindings| + |p.roles| + |p.roleBindings|
    ensures p.clusterRole.Some? ==> Manifests(p, validate)[0] == ClusterRoleManifest(p.clusterRole.value)
  {
    hide StubBlocks, Concat;
  }

  lemma ClusterRoleBindingAt(p: Payload, validate: bool, j: nat)
    requires j < |p.clusterRoleBindings|
    ensures var k := (if p.clusterRole.Some? then 1 else 0) + j;
      k < |Manifests(p, validate)|
      && Manifests(p, validate)[k] == ClusterRoleBindingManifest(p.clusterRoleBindings[j])
  {
    hide StubBlocks, Concat, RoleManifests, RoleBindingManifests;
    var a, b := ClusterRoleManifests(p.clusterRole), ClusterRoleBindingManifests(p.clusterRoleBindings);
    var rest := RoleManifests(p.roles) + RoleBindingManifests(p.roleBindings)
                + if validate then Concat(StubBlocks(p.roleRefs)) else [];
    assert Manifests(p, validate) == a + b + rest;
    PartAt(Manifests(p, validate), a, b, rest, j);
  }

  lemma RoleAt(p: Payload, validate: bool, j: nat)
    requires j < |p.roles|
    ensures var k := (if p.clusterRole.Some? then 1 else 0) + |p.clusterRoleBindings| + j;
      k < |Manifests(p, validate)| && Manifests(p, validate)[k] == RoleManifest(p.roles[j])
  {
    hide StubBlocks, Concat, RoleBindingManifests;
    var before := ClusterRoleManifests(p.clusterRole) + ClusterRoleBindingManifests(p.clusterRoleBindings);
    var rest := RoleBindingManifests(p.roleBindings) + if validate then Concat(StubBlocks(p.roleRefs)) else [];
    assert Manifests(p, validate) == before + RoleManifests(p.roles) + rest;
    PartAt(Manifests(p, validate), before, RoleManifests(p.roles), rest, j);
  }

  lemma RoleBindingAt(p: Payload, validate: bool, j: nat)
    requires j < |p.roleBindings|
    ensures var k := (if p.clusterRole.Some? then 1 else 0) + |p.clusterRoleBindings| + |p.roles| + j;
      k < |Manifests(p, validate)| && Manifests(p, validate)[k] == RoleBindingManifest(p.roleBindings[j])
  {
    hide StubBlocks, Concat;
    var before := ClusterRoleManifests(p.clusterRole) + ClusterRoleBindingManifests(p.clusterRoleBindings)
                  + RoleManifests(p.roles);
    var rest := if validate then Concat(StubBlocks(p.roleRefs)) else [];
    PartAt(Manifests(p, validate), before, RoleBindingManifests(p.roleBindings), rest, j);
  }

  // The compiled objects stand in the order of their kinds, each unchanged; the cluster role, if any, is first.
  lemma BuiltObjects(cp: ClusterPermission, name: string, p: Payload, validate: bool)
    ensures var m := WorkOf(cp, name, p, validate).spec.manifests;
      var crb := if p.clusterRole.Some? then 1 else 0;
      var ro := crb + |p.clusterRoleBindings|;
      var rb := ro + |p.roles|;
      && |m| >= rb + |p.roleBindings|
      && (p.clusterRole.Some? ==> m[0] == Built(ClusterRoleManifest(p.clusterRole.value)))
      && (forall j :: 0 <= j < |p.clusterRoleBindings| ==>
            m[crb + j] == Built(ClusterRoleBindingManifest(p.clusterRoleBindings[j])))
      && (forall j :: 0 <= j < |p.roles| ==> m[ro + j] == Built(RoleManifest(p.roles[j])))
      && (forall j :: 0 <= j < |p.roleBindings| ==> m[rb + j] == Built(RoleBindingManifest(p.roleBindings[j])))
  {
    hide Manifests;
    ManifestCount(p, validate);
    var m := WorkOf(cp, name, p, validate).spec.manifests;
    var crb := if p.clusterRole.Some? then 1 else 0;
    var ro := crb + |p.clusterRoleBindings|;
    forall j | 0 <= j < |p.clusterRoleBindings|
      ensures m[crb + j] == Built(ClusterRoleBindingManifest(p.clusterRoleBindings[j]))
    {
      ClusterRoleBindingAt(p, validate, j);
    }
    forall j | 0 <= j < |p.roles| ensures m[ro + j] == Built(RoleManifest(p.roles[j])) {
      RoleAt(p, validate, j);
    }
    forall j | 0 <= j < |p.roleBindings|
      ensures m[ro + |p.roles| + j] == Built(RoleBindingManifest(p.roleBindings[j]))
    {
      RoleBindingAt(p, validate, j);
    }
  }

  // After them comes, when validating, one empty object for each reference, with an option that
  // keeps the agent from writing it; otherwise there is nothing more, and no option.
  lemma BuiltStubs(cp: ClusterPermission, name: string, p: Payload, validate: bool)
    requires forall r :: r in p.roleRefs ==> r.kind == "Role" || r.kind == "ClusterRole"
    ensures var spec := WorkOf(cp, name, p, validate).spec;
      var n := (if p.clusterRole.Some? then 1 else 0) + |p.clusterRoleBindings| + |p.roles| + |p.roleBindings|;
      && |spec.manifests| == n + |spec.configs|
      && |spec.configs| == (if validate then |p.roleRefs| else 0)
      && forall j :: 0 <= j < |spec.configs| ==>
           spec.manifests[n + j].Built? && StubFor(p.roleRefs[j], spec.manifests[n + j].manifest, spec.configs[j])
  {
    hide StubFor;
    hide StubBlocks, ConfigBlocks, Concat;
    if validate {
      StubAt(p.roleRefs);
    }
  }

  // The stub and the option one reference comes to.
  predicate StubFor(ref: ValidationRoleRef, m: Manifest, c: ManifestConfig) {
    && c.group == "rbac.authorization.k8s.io" && c.updateStrategy == "ReadOnly" && c.name == ref.name
    && (ref.kind == "Role" ==>
          && m == RoleManifest(Role(ref.name, ref.namespace, []))
          && c.resource == "roles" && c.namespace == ref.namespace)
    && (ref.kind == "ClusterRole" ==>
          && m == ClusterRoleManifest(ClusterRole(ref.name, []))
          && c.resource == "clusterroles" && c.namespace == "")
  }

  lemma OneStub(ref: ValidationRoleRef)
    requires ref.kind == "Role" || ref.kind == "ClusterRole"
    ensures |StubOf(ref)| == 1 == |ConfigOf(ref)| && StubFor(ref, StubOf(ref)[0], ConfigOf(ref)[0])
  {
  }

  lemma {:induction false} StubAt(refs: seq<ValidationRoleRef>)
    requires forall r :: r in refs ==> r.kind == "Role" || r.kind == "ClusterRole"
    ensures var stubs, configs := Concat(StubBlocks(refs)), Concat(ConfigBlocks(refs));
      |stubs| == |refs| == |configs| && forall j :: 0 <= j < |refs| ==> StubFor(refs[j], stubs[j], configs[j])
  {
    hide StubOf, ConfigOf, StubFor;
    if refs != [] {
      StubAt(refs[1..]);
      assert StubBlocks(refs)[1..] == StubBlocks(refs[1..]) && ConfigBlocks(refs)[1..] == ConfigBlocks(refs[1..]);
      OneStub(refs[0]);
    }
  }

  // A built work bears the name it is given, lies in its owner's namespace, has no status, and names
  // as its one controlling owner the very object it is built from.
  lemma BuiltOwner(cp: ClusterPermission, name: string, p: Payload, validate: bool)
    ensures var work := WorkOf(cp, name, p, validate);
      && work.name == name && work.namespace == cp.namespace && work.status == WorkStatus([], [])
      && |work.owners| == 1
      && work.owners[0].apiVersion == "rbac.open-cluster-management.io/v1alpha1"
      && work.owners[0].kind == "ClusterPermission"
      && work.owners[0].name == cp.name && work.owners[0].uid == cp.uid
      && work.owners[0].controller == Some(true)
  {
    hide SpecOf;
  }

  // --- Validation stubs

  function ManifestRef(m: Manifest): ValidationRoleRef {
    ValidationRoleRef(m.Name(), m.Namespace(), m.Kind())
  }

  // What a config option names, read back from its resource.
  function ConfigRef(c: ManifestConfig): ValidationRoleRef {
    ValidationRoleRef(c.name, c.namespace, if c.resource == "roles" then ROLE else CLUSTER_ROLE)
  }

  // A stub and a config option that both identify a reference, read-only.
  predicate StandFor(m: Manifest, c: ManifestConfig, ref: ValidationRoleRef) {
    ManifestRef(m) == ref == ConfigRef(c) && c.group == GROUP_NAME && c.updateStrategy == READ_ONLY
  }

  lemma OneStubEach(ref: ValidationRoleRef)
    requires WellFormedRef(ref)
    ensures |StubOf(ref)| == 1 == |ConfigOf(ref)| && StandFor(StubOf(ref)[0], ConfigOf(ref)[0], ref)
  {
  }

  lemma {:induction false} StubsFollowRefs(refs: seq<ValidationRoleRef>)
    requires forall r :: r in refs ==> WellFormedRef(r)
    ensures var stubs, configs := Concat(StubBlocks(refs)), Concat(ConfigBlocks(refs));
      |stubs| == |configs| == |refs| && forall j :: 0 <= j < |refs| ==> StandFor(stubs[j], configs[j], refs[j])
  {
    hide StubOf, ConfigOf, StandFor, WellFormedRef;
    if refs != [] {
      StubsFollowRefs(refs[1..]);
      assert StubBlocks(refs)[1..] == StubBlocks(refs[1..]) && ConfigBlocks(refs)[1..] == ConfigBlocks(refs[1..]);
      assert WellFormedRef(refs[0]);
      OneStubEach(refs[0]);
    }
  }

  // With validation on, stubs and configs follow the compiled manifests, one of each per
  // extracted reference, and the j-th of both identify the j-th reference. With validation
  // off there are neither.
  lemma ValidationAligned(world: World, cp: ClusterPermission, validate: bool)
    requires Compile(world, cp, validate).Success?
    ensures var p := Compile(world, cp, validate).value;
      var m, c := Manifests(p, validate), SpecOf(p, validate).configs;
      var n := |Emitted(p)|;
      && p.roleRefs == (if validate then Extracted(cp.spec) else [])
      && |m| == n + |p.roleRefs| && |c| == |p.roleRefs| && m[..n] == Emitted(p)
      && (forall j :: 0 <= j < |c| ==> StandFor(m[n + j], c[j], p.roleRefs[j]))
  {
    hide ClusterRoleOf, ClusterBindings, RoleBlocks, RoleBindingBlocks, Emitted, Checks, StandFor, WellFormedRef,
         StubBlocks, ConfigBlocks, Extracted;
    if validate {
      ReferencesWellFormed(cp.spec);
      ExtractedNeverRepeats(cp.spec);
      StubsFollowRefs(Extracted(cp.spec));
    }
  }

  // The references the stubs of a compiled spec stand for.
  function StubRefs(p: Payload): seq<ValidationRoleRef> {
    var stubs := Concat(StubBlocks(p.roleRefs));
    seq(|stubs|, i requires 0 <= i < |stubs| => ManifestRef(stubs[i]))
  }

  lemma StubRefsAreExtracted(world: World, cp: ClusterPermission)
    requires Compile(world, cp, true).Success?
    ensures StubRefs(Compile(world, cp, true).value) == Extracted(cp.spec)
  {
    hide ClusterRoleOf, ClusterBindings, RoleBlocks, RoleBindingBlocks, Checks, WellFormedRef, StubBlocks,
        ConfigBlocks, Extracted;
    ReferencesWellFormed(cp.spec);
    ExtractedNeverRepeats(cp.spec);
    StubsFollowRefs(Extracted(cp.spec));
  }

  // Coverage: an emitted cluster binding with an explicit ClusterRole has exactly one stub.
  lemma ClusterBindingCovered(world: World, cp: ClusterPermission, i: nat)
    requires Compile(world, cp, true).Success?
    requires i < |EffectiveClusterBindings(cp.spec)|
    requires var r := EffectiveClusterBindings(cp.spec)[i].roleRef; r.Some? && r.value.kind == CLUSTER_ROLE
    ensures var p := Compile(world, cp, true).value;
      multiset(StubRefs(p))[ValidationRoleRef(p.clusterRoleBindings[i].roleRef.name, "", CLUSTER_ROLE)] == 1
  {
    var bs := EffectiveClusterBindings(cp.spec);
    var ref := ValidationRoleRef(bs[i].roleRef.value.name, "", CLUSTER_ROLE);
    ConcatMember(seq(|bs|, k requires 0 <= k < |bs| => ClusterBindingRefs(bs[k])), i, ref);
    assert ref in ClusterBindingsRefs(bs);
    StubRefsAreExtracted(world, cp);
    ExtractedOnce(cp.spec, ref);
  }

  // What an emitted role binding refers to.
  function BoundRole(b: RoleBinding): ValidationRoleRef {
    ValidationRoleRef(b.roleRef.name, if b.roleRef.kind == ROLE then b.namespace else "", b.roleRef.kind)
  }

  // Coverage: an emitted role binding placed by a namespace, with an explicit role, has exactly
  // one stub, where a Role needs label namespaces and a ClusterRole does not.
  lemma RoleBindingCovered(world: World, cp: ClusterPermission, i: nat)
    requires Compile(world, cp, true).Success? && i < |Elements(cp.spec.roleBindings)|
    requires Elements(cp.spec.roleBindings)[i].roleRef.kind == ROLE ==> LabelNamespaces(cp.spec)
    requires var b := Elements(cp.spec.roleBindings)[i];
      b.namespaceSelector.None? && b.roleRef.name != "" && (b.roleRef.kind == ROLE || b.roleRef.kind == CLUSTER_ROLE)
    ensures var p := Compile(world, cp, true).value; var block := RoleBindingBlocks(world, cp)[i];
      |block| == 1 && block[0] in p.roleBindings && multiset(StubRefs(p))[BoundRole(block[0])] == 1
  {
    var p, b := Compile(world, cp, true).value, Elements(cp.spec.roleBindings)[i];
    EmittedRoleBinding(world, cp, i);
    var block := RoleBindingBlocks(world, cp)[i];
    hide RoleBindingBlocks, Compile, StubRefs, Extracted, References, LabelNamespaces;
    ReferenceOfRoleBinding(cp.spec, i, BoundRole(block[0]));
    StubRefsAreExtracted(world, cp);
    ExtractedOnce(cp.spec, BoundRole(block[0]));
  }

  // The one role binding emitted for an entry with a namespace and an explicit role keeps its reference.
  lemma EmittedRoleBinding(world: World, cp: ClusterPermission, i: nat)
    requires Compile(world, cp, true).Success? && i < |Elements(cp.spec.roleBindings)|
    requires var b := Elements(cp.spec.roleBindings)[i]; b.namespaceSelector.None? && b.roleRef.name != ""
    ensures var b := Elements(cp.spec.roleBindings)[i]; var block := RoleBindingBlocks(world, cp)[i];
      && |block| == 1 && block[0] in Compile(world, cp, true).value.roleBindings
      && block[0].namespace == b.namespace != "" && block[0].roleRef == b.roleRef
  {
    hide Checks, SubjectsResolve, TranslateEach, AddonNamespace, GetSubjects, ClusterBindings, RoleBlocks, Extracted,
         AcceptsClusterBindings, AcceptsRoles;
    var b := Elements(cp.spec.roleBindings)[i];
    AcceptsExactly(world, cp, true);
    assert AcceptsRoleBinding(world, cp, b);
    var block := RoleBindingBlocks(world, cp)[i];
    assert block == [RoleBindingIn(world, cp, b, b.namespace)];
    ConcatMember(RoleBindingBlocks(world, cp), i, block[0]);
  }

  // --- Naming and ownership

  // The source slices the first five characters of the UID, so a UID has at least five.
  function GenerateManifestWorkName(cp: ClusterPermission): string
    requires |cp.uid| >= 5
  {
    cp.name + "-" + cp.uid[..5]
  }

  // A work name reads as the owner's name, a dash, and the first five characters of its UID.
  lemma WorkNameParts(cp: ClusterPermission)
    requires |cp.uid| >= 5
    ensures var name := GenerateManifestWorkName(cp);
      && |name| == |cp.name| + 6
      && name[..|cp.name|] == cp.name && name[|cp.name|] == '-'
      && forall i :: 0 <= i < 5 ==> name[|cp.name| + 1 + i] == cp.uid[i]
  {
  }

  // Two names agree exactly when the owner's name and the UID prefix do.
  lemma WorkNameInjective(a: ClusterPermission, b: ClusterPermission)
    requires |a.uid| >= 5 && |b.uid| >= 5
    ensures GenerateManifestWorkName(a) == GenerateManifestWorkName(b) <==> a.name == b.name && a.uid[..5] == b.uid[..5]
  {
    var s, t := GenerateManifestWorkName(a), GenerateManifestWorkName(b);
    assert s[..|a.name|] == a.name && s[|a.name| + 1..] == a.uid[..5];
    assert t[..|b.name|] == b.name && t[|b.name| + 1..] == b.uid[..5];
    if s == t {
      assert |a.name| == |b.name|;
    }
  }

  predicate IsControllerOwner(owner: OwnerReference) {
    owner.apiVersion == API_VERSION && owner.kind == PERMISSION_KIND && owner.controller == Some(true)
  }

  datatype Request = Request(namespace: string, name: string)

  // The watch mapping: a request for the work itself, if a ClusterPermission controls it.
  method FindClusterPermissionForManifestWork(work: ManifestWork) returns (requests: seq<Request>)
    ensures requests == if exists i :: 0 <= i < |work.owners| && IsControllerOwner(work.owners[i])
                        then [Request(work.namespace, work.name)] else []
  {
    for i := 0 to |work.owners|
      invariant forall k :: 0 <= k < i ==> !IsControllerOwner(work.owners[k])
    {
      if IsControllerOwner(work.owners[i]) {
        return [Request(work.namespace, work.name)];
      }
    }
    return [];
  }

  // The name of the first controlling ClusterPermission; empty when there is none.
  function OwnerName(owners: seq<OwnerReference>): string {
    if owners == [] then ""
    else if IsControllerOwner(owners[0]) then owners[0].name
    else OwnerName(owners[1..])
  }

  method FindOwnerName(work: ManifestWork) returns (name: string)
    ensures name == OwnerName(work.owners)
  {
    name := "";
    for i := 0 to |work.owners|
      invariant name == "" && OwnerName(work.owners) == OwnerName(work.owners[i..])
    {
      if IsControllerOwner(work.owners[i]) {
        return work.owners[i].name;
      }
    }
  }
}
