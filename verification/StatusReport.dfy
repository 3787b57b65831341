/** Deriving a ClusterPermission's status from what the agent reports about its ManifestWork. */
module StatusReport {
  import opened Prelude
  import opened Api
  import opened Hub
  import opened Conditions
  import opened RoleRefs
  import opened Payload
  import opened Works
  import opened Strings

  const CLUSTER_ROLE_BINDING := "ClusterRoleBinding"
  const ROLE_BINDING := "RoleBinding"
  const AVAILABLE := "Available"

  // --- The four resource lists

  // The zero time, which a condition literal without a transition time carries.
  const ZERO_TIME := 0

  function GenerateResourceAppliedCondition(conditions: seq<Condition>): Condition {
    match Find(conditions, APPLIED)
    case None =>
      Condition(APPLIED, FALSE, "FailedGetManifestCondition", "Failed to get the manifest condition", ZERO_TIME)
    case Some(applied) =>
      if applied.status == TRUE
      then Condition(APPLIED, applied.status, "AppliedManifestComplete", "Apply manifest complete",
          applied.transitionTime)
      else Condition(APPLIED, applied.status, "FailedApplyManifest", applied.message, applied.transitionTime)
  }

  predicate Namespaced(kind: string) {
    kind == ROLE || kind == ROLE_BINDING
  }

  predicate RbacKind(kind: string) {
    kind == CLUSTER_ROLE || kind == CLUSTER_ROLE_BINDING || kind == ROLE || kind == ROLE_BINDING
  }

  function EntryOf(report: ManifestReport): ResourceEntry {
    ResourceEntry(report.name, if Namespaced(report.kind) then report.namespace else "",
                  [GenerateResourceAppliedCondition(report.conditions)])
  }

  // The entries of one kind, in report order.
  function Entries(reports: seq<ManifestReport>, kind: string): seq<ResourceEntry> {
    if reports == [] then []
    else
      var n := |reports| - 1;
      Entries(reports[..n], kind) + if reports[n].kind == kind then [EntryOf(reports[n])] else []
  }

  function ResourceStatusOf(reports: seq<ManifestReport>): ResourceStatus {
    ResourceStatus(Entries(reports, CLUSTER_ROLE), Entries(reports, CLUSTER_ROLE_BINDING),
                   Entries(reports, ROLE), Entries(reports, ROLE_BINDING))
  }

  lemma EntriesStep(reports: seq<ManifestReport>, i: nat, kind: string)
    requires i < |reports|
    ensures Entries(reports[..i + 1], kind) ==
            Entries(reports[..i], kind) + if reports[i].kind == kind then [EntryOf(reports[i])] else []
  {
    assert reports[..i + 1][..i] == reports[..i];
  }

  // One pass over the reports, appending to one of four lists; other kinds are ignored.
  method BuildResourceStatus(reports: seq<ManifestReport>) returns (status: ResourceStatus)
    ensures status == ResourceStatusOf(reports)
  {
    hide GenerateResourceAppliedCondition, Entries;
    status := ResourceStatus([], [], [], []);
    EntriesOfNothing();
    for i := 0 to |reports|
      invariant status == ResourceStatusOf(reports[..i])
    {
      EntriesStep(reports, i, CLUSTER_ROLE);
      EntriesStep(reports, i, CLUSTER_ROLE_BINDING);
      EntriesStep(reports, i, ROLE);
      EntriesStep(reports, i, ROLE_BINDING);
      var report := reports[i];
      var applied := GenerateResourceAppliedCondition(report.conditions);
      match report.kind {
        case "ClusterRole" =>
          status := status.(clusterRoles := status.clusterRoles + [ResourceEntry(report.name, "", [applied])]);
        case "ClusterRoleBinding" =>
          status := status.(clusterRoleBindings := status.clusterRoleBindings +
              [ResourceEntry(report.name, "", [applied])]);
        case "Role" =>
          status := status.(roles := status.roles + [ResourceEntry(report.name, report.namespace, [applied])]);
        case "RoleBinding" =>
          status := status.(roleBindings := status.roleBindings +
              [ResourceEntry(report.name, report.namespace, [applied])]);
        case _ =>
      }
    }
    assert reports[..|reports|] == reports;
  }

  lemma EntriesOfNothing()
    ensures ResourceStatusOf([]) == ResourceStatus([], [], [], [])
  {
  }

  function RbacReports(reports: seq<ManifestReport>): nat {
    if reports == [] then 0
    else
      var n := |reports| - 1;
      RbacReports(reports[..n]) + if RbacKind(reports[n].kind) then 1 else 0
  }

  // Conservation: every report of an RBAC kind lands in exactly one list.
  lemma {:induction false} ReportsConserved(reports: seq<ManifestReport>)
    ensures var s := ResourceStatusOf(reports);
      |s.clusterRoles| + |s.clusterRoleBindings| + |s.roles| + |s.roleBindings| == RbacReports(reports)
  {
    if reports != [] {
      ReportsConserved(reports[..|reports| - 1]);
    }
  }

  // --- The missing roles

  predicate IsAvailable(report: ManifestReport) {
    var available := Find(report.conditions, AVAILABLE);
    available.Some? && available.value.status == TRUE
  }

  // How a missing object of one kind is written: roles with their namespace, cluster roles without.
  function Written(report: ManifestReport): string {
    if report.kind == ROLE then report.namespace + "/" + report.name else report.name
  }

  // The reports of one kind that are not available, in report order.
  function Missing(reports: seq<ManifestReport>, kind: string): seq<ManifestReport> {
    if reports == [] then []
    else
      var n := |reports| - 1;
      Missing(reports[..n], kind) + if reports[n].kind == kind && !IsAvailable(reports[n]) then [reports[n]] else []
  }

  function WrittenEach(reports: seq<ManifestReport>): seq<string> {
    seq(|reports|, i requires 0 <= i < |reports| => Written(reports[i]))
  }

  lemma MissingStep(reports: seq<ManifestReport>, i: nat, kind: string)
    requires i < |reports|
    ensures Missing(reports[..i + 1], kind) ==
            Missing(reports[..i], kind)
              + if reports[i].kind == kind && !IsAvailable(reports[i]) then [reports[i]] else []
  {
    assert reports[..i + 1][..i] == reports[..i];
  }

  lemma {:induction false} MissingMeaning(reports: seq<ManifestReport>, kind: string)
    ensures Missing(reports, kind) == [] <==> forall r :: r in reports && r.kind == kind ==> IsAvailable(r)
    ensures forall r :: r in Missing(reports, kind) <==> r in reports && r.kind == kind && !IsAvailable(r)
  {
    hide IsAvailable;
    if reports != [] {
      var n := |reports| - 1;
      MissingMeaning(reports[..n], kind);
      assert reports == reports[..n] + [reports[n]];
    }
  }

  const ROLES_PREFIX := "The following roles were not found: "
  const CLUSTER_ROLES_PREFIX := "The following cluster roles were not found: "

  function RolesCondition(missing: seq<string>): Condition {
    if |missing| > 0
    then Condition(VALIDATE_ROLES_EXIST, FALSE, "RolesNotFound", ROLES_PREFIX + Join(missing, COMMA), ZERO_TIME)
    else Condition(VALIDATE_ROLES_EXIST, TRUE, "AllRolesFound", "All referenced roles were found", ZERO_TIME)
  }

  function ClusterRolesCondition(missing: seq<string>): Condition {
    if |missing| > 0
    then Condition(VALIDATE_CLUSTER_ROLES_EXIST, FALSE, "ClusterRolesNotFound",
                   CLUSTER_ROLES_PREFIX + Join(missing, COMMA), ZERO_TIME)
    else Condition(VALIDATE_CLUSTER_ROLES_EXIST, TRUE, "AllClusterRolesFound",
                   "All referenced cluster roles were found", ZERO_TIME)
  }

  function ValidateEdit(conditions: seq<Condition>, reports: seq<ManifestReport>, now: int): seq<Condition> {
    Set(Set(conditions, RolesCondition(WrittenEach(Missing(reports, ROLE))), now),
        ClusterRolesCondition(WrittenEach(Missing(reports, CLUSTER_ROLE))), now)
  }

  method CollectMissing(reports: seq<ManifestReport>) returns (roles: seq<string>, clusterRoles: seq<string>)
    ensures roles == WrittenEach(Missing(reports, ROLE))
    ensures clusterRoles == WrittenEach(Missing(reports, CLUSTER_ROLE))
  {
    hide Missing;
    roles, clusterRoles := [], [];
    NothingMissing();
    for i := 0 to |reports|
      invariant roles == WrittenEach(Missing(reports[..i], ROLE))
      invariant clusterRoles == WrittenEach(Missing(reports[..i], CLUSTER_ROLE))
    {
      MissingStep(reports, i, ROLE);
      MissingStep(reports, i, CLUSTER_ROLE);
      var report := reports[i];
      MissingStaysOfKind(reports[..i]);
      var available := Find(report.conditions, AVAILABLE);
      if available.Some? && available.value.status == TRUE {
        continue;
      }
      match report.kind {
        case "Role" =>
          roles := roles + [report.namespace + "/" + report.name];
        case "ClusterRole" =>
          clusterRoles := clusterRoles + [report.name];
        case _ =>
      }
    }
    assert reports[..|reports|] == reports;
  }

  lemma NothingMissing()
    ensures WrittenEach(Missing([], ROLE)) == [] == WrittenEach(Missing([], CLUSTER_ROLE))
  {
  }

  lemma MissingStaysOfKind(reports: seq<ManifestReport>)
    ensures forall r :: r in Missing(reports, CLUSTER_ROLE) ==> r.kind == CLUSTER_ROLE
    ensures forall r :: r in Missing(reports, ROLE) ==> r.kind == ROLE
  {
    MissingMeaning(reports, CLUSTER_ROLE);
    MissingMeaning(reports, ROLE);
  }

  method UpdateValidateConditions(conditions: seq<Condition>, reports: seq<ManifestReport>, now: int)
    returns (conditions': seq<Condition>)
    ensures conditions' == ValidateEdit(conditions, reports, now)
  {
    hide Missing, Join, Set;
    var missingRoles, missingClusterRoles := CollectMissing(reports);
    if |missingRoles| > 0 {
      var list := JoinStrings(missingRoles, ", ");
      conditions' := Set(conditions,
        Condition(VALIDATE_ROLES_EXIST, FALSE, "RolesNotFound", ROLES_PREFIX + list, ZERO_TIME), now);
    } else {
      conditions' := Set(conditions,
        Condition(VALIDATE_ROLES_EXIST, TRUE, "AllRolesFound", "All referenced roles were found", ZERO_TIME), now);
    }
    if |missingClusterRoles| > 0 {
      var list := JoinStrings(missingClusterRoles, ", ");
      conditions' := Set(conditions',
        Condition(VALIDATE_CLUSTER_ROLES_EXIST, FALSE, "ClusterRolesNotFound",
                  CLUSTER_ROLES_PREFIX + list, ZERO_TIME), now);
    } else {
      conditions' := Set(conditions',
        Condition(VALIDATE_CLUSTER_ROLES_EXIST, TRUE, "AllClusterRolesFound",
                  "All referenced cluster roles were found", ZERO_TIME), now);
    }
  }

  // A role-validation condition after the update, read back: True exactly when every reported
  // manifest of its kind is available; otherwise its message is the prefix followed by the missing
  // objects, which a split at ", " returns in report order if and only if none holds a ", " itself.
  predicate ReportsMissing(found: Option<Condition>, reports: seq<ManifestReport>, kind: string, prefix: string) {
    && found.Some?
    && (found.value.status == TRUE <==> forall r :: r in reports && r.kind == kind ==> IsAvailable(r))
    && (found.value.status != TRUE ==>
          && found.value.status == FALSE
          && |prefix| <= |found.value.message| && found.value.message[..|prefix|] == prefix
          && (Split(found.value.message[|prefix|..]) == WrittenEach(Missing(reports, kind)) <==>
                forall i :: 0 <= i < |Missing(reports, kind)| ==> !HasComma(Written(Missing(reports, kind)[i]))))
  }

  lemma MissingReadBack(reports: seq<ManifestReport>, kind: string, prefix: string)
    requires Missing(reports, kind) != []
    ensures var list := WrittenEach(Missing(reports, kind)); var message := prefix + Join(list, COMMA);
      && message[..|prefix|] == prefix && message[|prefix|..] == Join(list, COMMA)
      && (Split(message[|prefix|..]) == list <==>
            forall i :: 0 <= i < |Missing(reports, kind)| ==> !HasComma(Written(Missing(reports, kind)[i])))
  {
    hide Missing, Written, HasComma, Split, Join;
    var list := WrittenEach(Missing(reports, kind));
    JoinReadable(list);
    assert forall i :: 0 <= i < |list| ==> list[i] == Written(Missing(reports, kind)[i]);
  }

  lemma ValidateExact(conditions: seq<Condition>, reports: seq<ManifestReport>, now: int)
    ensures var after := ValidateEdit(conditions, reports, now);
      && ReportsMissing(Find(after, VALIDATE_ROLES_EXIST), reports, ROLE, ROLES_PREFIX)
      && ReportsMissing(Find(after, VALIDATE_CLUSTER_ROLES_EXIST), reports, CLUSTER_ROLE, CLUSTER_ROLES_PREFIX)
  {
    var roles, clusterRoles := Missing(reports, ROLE), Missing(reports, CLUSTER_ROLE);
    var c1, c2 := RolesCondition(WrittenEach(roles)), ClusterRolesCondition(WrittenEach(clusterRoles));
    MissingMeaning(reports, ROLE);
    MissingMeaning(reports, CLUSTER_ROLE);
    if roles != [] {
      MissingReadBack(reports, ROLE, ROLES_PREFIX);
    }
    if clusterRoles != [] {
      MissingReadBack(reports, CLUSTER_ROLE, CLUSTER_ROLES_PREFIX);
    }
    assert VALIDATE_ROLES_EXIST != VALIDATE_CLUSTER_ROLES_EXIST by {
      assert VALIDATE_ROLES_EXIST[8] != VALIDATE_CLUSTER_ROLES_EXIST[8];
    }
    var middle := Set(conditions, c1, now);
    FindAfterSet(conditions, c1, now, VALIDATE_ROLES_EXIST);
    FindAfterSet(middle, c2, now, VALIDATE_ROLES_EXIST);
    FindAfterSet(middle, c2, now, VALIDATE_CLUSTER_ROLES_EXIST);
  }

  // With slash-free namespaces a written role determines its namespace and name.
  lemma WrittenRoleReadable(a: ManifestReport, b: ManifestReport)
    requires a.kind == ROLE == b.kind && '/' !in a.namespace && '/' !in b.namespace && Written(a) == Written(b)
    ensures a.namespace == b.namespace && a.name == b.name
  {
    SeparatorSplit('/', a.namespace, a.name, b.namespace, b.name);
  }

  // --- The whole status edit

  function CheckHint(namespace: string, work: string): string {
    "Run the following command to check the ManifestWork status:\n" +
    "kubectl -n " + namespace + " get ManifestWork " + work + " -o yaml"
  }

  function AppliedWorkCondition(namespace: string, work: ManifestWork): Condition {
    match Find(work.status.conditions, APPLIED)
    case None => Condition(APPLIED_RBAC_MANIFEST_WORK, FALSE, "ApplyRBACManifestWorkNotComplete",
      "Apply RBAC manifestWork not complete\n" + CheckHint(namespace, work.name), ZERO_TIME)
    case Some(applied) => Condition(APPLIED_RBAC_MANIFEST_WORK, applied.status, applied.reason,
      applied.message + "\n" + CheckHint(namespace, work.name), ZERO_TIME)
  }

  // What the status controller makes of a status it has read; without an Applied condition on
  // the work only the first condition is set and the old resource status is kept.
  function StatusEdit(status: Status, validate: bool, namespace: string, work: ManifestWork, now: int): Status {
    var conditions := Set(status.conditions, AppliedWorkCondition(namespace, work), now);
    if Find(work.status.conditions, APPLIED).None? then status.(conditions := conditions)
    else Status(if validate then ValidateEdit(conditions, work.status.manifests, now) else conditions,
                Some(ResourceStatusOf(work.status.manifests)))
  }

  method EditStatus(status: Status, validate: bool, namespace: string, work: ManifestWork, now: int)
    returns (edited: Status)
    ensures edited == StatusEdit(status, validate, namespace, work, now)
  {
    hide Set, ValidateEdit, ResourceStatusOf, CheckHint;
    edited := status;
    var applied := Find(work.status.conditions, APPLIED);
    if applied.None? {
      edited := edited.(conditions := Set(edited.conditions,
        Condition(APPLIED_RBAC_MANIFEST_WORK, FALSE, "ApplyRBACManifestWorkNotComplete",
                  "Apply RBAC manifestWork not complete\n" + CheckHint(namespace, work.name), ZERO_TIME), now));
      return edited;
    }
    edited := edited.(conditions := Set(edited.conditions,
      Condition(APPLIED_RBAC_MANIFEST_WORK, applied.value.status, applied.value.reason,
                applied.value.message + "\n" + CheckHint(namespace, work.name), ZERO_TIME), now));
    if validate {
      var conditions := UpdateValidateConditions(edited.conditions, work.status.manifests, now);
      edited := edited.(conditions := conditions);
    }
    var resources := BuildResourceStatus(work.status.manifests);
    edited := edited.(resourceStatus := Some(resources));
  }

  // --- What the edit leaves, said of the reports and the work alone

  // One entry of a resource status: the reported name, for namespaced kinds the reported namespace,
  // and one condition telling whether the agent has applied the object.
  predicate EntryTells(report: ManifestReport, e: ResourceEntry) {
    && e.name == report.name
    && (report.kind == "Role" || report.kind == "RoleBinding" ==> e.namespace == report.namespace)
    && (report.kind == "ClusterRole" || report.kind == "ClusterRoleBinding" ==> e.namespace == "")
    && |e.conditions| == 1
    && AppliedTells(Find(report.conditions, "Applied"), e.conditions[0])
  }

  predicate AppliedTells(reported: Option<Condition>, c: Condition) {
    && c.kind == "Applied"
    && (reported.None? ==>
          && c.status == "False" && c.transitionTime == 0
          && c.reason == "FailedGetManifestCondition" && c.message == "Failed to get the manifest condition")
    && (reported.Some? ==> c.status == reported.value.status && c.transitionTime == reported.value.transitionTime)
    && (reported.Some? && reported.value.status == "True" ==>
          c.reason == "AppliedManifestComplete" && c.message == "Apply manifest complete")
    && (reported.Some? && reported.value.status != "True" ==>
          c.reason == "FailedApplyManifest" && c.message == reported.value.message)
  }

  lemma AppliedConditionTells(conditions: seq<Condition>)
    ensures AppliedTells(Find(conditions, "Applied"), GenerateResourceAppliedCondition(conditions))
  {
    hide Find;
  }

  lemma EntryOfTells(report: ManifestReport)
    requires report.kind == "Role" || report.kind == "RoleBinding" || report.kind == "ClusterRole"
             || report.kind == "ClusterRoleBinding"
    ensures EntryTells(report, EntryOf(report))
  {
    hide AppliedTells, GenerateResourceAppliedCondition;
    AppliedConditionTells(report.conditions);
  }

  function IsOfKind(kind: string): ManifestReport -> bool {
    (r: ManifestReport) => r.kind == kind
  }

  // A list is exactly the reports of one kind, in their order.
  ghost predicate Lists(reports: seq<ManifestReport>, kind: string, entries: seq<ResourceEntry>) {
    Projects(reports, IsOfKind(kind), EntryTells, entries)
  }

  lemma {:induction false} EntriesList(reports: seq<ManifestReport>, kind: string)
    requires kind == "Role" || kind == "RoleBinding" || kind == "ClusterRole" || kind == "ClusterRoleBinding"
    ensures Lists(reports, kind, Entries(reports, kind))
  {
    hide EntryOf, EntryTells, Projects;
    if reports == [] {
      ProjectsNothing(IsOfKind(kind), EntryTells);
    } else {
      var n := |reports| - 1;
      EntriesList(reports[..n], kind);
      assert reports == reports[..n] + [reports[n]];
      if reports[n].kind == kind {
        EntryOfTells(reports[n]);
        ProjectsTake(reports[..n], reports[n], IsOfKind(kind), EntryTells,
                     Entries(reports[..n], kind), EntryOf(reports[n]));
      } else {
        ProjectsSkip(reports[..n], reports[n], IsOfKind(kind), EntryTells, Entries(reports[..n], kind));
        assert Entries(reports, kind) == Entries(reports[..n], kind);
      }
    }
  }

  lemma ResourceStatusLists(reports: seq<ManifestReport>)
    ensures var s := ResourceStatusOf(reports);
      && Lists(reports, "ClusterRole", s.clusterRoles) && Lists(reports, "ClusterRoleBinding", s.clusterRoleBindings)
      && Lists(reports, "Role", s.roles) && Lists(reports, "RoleBinding", s.roleBindings)
  {
    hide Lists, Entries;
    EntriesList(reports, "ClusterRole");
    EntriesList(reports, "ClusterRoleBinding");
    EntriesList(reports, "Role");
    EntriesList(reports, "RoleBinding");
  }

  // A report that counts as missing: of the kind, and not reported available.
  function Lacks(kind: string): ManifestReport -> bool {
    (r: ManifestReport) =>
      && r.kind == kind
      && !(Find(r.conditions, "Available").Some? && Find(r.conditions, "Available").value.status == "True")
  }

  predicate WrittenAs(report: ManifestReport, text: string) {
    text == if report.kind == "Role" then report.namespace + "/" + report.name else report.name
  }

  // The written objects are exactly the missing ones, in report order.
  lemma {:induction false} MissingList(reports: seq<ManifestReport>, kind: string)
    ensures Projects(reports, Lacks(kind), WrittenAs, WrittenEach(Missing(reports, kind)))
  {
    hide Projects, Written, WrittenAs, IsAvailable;
    if reports == [] {
      ProjectsNothing(Lacks(kind), WrittenAs);
    } else {
      var n := |reports| - 1;
      MissingList(reports[..n], kind);
      assert reports == reports[..n] + [reports[n]];
      var before := WrittenEach(Missing(reports[..n], kind));
      LacksExactly(kind, reports[n]);
      if Lacks(kind)(reports[n]) {
        WrittenExactly(reports[n]);
        ProjectsTake(reports[..n], reports[n], Lacks(kind), WrittenAs, before, Written(reports[n]));
        assert WrittenEach(Missing(reports, kind)) == before + [Written(reports[n])];
      } else {
        ProjectsSkip(reports[..n], reports[n], Lacks(kind), WrittenAs, before);
        assert Missing(reports, kind) == Missing(reports[..n], kind);
      }
    }
  }

  lemma LacksExactly(kind: string, report: ManifestReport)
    ensures Lacks(kind)(report) <==> report.kind == kind && !IsAvailable(report)
  {
    hide Find;
  }

  lemma WrittenExactly(report: ManifestReport)
    ensures WrittenAs(report, Written(report))
  {
  }

  // The overall condition: the work's own Applied condition, with a hint where to look; False
  // where the work has none.
  predicate AppliedWorkTells(c: Condition, namespace: string, work: ManifestWork) {
    var applied := Find(work.status.conditions, "Applied");
    && c.status == (if applied.Some? then applied.value.status else "False")
    && c.reason == (if applied.Some? then applied.value.reason else "ApplyRBACManifestWorkNotComplete")
    && c.message == (if applied.Some? then applied.value.message else "Apply RBAC manifestWork not complete")
         + "\n" + HintTo(namespace, work.name)
  }

  function HintTo(namespace: string, name: string): string {
    "Run the following command to check the ManifestWork status:\n" + "kubectl -n " + namespace
      + " get ManifestWork " + name + " -o yaml"
  }

  lemma AppliedWorkConditionTells(namespace: string, work: ManifestWork)
    ensures AppliedWorkCondition(namespace, work).kind == "AppliedRBACManifestWork"
    ensures AppliedWorkTells(AppliedWorkCondition(namespace, work), namespace, work)
  {
    hide Find;
    assert CheckHint(namespace, work.name) == HintTo(namespace, work.name);
    hide CheckHint, HintTo;
    assert "Apply RBAC manifestWork not complete\n" == "Apply RBAC manifestWork not complete" + "\n";
  }

  // A role condition, given the written missing objects.
  predicate RolesTell(c: Condition, missing: seq<string>) {
    if missing == [] then
      Says(c, "ValidateRolesExist", "True", "AllRolesFound", "All referenced roles were found")
    else
      Says(c, "ValidateRolesExist", "False", "RolesNotFound",
           "The following roles were not found: " + Join(missing, ", "))
  }

  predicate ClusterRolesTell(c: Condition, missing: seq<string>) {
    if missing == [] then
      Says(c, "ValidateClusterRolesExist", "True", "AllClusterRolesFound", "All referenced cluster roles were found")
    else
      Says(c, "ValidateClusterRolesExist", "False", "ClusterRolesNotFound",
           "The following cluster roles were not found: " + Join(missing, ", "))
  }

  lemma RolesConditionTells(missing: seq<string>)
    ensures RolesTell(RolesCondition(missing), missing)
  {
    hide Join;
  }

  lemma ClusterRolesConditionTells(missing: seq<string>)
    ensures ClusterRolesTell(ClusterRolesCondition(missing), missing)
  {
    hide Join;
  }

  // Both role conditions after the update, and no other type changed.
  lemma ValidateTells(conditions: seq<Condition>, reports: seq<ManifestReport>, now: int)
    returns (roles: seq<string>, clusterRoles: seq<string>)
    ensures Projects(reports, Lacks("Role"), WrittenAs, roles)
    ensures Projects(reports, Lacks("ClusterRole"), WrittenAs, clusterRoles)
    ensures var after := ValidateEdit(conditions, reports, now);
      && Find(after, "ValidateRolesExist").Some? && RolesTell(Find(after, "ValidateRolesExist").value, roles)
      && Find(after, "ValidateClusterRolesExist").Some?
      && ClusterRolesTell(Find(after, "ValidateClusterRolesExist").value, clusterRoles)
      && forall kind :: kind != "ValidateRolesExist" && kind != "ValidateClusterRolesExist" ==>
           Find(after, kind) == Find(conditions, kind)
  {
    hide Find, Set, Projects, Missing, RolesCondition, ClusterRolesCondition, Join;
    roles, clusterRoles := WrittenEach(Missing(reports, ROLE)), WrittenEach(Missing(reports, CLUSTER_ROLE));
    MissingList(reports, ROLE);
    MissingList(reports, CLUSTER_ROLE);
    RolesConditionTells(roles);
    ClusterRolesConditionTells(clusterRoles);
    RolesApart();
    var middle := Set(conditions, RolesCondition(roles), now);
    SetSays(conditions, RolesCondition(roles), now);
    SetSays(middle, ClusterRolesCondition(clusterRoles), now);
  }

  lemma RolesApart()
    ensures "ValidateRolesExist" != "ValidateClusterRolesExist"
    ensures "AppliedRBACManifestWork" != "ValidateRolesExist"
    ensures "AppliedRBACManifestWork" != "ValidateClusterRolesExist"
  {
    assert "ValidateRolesExist"[8] != "ValidateClusterRolesExist"[8];
    assert "AppliedRBACManifestWork"[0] != "ValidateRolesExist"[0];
  }

  // The status the edit leaves. The overall condition tells the work's Applied condition. Where the
  // work has one, the resource status is present and each of its lists is exactly the reports of
  // its kind, and, where the object asks for validation, both role conditions tell what is
  // missing; where it has none, the resource status is the old one. No other type changes.
  lemma EditTells(status: Status, validate: bool, namespace: string, work: ManifestWork, now: int)
    returns (roles: seq<string>, clusterRoles: seq<string>)
    ensures var e := StatusEdit(status, validate, namespace, work, now);
      var applied := Find(work.status.conditions, "Applied").Some?;
      && Find(e.conditions, "AppliedRBACManifestWork").Some?
      && AppliedWorkTells(Find(e.conditions, "AppliedRBACManifestWork").value, namespace, work)
      && (!applied ==> e.resourceStatus == status.resourceStatus)
      && (applied ==>
            && e.resourceStatus.Some?
            && Lists(work.status.manifests, "ClusterRole", e.resourceStatus.value.clusterRoles)
            && Lists(work.status.manifests, "ClusterRoleBinding", e.resourceStatus.value.clusterRoleBindings)
            && Lists(work.status.manifests, "Role", e.resourceStatus.value.roles)
            && Lists(work.status.manifests, "RoleBinding", e.resourceStatus.value.roleBindings))
      && (applied && validate ==>
            && Projects(work.status.manifests, Lacks("Role"), WrittenAs, roles)
            && Projects(work.status.manifests, Lacks("ClusterRole"), WrittenAs, clusterRoles)
            && Find(e.conditions, "ValidateRolesExist").Some?
            && RolesTell(Find(e.conditions, "ValidateRolesExist").value, roles)
            && Find(e.conditions, "ValidateClusterRolesExist").Some?
            && ClusterRolesTell(Find(e.conditions, "ValidateClusterRolesExist").value, clusterRoles))
      && (forall kind :: Untouched(kind, applied && validate) ==>
            Find(e.conditions, kind) == Find(status.conditions, kind))
  {
    hide Find, Set, Projects, ValidateEdit, AppliedWorkCondition, AppliedWorkTells, RolesTell, ClusterRolesTell,
         Lists, ResourceStatusOf;
    var c := AppliedWorkCondition(namespace, work);
    var conditions := Set(status.conditions, c, now);
    AppliedWorkConditionTells(namespace, work);
    SetSays(status.conditions, c, now);
    SaidAlike(c, Find(conditions, c.kind).value, namespace, work);
    RolesApart();
    ResourceStatusLists(work.status.manifests);
    roles, clusterRoles := ValidateTells(conditions, work.status.manifests, now);
  }

  predicate Untouched(kind: string, validated: bool) {
    && kind != "AppliedRBACManifestWork"
    && (validated ==> kind != "ValidateRolesExist" && kind != "ValidateClusterRolesExist")
  }

  lemma SaidAlike(c: Condition, d: Condition, namespace: string, work: ManifestWork)
    requires AppliedWorkTells(c, namespace, work) && Says(d, c.kind, c.status, c.reason, c.message)
    ensures AppliedWorkTells(d, namespace, work)
  {
    hide HintTo, Find;
  }

  // --- End to end: from the compiled spec to the reported lists

  // The agent reports every manifest once, in order, under its own kind, namespace and name.
  predicate Reports(reports: seq<ManifestReport>, manifests: seq<Manifest>) {
    |reports| == |manifests| && forall i :: 0 <= i < |reports| ==>
      && reports[i].kind == manifests[i].Kind()
      && reports[i].namespace == manifests[i].Namespace()
      && reports[i].name == manifests[i].Name()
  }

  // Name and namespace of each entry, and of each manifest of one kind.
  function Identities(entries: seq<ResourceEntry>): seq<(string, string)> {
    seq(|entries|, i requires 0 <= i < |entries| => (entries[i].name, entries[i].namespace))
  }

  function OfKind(manifests: seq<Manifest>, kind: string): seq<(string, string)> {
    if manifests == [] then []
    else
      var n := |manifests| - 1;
      OfKind(manifests[..n], kind)
        + if manifests[n].Kind() == kind then [(manifests[n].Name(), manifests[n].Namespace())] else []
  }

  lemma EntryIdentity(report: ManifestReport, m: Manifest)
    requires report.kind == m.Kind() && report.namespace == m.Namespace() && report.name == m.Name()
    ensures EntryOf(report).name == m.Name() && EntryOf(report).namespace == m.Namespace()
  {
    hide GenerateResourceAppliedCondition;
  }

  lemma {:induction false} EntriesAreManifests(reports: seq<ManifestReport>, manifests: seq<Manifest>, kind: string)
    requires Reports(reports, manifests)
    ensures Identities(Entries(reports, kind)) == OfKind(manifests, kind)
  {
    hide EntryOf;
    if reports != [] {
      var n := |reports| - 1;
      EntriesAreManifests(reports[..n], manifests[..n], kind);
      EntryIdentity(reports[n], manifests[n]);
    }
  }

  lemma {:induction false} OfKindAppend(a: seq<Manifest>, b: seq<Manifest>, kind: string)
    ensures OfKind(a + b, kind) == OfKind(a, kind) + OfKind(b, kind)
  {
    hide Manifest.Kind, Manifest.Name, Manifest.Namespace;
    if b == [] {
      assert a + b == a;
    } else {
      var n := |b| - 1;
      OfKindAppend(a, b[..n], kind);
      assert (a + b)[..|a + b| - 1] == a + b[..n];
      assert (a + b)[|a + b| - 1] == b[n];
    }
  }

  function Names(manifests: seq<Manifest>): seq<(string, string)> {
    seq(|manifests|, i requires 0 <= i < |manifests| => (manifests[i].Name(), manifests[i].Namespace()))
  }

  // What manifests that are all of one kind contribute to the list of a kind.
  function Part(manifests: seq<Manifest>, own: string, kind: string): seq<(string, string)> {
    if own == kind then Names(manifests) else []
  }

  lemma {:induction false} OfOneKind(manifests: seq<Manifest>, own: string, kind: string)
    requires forall i :: 0 <= i < |manifests| ==> manifests[i].Kind() == own
    ensures OfKind(manifests, kind) == Part(manifests, own, kind)
  {
    hide Manifest.Kind, Manifest.Name, Manifest.Namespace;
    if manifests != [] {
      var n := |manifests| - 1;
      OfOneKind(manifests[..n], own, kind);
      assert own == kind ==>
        Names(manifests) == Names(manifests[..n]) + [(manifests[n].Name(), manifests[n].Namespace())];
    }
  }

  lemma KindsDiffer()
    ensures CLUSTER_ROLE != CLUSTER_ROLE_BINDING && CLUSTER_ROLE != ROLE && CLUSTER_ROLE != ROLE_BINDING
    ensures CLUSTER_ROLE_BINDING != ROLE && CLUSTER_ROLE_BINDING != ROLE_BINDING && ROLE != ROLE_BINDING
  {
  }

  lemma EmittedSplit(p: Payload, kind: string)
    ensures OfKind(Emitted(p), kind) ==
      OfKind(ClusterRoleManifests(p.clusterRole), kind)
        + OfKind(ClusterRoleBindingManifests(p.clusterRoleBindings), kind)
        + OfKind(RoleManifests(p.roles), kind) + OfKind(RoleBindingManifests(p.roleBindings), kind)
  {
    hide ClusterRoleManifests, ClusterRoleBindingManifests, RoleManifests, RoleBindingManifests, OfKind;
    var a, b := ClusterRoleManifests(p.clusterRole), ClusterRoleBindingManifests(p.clusterRoleBindings);
    var c, d := RoleManifests(p.roles), RoleBindingManifests(p.roleBindings);
    OfKindAppend(a, b, kind);
    OfKindAppend(a + b, c, kind);
    OfKindAppend(a + b + c, d, kind);
  }

  // The emitted part of a payload, projected to one kind: all of one part and none of the others.
  lemma EmittedParts(p: Payload, kind: string)
    ensures OfKind(Emitted(p), kind) ==
      Part(ClusterRoleManifests(p.clusterRole), CLUSTER_ROLE, kind)
        + Part(ClusterRoleBindingManifests(p.clusterRoleBindings), CLUSTER_ROLE_BINDING, kind)
        + Part(RoleManifests(p.roles), ROLE, kind) + Part(RoleBindingManifests(p.roleBindings), ROLE_BINDING, kind)
  {
    OfOneKind(ClusterRoleManifests(p.clusterRole), CLUSTER_ROLE, kind);
    OfOneKind(ClusterRoleBindingManifests(p.clusterRoleBindings), CLUSTER_ROLE_BINDING, kind);
    OfOneKind(RoleManifests(p.roles), ROLE, kind);
    OfOneKind(RoleBindingManifests(p.roleBindings), ROLE_BINDING, kind);
    hide *;
    EmittedSplit(p, kind);
  }

  lemma EmittedClusterRoles(p: Payload)
    ensures OfKind(Emitted(p), CLUSTER_ROLE) == Names(ClusterRoleManifests(p.clusterRole))
  {
    EmittedParts(p, CLUSTER_ROLE);
    KindsDiffer();
  }

  lemma EmittedClusterRoleBindings(p: Payload)
    ensures OfKind(Emitted(p), CLUSTER_ROLE_BINDING) == Names(ClusterRoleBindingManifests(p.clusterRoleBindings))
  {
    EmittedParts(p, CLUSTER_ROLE_BINDING);
    KindsDiffer();
  }

  lemma EmittedRoles(p: Payload)
    ensures OfKind(Emitted(p), ROLE) == Names(RoleManifests(p.roles))
  {
    EmittedParts(p, ROLE);
    KindsDiffer();
  }

  lemma EmittedRoleBindings(p: Payload)
    ensures OfKind(Emitted(p), ROLE_BINDING) == Names(RoleBindingManifests(p.roleBindings))
  {
    EmittedParts(p, ROLE_BINDING);
    KindsDiffer();
  }

  // The references of one kind, as names and namespaces.
  function RefsOfKind(refs: seq<ValidationRoleRef>, kind: string): seq<(string, string)> {
    if refs == [] then []
    else
      var n := |refs| - 1;
      RefsOfKind(refs[..n], kind) + if refs[n].kind == kind then [(refs[n].name, refs[n].namespace)] else []
  }

  lemma {:induction false} StubsOfKind(stubs: seq<Manifest>, refs: seq<ValidationRoleRef>, kind: string)
    requires |stubs| == |refs| && forall i :: 0 <= i < |refs| ==> ManifestRef(stubs[i]) == refs[i]
    ensures OfKind(stubs, kind) == RefsOfKind(refs, kind)
  {
    hide Manifest.Kind, Manifest.Name, Manifest.Namespace;
    if refs != [] {
      var n := |refs| - 1;
      assert ManifestRef(stubs[n]) == refs[n];
      StubsOfKind(stubs[..n], refs[..n], kind);
    }
  }

  lemma {:induction false} RefsOfOtherKind(refs: seq<ValidationRoleRef>, kind: string)
    requires forall r :: r in refs ==> WellFormedRef(r)
    requires kind != ROLE && kind != CLUSTER_ROLE
    ensures RefsOfKind(refs, kind) == []
  {
    if refs != [] {
      assert WellFormedRef(refs[|refs| - 1]);
      RefsOfOtherKind(refs[..|refs| - 1], kind);
    }
  }

  // One reported list is what the payload emits of that kind, then the stubs of that kind.
  lemma ListReported(world: World, cp: ClusterPermission, validate: bool, reports: seq<ManifestReport>, kind: string)
    requires Compile(world, cp, validate).Success?
    requires Reports(reports, Manifests(Compile(world, cp, validate).value, validate))
    ensures var p := Compile(world, cp, validate).value;
      Identities(Entries(reports, kind)) == OfKind(Emitted(p), kind) + RefsOfKind(p.roleRefs, kind)
  {
    var p := Compile(world, cp, validate).value;
    var m, n := Manifests(p, validate), |Emitted(p)|;
    ValidationAligned(world, cp, validate);
    hide Compile, Manifests, Emitted, Entries, OfKind, RefsOfKind, Extracted;
    EntriesAreManifests(reports, m, kind);
    forall j | 0 <= j < |p.roleRefs| ensures ManifestRef(m[n..][j]) == p.roleRefs[j] {
      assert StandFor(m[n + j], SpecOf(p, validate).configs[j], p.roleRefs[j]);
    }
    StubsOfKind(m[n..], p.roleRefs, kind);
    OfKindAppend(m[..n], m[n..], kind);
    assert m == m[..n] + m[n..];
  }

  // The report round trip: if the agent reports every manifest of the compiled work, the four
  // resource lists are the compiled objects of their kind, in order, with the validation
  // stubs following among the roles and cluster roles.
  lemma ReportRoundTrip(world: World, cp: ClusterPermission, validate: bool, reports: seq<ManifestReport>)
    requires Compile(world, cp, validate).Success?
    requires Reports(reports, Manifests(Compile(world, cp, validate).value, validate))
    ensures var p, s := Compile(world, cp, validate).value, ResourceStatusOf(reports);
      && Identities(s.clusterRoles) == Names(ClusterRoleManifests(p.clusterRole)) + RefsOfKind(p.roleRefs, CLUSTER_ROLE)
      && Identities(s.clusterRoleBindings) == Names(ClusterRoleBindingManifests(p.clusterRoleBindings))
      && Identities(s.roles) == Names(RoleManifests(p.roles)) + RefsOfKind(p.roleRefs, ROLE)
      && Identities(s.roleBindings) == Names(RoleBindingManifests(p.roleBindings))
  {
    var p := Compile(world, cp, validate).value;
    ListReported(world, cp, validate, reports, CLUSTER_ROLE);
    ListReported(world, cp, validate, reports, CLUSTER_ROLE_BINDING);
    ListReported(world, cp, validate, reports, ROLE);
    ListReported(world, cp, validate, reports, ROLE_BINDING);
    ValidationAligned(world, cp, validate);
    hide Compile, Manifests, Emitted, Entries, OfKind, RefsOfKind, Extracted, References;
    EmittedClusterRoles(p);
    EmittedClusterRoleBindings(p);
    EmittedRoles(p);
    EmittedRoleBindings(p);
    ReferencesWellFormed(cp.spec);
    ExtractedNeverRepeats(cp.spec);
    RefsOfOtherKind(p.roleRefs, CLUSTER_ROLE_BINDING);
    RefsOfOtherKind(p.roleRefs, ROLE_BINDING);
  }

  // The same of the status the edit leaves: whatever status was there before, reporting every
  // manifest of the compiled work makes its four lists the compiled objects and the stubs.
  lemma EditRoundTrip(world: World, cp: ClusterPermission, validate: bool, status: Status, validates: bool,
                      namespace: string, work: ManifestWork, now: int)
    requires Compile(world, cp, validate).Success? && Find(work.status.conditions, "Applied").Some?
    requires Reports(work.status.manifests, Manifests(Compile(world, cp, validate).value, validate))
    ensures var p := Compile(world, cp, validate).value;
      var s := StatusEdit(status, validates, namespace, work, now).resourceStatus;
      && s.Some?
      && Identities(s.value.clusterRoles) ==
           Names(ClusterRoleManifests(p.clusterRole)) + RefsOfKind(p.roleRefs, CLUSTER_ROLE)
      && Identities(s.value.clusterRoleBindings) == Names(ClusterRoleBindingManifests(p.clusterRoleBindings))
      && Identities(s.value.roles) == Names(RoleManifests(p.roles)) + RefsOfKind(p.roleRefs, ROLE)
      && Identities(s.value.roleBindings) == Names(RoleBindingManifests(p.roleBindings))
  {
    hide Compile, Manifests, ResourceStatusOf, Set, ValidateEdit, AppliedWorkCondition, Names, RefsOfKind, Identities;
    ReportRoundTrip(world, cp, validate, work.status.manifests);
  }
}
