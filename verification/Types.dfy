/** The RBAC objects the controller emits. */
module Rbac {

  datatype Subject = Subject(apiGroup: string, kind: string, namespace: string, name: string)

  datatype PolicyRule = PolicyRule(
    verbs: seq<string>, apiGroups: seq<string>, resources: seq<string>,
    resourceNames: seq<string>, nonResourceURLs: seq<string>)

  datatype RoleRef = RoleRef(apiGroup: string, kind: string, name: string)

  datatype ClusterRole = ClusterRole(name: string, rules: seq<PolicyRule>)

  datatype ClusterRoleBinding = ClusterRoleBinding(name: string, roleRef: RoleRef, subjects: seq<Subject>)

  datatype Role = Role(name: string, namespace: string, rules: seq<PolicyRule>)

  datatype RoleBinding = RoleBinding(name: string, namespace: string, roleRef: RoleRef, subjects: seq<Subject>)

  const GROUP_NAME := "rbac.authorization.k8s.io"
}

/** Status conditions with the list operations of the apimachinery library, by their published contract. */
module Conditions {
  import opened Prelude

  // A condition status is "True", "False" or "Unknown"; the controllers also copy reported ones.
  datatype Condition = Condition(
    kind: string, status: string, reason: string, message: string, transitionTime: int)

  const TRUE := "True"
  const FALSE := "False"

  // FindStatusCondition: the first condition of the given type.
  function Find(conditions: seq<Condition>, kind: string): Option<Condition> {
    if conditions == [] then None
    else if conditions[0].kind == kind then Some(conditions[0])
    else Find(conditions[1..], kind)
  }

  // What an existing condition becomes when the same type is set again: its
  // transition time moves only when its status does.
  function Revise(existing: Condition, update: Condition, now: int): Condition {
    Condition(existing.kind, update.status, update.reason, update.message,
              if existing.status == update.status then existing.transitionTime else now)
  }

  // SetStatusCondition for an update that carries no transition time of its own:
  // revise the first condition of that type in place, or append a new one.
  function Set(conditions: seq<Condition>, update: Condition, now: int): seq<Condition> {
    if conditions == [] then [update.(transitionTime := now)]
    else if conditions[0].kind == update.kind then [Revise(conditions[0], update, now)] + conditions[1..]
    else [conditions[0]] + Set(conditions[1..], update, now)
  }

  function Kinds(conditions: seq<Condition>): seq<string> {
    seq(|conditions|, i requires 0 <= i < |conditions| => conditions[i].kind)
  }

  // Setting a type writes exactly that type: what is found afterwards, for every type.
  lemma {:induction false} FindAfterSet(conditions: seq<Condition>, update: Condition, now: int, kind: string)
    ensures Find(Set(conditions, update, now), kind) ==
            if kind != update.kind then Find(conditions, kind)
            else match Find(conditions, kind)
                 case None => Some(update.(transitionTime := now))
                 case Some(existing) => Some(Revise(existing, update, now))
  {
    if conditions != [] && conditions[0].kind != update.kind {
      FindAfterSet(conditions[1..], update, now, kind);
      assert Set(conditions, update, now)[1..] == Set(conditions[1..], update, now);
    }
  }

  // Setting a type keeps the order of the types, adding at most the new one at the end.
  lemma {:induction false} KindsAfterSet(conditions: seq<Condition>, update: Condition, now: int)
    ensures Kinds(Set(conditions, update, now)) ==
            if update.kind in Kinds(conditions) then Kinds(conditions) else Kinds(conditions) + [update.kind]
  {
    if conditions != [] {
      assert Kinds(conditions) == [conditions[0].kind] + Kinds(conditions[1..]);
      if conditions[0].kind != update.kind {
        KindsAfterSet(conditions[1..], update, now);
        var rest := Set(conditions[1..], update, now);
        assert Kinds([conditions[0]] + rest) == [conditions[0].kind] + Kinds(rest);
      }
    }
  }

  lemma {:induction false} FoundKind(conditions: seq<Condition>, kind: string)
    ensures Find(conditions, kind).Some? ==> Find(conditions, kind).value.kind == kind
  {
    if conditions != [] {
      FoundKind(conditions[1..], kind);
    }
  }

  // What a condition says, its time apart.
  predicate Says(c: Condition, kind: string, status: string, reason: string, message: string) {
    c.kind == kind && c.status == status && c.reason == reason && c.message == message
  }

  // After a set, the condition of that type says what the update says, and no other type has changed.
  lemma SetSays(conditions: seq<Condition>, update: Condition, now: int)
    ensures var after := Set(conditions, update, now);
      && Find(after, update.kind).Some?
      && Says(Find(after, update.kind).value, update.kind, update.status, update.reason, update.message)
      && forall kind :: kind != update.kind ==> Find(after, kind) == Find(conditions, kind)
  {
    hide Find, Set;
    forall kind ensures kind != update.kind ==> Find(Set(conditions, update, now), kind) == Find(conditions, kind) {
      FindAfterSet(conditions, update, now, kind);
    }
    FindAfterSet(conditions, update, now, update.kind);
    FoundKind(conditions, update.kind);
  }

  // Setting the same condition again, at any later time, changes nothing.
  lemma {:induction false} SetIdempotent(conditions: seq<Condition>, update: Condition, now: int, later: int)
    ensures Set(Set(conditions, update, now), update, later) == Set(conditions, update, now)
  {
    if conditions != [] && conditions[0].kind != update.kind {
      SetIdempotent(conditions[1..], update, now, later);
      assert Set(conditions, update, now)[1..] == Set(conditions[1..], update, now);
    }
  }

  // A condition list with its times forgotten.
  function Timeless(conditions: seq<Condition>): seq<Condition> {
    seq(|conditions|, i requires 0 <= i < |conditions| => conditions[i].(transitionTime := 0))
  }

  lemma TimelessCons(head: Condition, tail: seq<Condition>)
    ensures Timeless([head] + tail) == [head.(transitionTime := 0)] + Timeless(tail)
  {
  }

  // Up to times, what a set leaves depends only on what it finds up to times.
  lemma {:induction false} SetTimeless(a: seq<Condition>, b: seq<Condition>, update: Condition, now: int, later: int)
    requires Timeless(a) == Timeless(b)
    ensures Timeless(Set(a, update, now)) == Timeless(Set(b, update, later))
  {
    assert |a| == |Timeless(a)| == |b|;
    if a != [] {
      assert Timeless(a)[0] == Timeless(b)[0];
      assert Timeless(a[1..]) == Timeless(a)[1..] == Timeless(b)[1..] == Timeless(b[1..]);
      if a[0].kind != update.kind {
        SetTimeless(a[1..], b[1..], update, now, later);
        TimelessCons(a[0], Set(a[1..], update, now));
        TimelessCons(b[0], Set(b[1..], update, later));
      } else {
        TimelessCons(Revise(a[0], update, now), a[1..]);
        TimelessCons(Revise(b[0], update, later), b[1..]);
      }
    }
  }
}

/** The ClusterPermission API types; a nil pointer is None, and list order is kept. */
module Api {
  import opened Prelude
  import opened Rbac
  import opened Conditions

  // A label selector is an opaque key: parsing and matching are library behaviour.
  type Selector = string

  datatype ClusterRoleSpec = ClusterRoleSpec(rules: seq<PolicyRule>)

  datatype ClusterRoleBindingSpec = ClusterRoleBindingSpec(
    subject: Option<Subject>, subjects: seq<Subject>, name: string, roleRef: Option<RoleRef>)

  datatype RoleSpec = RoleSpec(namespace: string, namespaceSelector: Option<Selector>, rules: seq<PolicyRule>)

  datatype RoleBindingSpec = RoleBindingSpec(
    subject: Option<Subject>, subjects: seq<Subject>, roleRef: RoleRef,
    namespace: string, namespaceSelector: Option<Selector>, name: string)

  datatype Spec = Spec(
    validate: Option<bool>,
    clusterRole: Option<ClusterRoleSpec>,
    clusterRoleBinding: Option<ClusterRoleBindingSpec>,
    clusterRoleBindings: Option<seq<ClusterRoleBindingSpec>>,
    roles: Option<seq<RoleSpec>>,
    roleBindings: Option<seq<RoleBindingSpec>>)

  // One entry of a resource status list; the namespace is empty for cluster-scoped kinds.
  datatype ResourceEntry = ResourceEntry(name: string, namespace: string, conditions: seq<Condition>)

  datatype ResourceStatus = ResourceStatus(
    clusterRoles: seq<ResourceEntry>, clusterRoleBindings: seq<ResourceEntry>,
    roles: seq<ResourceEntry>, roleBindings: seq<ResourceEntry>)

  datatype Status = Status(conditions: seq<Condition>, resourceStatus: Option<ResourceStatus>)

  datatype ClusterPermission = ClusterPermission(
    name: string, namespace: string, uid: string, deleting: bool, spec: Spec, status: Status)

  const APPLIED_RBAC_MANIFEST_WORK := "AppliedRBACManifestWork"
  const VALIDATION := "Validation"
  const VALIDATE_ROLES_EXIST := "ValidateRolesExist"
  const VALIDATE_CLUSTER_ROLES_EXIST := "ValidateClusterRolesExist"
  const APPLIED := "Applied"

  function Elements<T>(list: Option<seq<T>>): seq<T> {
    if list.Some? then list.value else []
  }
}

/** What the compiler reads from the hub cluster, as one explicit value. */
module Hub {
  import opened Prelude
  import opened Api

  // The objects whose absence the controller meets, and the two kinds of entry placed in namespaces.
  datatype Resource = ManagedClusters | ServiceAccounts | Addons | Permissions | Works
  datatype Entry = RoleEntry | RoleBindingEntry

  datatype Error =
    | NotFound(resource: Resource, name: string)
    | ApiFailure(text: string)
    | Unplaced(entry: Entry)
    | Ambiguous(entry: Entry)
    | NoNamespaceSelected
    | MissingApiGroup(namespace: string)
    | MissingName(namespace: string)
    | Conflict(resource: Resource, name: string)
    | AlreadyExists(resource: Resource, name: string)

  function ResourceText(resource: Resource): string {
    match resource
    case ManagedClusters => "managedclusters.cluster.open-cluster-management.io"
    case ServiceAccounts => "managedserviceaccounts.authentication.open-cluster-management.io"
    case Addons => "managedclusteraddons.addon.open-cluster-management.io"
    case Permissions => "clusterpermissions.rbac.open-cluster-management.io"
    case Works => "manifestworks.work.open-cluster-management.io"
  }

  function EntryText(entry: Entry): string {
    match entry
    case RoleEntry => "Role"
    case RoleBindingEntry => "RoleBinding"
  }

  // The text an error carries into a status condition.
  function Message(error: Error): string {
    match error
    case NotFound(resource, name) => ResourceText(resource) + " \"" + name + "\" not found"
    case ApiFailure(text) => text
    case Unplaced(entry) => "both " + EntryText(entry) + " Namespace and NamespaceSelector cannot be nil and empty"
    case Ambiguous(entry) =>
      "both " + EntryText(entry) + " Namespace and NamespaceSelector cannot populated at the same time"
    case NoNamespaceSelected => "unable to find any Namespace using NamespaceSelector"
    case MissingApiGroup(namespace) =>
      "the RoleBinding for Namespace " + namespace + " missing APIGroup for the RoleRef"
    case MissingName(namespace) => "the RoleBinding for Namespace " + namespace + " missing Name for the RoleRef"
    case Conflict(resource, name) => "Operation cannot be fulfilled on " + ResourceText(resource) + " \"" + name +
      "\": the object has been modified; please apply your changes to the latest version and try again"
    case AlreadyExists(resource, name) => ResourceText(resource) + " \"" + name + "\" already exists"
  }

  // `rest` stands for every addon field the controller does not read.
  datatype Addon = Addon(statusNamespace: string, installNamespace: string, rest: string)

  // A listing can fail twice, and its item list may be nil, which is not the same as empty.
  datatype Listing =
    | BadSelector(error: Error)
    | ListFailed(error: Error)
    | Listed(items: Option<seq<string>>)

  // A key that is absent is not found; a key mapped to a failure is an API error.
  datatype World = World(
    managedClusters: map<string, Result<(), Error>>,
    serviceAccounts: map<(string, string), Result<(), Error>>,
    addons: map<string, Result<Addon, Error>>,
    listings: map<Selector, Listing>)
  {
    function GetManagedCluster(name: string): Result<(), Error> {
      if name in managedClusters then managedClusters[name]
      else Failure(NotFound(ManagedClusters, name))
    }

    function GetServiceAccount(namespace: string, name: string): Result<(), Error> {
      if (namespace, name) in serviceAccounts then serviceAccounts[(namespace, name)]
      else Failure(NotFound(ServiceAccounts, name))
    }

    function GetAddon(namespace: string): Result<Addon, Error> {
      if namespace in addons then addons[namespace]
      else Failure(NotFound(Addons, ADDON_NAME))
    }

    function ListNamespaces(selector: Selector): Listing {
      if selector in listings then listings[selector] else Listed(None)
    }
  }

  const ADDON_NAME := "managed-serviceaccount"

  function ErrorOf<T>(result: Result<T, Error>): Option<Error> {
    if result.Failure? then Some(result.error) else None
  }
}
