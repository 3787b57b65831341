/** The deep copy of a spec: pointers to values, to structs with slices, and to slices of such structs. */
module SpecCopy {
  import opened Rbac
  import opened Api
  import opened DeepCopy

  // Policy rules, role references and selectors are copied by the libraries that own them, and are values here.
  datatype ClusterRoleStruct = ClusterRoleStruct(rules: array?<PolicyRule>)

  datatype ClusterRoleBindingStruct = ClusterRoleBindingStruct(
    subject: Cell?<Subject>, subjects: array?<Subject>, name: string, roleRef: Cell?<RoleRef>)

  datatype RoleStruct = RoleStruct(namespace: string, namespaceSelector: Cell?<Selector>, rules: array?<PolicyRule>)

  datatype RoleBindingStruct = RoleBindingStruct(
    subject: Cell?<Subject>, subjects: array?<Subject>, roleRef: RoleRef,
    namespace: string, namespaceSelector: Cell?<Selector>, name: string)

  // --- One struct: what it leads to, and when two agree

  ghost function OfClusterRoleBinding(a: ClusterRoleBindingStruct): set<object> {
    Pointer(a.subject) + Slice(a.subjects) + Pointer(a.roleRef)
  }

  ghost predicate SameClusterRoleBinding(a: ClusterRoleBindingStruct, b: ClusterRoleBindingStruct)
    reads OfClusterRoleBinding(a), OfClusterRoleBinding(b)
  {
    && SameCell(a.subject, b.subject) && SameSlice(a.subjects, b.subjects)
    && a.name == b.name && SameCell(a.roleRef, b.roleRef)
  }

  ghost function OfRole(a: RoleStruct): set<object> {
    Pointer(a.namespaceSelector) + Slice(a.rules)
  }

  ghost predicate SameRole(a: RoleStruct, b: RoleStruct)
    reads OfRole(a), OfRole(b)
  {
    a.namespace == b.namespace && SameCell(a.namespaceSelector, b.namespaceSelector) && SameSlice(a.rules, b.rules)
  }

  ghost function OfRoleBinding(a: RoleBindingStruct): set<object> {
    Pointer(a.subject) + Slice(a.subjects) + Pointer(a.namespaceSelector)
  }

  ghost predicate SameRoleBinding(a: RoleBindingStruct, b: RoleBindingStruct)
    reads OfRoleBinding(a), OfRoleBinding(b)
  {
    && SameCell(a.subject, b.subject) && SameSlice(a.subjects, b.subjects) && a.roleRef == b.roleRef
    && a.namespace == b.namespace && SameCell(a.namespaceSelector, b.namespaceSelector) && a.name == b.name
  }

  method CopyClusterRoleBinding(a: ClusterRoleBindingStruct) returns (b: ClusterRoleBindingStruct)
    ensures SameClusterRoleBinding(a, b) && fresh(OfClusterRoleBinding(b))
  {
    var subject := CopyCell(a.subject);
    var subjects := CopySlice(a.subjects);
    var roleRef := CopyCell(a.roleRef);
    b := ClusterRoleBindingStruct(subject, subjects, a.name, roleRef);
  }

  method CopyRole(a: RoleStruct) returns (b: RoleStruct)
    ensures SameRole(a, b) && fresh(OfRole(b))
  {
    var selector := CopyCell(a.namespaceSelector);
    var rules := CopySlice(a.rules);
    b := RoleStruct(a.namespace, selector, rules);
  }

  method CopyRoleBinding(a: RoleBindingStruct) returns (b: RoleBindingStruct)
    ensures SameRoleBinding(a, b) && fresh(OfRoleBinding(b))
  {
    var subject := CopyCell(a.subject);
    var subjects := CopySlice(a.subjects);
    var selector := CopyCell(a.namespaceSelector);
    b := RoleBindingStruct(subject, subjects, a.roleRef, a.namespace, selector, a.name);
  }

  // --- Slices of structs

  ghost function OfClusterRoleBindings(a: array?<ClusterRoleBindingStruct>): set<object>
    reads a
  {
    Slice(a) + if a == null then {} else set i, o | 0 <= i < a.Length && o in OfClusterRoleBinding(a[i]) :: o
  }

  ghost predicate SameClusterRoleBindings(a: array?<ClusterRoleBindingStruct>, b: array?<ClusterRoleBindingStruct>)
    reads a, b, OfClusterRoleBindings(a), OfClusterRoleBindings(b)
  {
    && (a == null <==> b == null)
    && (a != null && b != null ==>
          a.Length == b.Length && forall i :: 0 <= i < a.Length ==> SameClusterRoleBinding(a[i], b[i]))
  }

  method CopyClusterRoleBindings(a: array?<ClusterRoleBindingStruct>) returns (b: array?<ClusterRoleBindingStruct>)
    ensures SameClusterRoleBindings(a, b) && fresh(OfClusterRoleBindings(b))
  {
    if a == null {
      return null;
    }
    b := new ClusterRoleBindingStruct[a.Length](_ => ClusterRoleBindingStruct(null, null, "", null));
    for i := 0 to a.Length
      invariant fresh(b) && b.Length == a.Length
      invariant forall k :: 0 <= k < i ==> SameClusterRoleBinding(a[k], b[k]) && fresh(OfClusterRoleBinding(b[k]))
    {
      var c := CopyClusterRoleBinding(a[i]);
      b[i] := c;
    }
  }

  ghost function OfRoles(a: array?<RoleStruct>): set<object>
    reads a
  {
    Slice(a) + if a == null then {} else set i, o | 0 <= i < a.Length && o in OfRole(a[i]) :: o
  }

  ghost predicate SameRoles(a: array?<RoleStruct>, b: array?<RoleStruct>)
    reads a, b, OfRoles(a), OfRoles(b)
  {
    && (a == null <==> b == null)
    && (a != null && b != null ==> a.Length == b.Length && forall i :: 0 <= i < a.Length ==> SameRole(a[i], b[i]))
  }

  method CopyRoles(a: array?<RoleStruct>) returns (b: array?<RoleStruct>)
    ensures SameRoles(a, b) && fresh(OfRoles(b))
  {
    if a == null {
      return null;
    }
    b := new RoleStruct[a.Length](_ => RoleStruct("", null, null));
    for i := 0 to a.Length
      invariant fresh(b) && b.Length == a.Length
      invariant forall k :: 0 <= k < i ==> SameRole(a[k], b[k]) && fresh(OfRole(b[k]))
    {
      var c := CopyRole(a[i]);
      b[i] := c;
    }
  }

  ghost function OfRoleBindings(a: array?<RoleBindingStruct>): set<object>
    reads a
  {
    Slice(a) + if a == null then {} else set i, o | 0 <= i < a.Length && o in OfRoleBinding(a[i]) :: o
  }

  ghost predicate SameRoleBindings(a: array?<RoleBindingStruct>, b: array?<RoleBindingStruct>)
    reads a, b, OfRoleBindings(a), OfRoleBindings(b)
  {
    && (a == null <==> b == null)
    && (a != null && b != null ==>
          a.Length == b.Length && forall i :: 0 <= i < a.Length ==> SameRoleBinding(a[i], b[i]))
  }

  method CopyRoleBindings(a: array?<RoleBindingStruct>) returns (b: array?<RoleBindingStruct>)
    ensures SameRoleBindings(a, b) && fresh(OfRoleBindings(b))
  {
    if a == null {
      return null;
    }
    b := new RoleBindingStruct[a.Length](_ => RoleBindingStruct(null, null, RoleRef("", "", ""), "", null, ""));
    for i := 0 to a.Length
      invariant fresh(b) && b.Length == a.Length
      invariant forall k :: 0 <= k < i ==> SameRoleBinding(a[k], b[k]) && fresh(OfRoleBinding(b[k]))
    {
      var c := CopyRoleBinding(a[i]);
      b[i] := c;
    }
  }

  // --- Pointers to structs and to slices of them: a nil pointer and a pointer to a nil slice are told apart

  // A list of the spec: a pointer to a slice.
  type Bindings = Cell?<array?<ClusterRoleBindingStruct>>
  type Roles = Cell?<array?<RoleStruct>>
  type RoleBindings = Cell?<array?<RoleBindingStruct>>

  ghost function OfClusterRolePointer(a: Cell?<ClusterRoleStruct>): set<object>
    reads a
  {
    Pointer(a) + if a == null then {} else Slice(a.value.rules)
  }

  ghost predicate SameClusterRolePointer(a: Cell?<ClusterRoleStruct>, b: Cell?<ClusterRoleStruct>)
    reads a, b, OfClusterRolePointer(a), OfClusterRolePointer(b)
  {
    (a == null <==> b == null) && (a != null && b != null ==> SameSlice(a.value.rules, b.value.rules))
  }

  method CopyClusterRolePointer(a: Cell?<ClusterRoleStruct>) returns (b: Cell?<ClusterRoleStruct>)
    ensures SameClusterRolePointer(a, b) && fresh(OfClusterRolePointer(b))
  {
    if a == null {
      return null;
    }
    var rules := CopySlice(a.value.rules);
    b := new Cell(ClusterRoleStruct(rules));
  }

  ghost function OfClusterRoleBindingPointer(a: Cell?<ClusterRoleBindingStruct>): set<object>
    reads a
  {
    Pointer(a) + if a == null then {} else OfClusterRoleBinding(a.value)
  }

  ghost predicate SameClusterRoleBindingPointer(a: Cell?<ClusterRoleBindingStruct>, b: Cell?<ClusterRoleBindingStruct>)
    reads a, b, OfClusterRoleBindingPointer(a), OfClusterRoleBindingPointer(b)
  {
    (a == null <==> b == null) && (a != null && b != null ==> SameClusterRoleBinding(a.value, b.value))
  }

  method CopyClusterRoleBindingPointer(a: Cell?<ClusterRoleBindingStruct>) returns (b: Cell?<ClusterRoleBindingStruct>)
    ensures SameClusterRoleBindingPointer(a, b) && fresh(OfClusterRoleBindingPointer(b))
  {
    if a == null {
      return null;
    }
    var c := CopyClusterRoleBinding(a.value);
    b := new Cell(c);
  }

  ghost function OfClusterRoleBindingList(a: Bindings): set<object>
    reads a, if a == null then null else a.value
  {
    Pointer(a) + if a == null then {} else OfClusterRoleBindings(a.value)
  }

  ghost predicate SameClusterRoleBindingList(a: Bindings, b: Bindings)
    reads a, if a == null then null else a.value, OfClusterRoleBindingList(a)
    reads b, if b == null then null else b.value, OfClusterRoleBindingList(b)
  {
    (a == null <==> b == null) && (a != null && b != null ==> SameClusterRoleBindings(a.value, b.value))
  }

  method CopyClusterRoleBindingList(a: Bindings) returns (b: Bindings)
    ensures SameClusterRoleBindingList(a, b) && fresh(OfClusterRoleBindingList(b))
  {
    if a == null {
      return null;
    }
    var list := CopyClusterRoleBindings(a.value);
    b := new Cell(list);
  }

  ghost function OfRoleList(a: Roles): set<object>
    reads a, if a == null then null else a.value
  {
    Pointer(a) + if a == null then {} else OfRoles(a.value)
  }

  ghost predicate SameRoleList(a: Roles, b: Roles)
    reads a, if a == null then null else a.value, OfRoleList(a)
    reads b, if b == null then null else b.value, OfRoleList(b)
  {
    (a == null <==> b == null) && (a != null && b != null ==> SameRoles(a.value, b.value))
  }

  method CopyRoleList(a: Roles) returns (b: Roles)
    ensures SameRoleList(a, b) && fresh(OfRoleList(b))
  {
    if a == null {
      return null;
    }
    var list := CopyRoles(a.value);
    b := new Cell(list);
  }

  ghost function OfRoleBindingList(a: RoleBindings): set<object>
    reads a, if a == null then null else a.value
  {
    Pointer(a) + if a == null then {} else OfRoleBindings(a.value)
  }

  ghost predicate SameRoleBindingList(a: RoleBindings, b: RoleBindings)
    reads a, if a == null then null else a.value, OfRoleBindingList(a)
    reads b, if b == null then null else b.value, OfRoleBindingList(b)
  {
    (a == null <==> b == null) && (a != null && b != null ==> SameRoleBindings(a.value, b.value))
  }

  method CopyRoleBindingList(a: RoleBindings) returns (b: RoleBindings)
    ensures SameRoleBindingList(a, b) && fresh(OfRoleBindingList(b))
  {
    if a == null {
      return null;
    }
    var list := CopyRoleBindings(a.value);
    b := new Cell(list);
  }

  // --- The spec: its three pointers to single values and structs, and its three lists

  ghost function OfPointers(
    v: Cell?<bool>, r: Cell?<ClusterRoleStruct>, b: Cell?<ClusterRoleBindingStruct>): set<object>
    reads r, b
  {
    Pointer(v) + OfClusterRolePointer(r) + OfClusterRoleBindingPointer(b)
  }

  ghost predicate SamePointers(v: Cell?<bool>, r: Cell?<ClusterRoleStruct>, b: Cell?<ClusterRoleBindingStruct>,
                               v': Cell?<bool>, r': Cell?<ClusterRoleStruct>, b': Cell?<ClusterRoleBindingStruct>)
    reads r, b, OfPointers(v, r, b), r', b', OfPointers(v', r', b')
  {
    SameCell(v, v') && SameClusterRolePointer(r, r') && SameClusterRoleBindingPointer(b, b')
  }

  method CopyPointers(v: Cell?<bool>, r: Cell?<ClusterRoleStruct>, b: Cell?<ClusterRoleBindingStruct>)
    returns (v': Cell?<bool>, r': Cell?<ClusterRoleStruct>, b': Cell?<ClusterRoleBindingStruct>)
    ensures SamePointers(v, r, b, v', r', b') && fresh(OfPointers(v', r', b'))
  {
    hide SameClusterRolePointer, SameClusterRoleBindingPointer, OfClusterRolePointer, OfClusterRoleBindingPointer;
    var _ := Existing(OfClusterRolePointer(r));
    var _ := Existing(OfClusterRoleBindingPointer(b));
    v' := CopyCell(v);
    r' := CopyClusterRolePointer(r);
    var _ := Existing(OfClusterRolePointer(r'));
    b' := CopyClusterRoleBindingPointer(b);
  }

  ghost function OfLists(bs: Bindings, rs: Roles, rbs: RoleBindings): set<object>
    reads bs, if bs == null then null else bs.value
    reads rs, if rs == null then null else rs.value
    reads rbs, if rbs == null then null else rbs.value
  {
    OfClusterRoleBindingList(bs) + OfRoleList(rs) + OfRoleBindingList(rbs)
  }

  ghost predicate SameLists(bs: Bindings, rs: Roles, rbs: RoleBindings, bs': Bindings, rs': Roles, rbs': RoleBindings)
    reads bs, if bs == null then null else bs.value, rs, if rs == null then null else rs.value
    reads rbs, if rbs == null then null else rbs.value, OfLists(bs, rs, rbs)
    reads bs', if bs' == null then null else bs'.value, rs', if rs' == null then null else rs'.value
    reads rbs', if rbs' == null then null else rbs'.value, OfLists(bs', rs', rbs')
  {
    SameClusterRoleBindingList(bs, bs') && SameRoleList(rs, rs') && SameRoleBindingList(rbs, rbs')
  }

  method CopyLists(bs: Bindings, rs: Roles, rbs: RoleBindings) returns (bs': Bindings, rs': Roles, rbs': RoleBindings)
    ensures SameLists(bs, rs, rbs, bs', rs', rbs') && fresh(OfLists(bs', rs', rbs'))
  {
    hide SameClusterRoleBindingList, SameRoleList, SameRoleBindingList;
    hide OfClusterRoleBindingList, OfRoleList, OfRoleBindingList;
    var _ := Existing(OfClusterRoleBindingList(bs));
    var _ := Existing(OfRoleList(rs));
    var _ := Existing(OfRoleBindingList(rbs));
    bs' := CopyClusterRoleBindingList(bs);
    var _ := Existing(OfClusterRoleBindingList(bs'));
    rs' := CopyRoleList(rs);
    var _ := Existing(OfRoleList(rs'));
    rbs' := CopyRoleBindingList(rbs);
  }

  // Both copies, one after the other.
  method CopyAll(v: Cell?<bool>, r: Cell?<ClusterRoleStruct>, b: Cell?<ClusterRoleBindingStruct>,
                 bs: Bindings, rs: Roles, rbs: RoleBindings)
    returns (v': Cell?<bool>, r': Cell?<ClusterRoleStruct>, b': Cell?<ClusterRoleBindingStruct>,
             bs': Bindings, rs': Roles, rbs': RoleBindings)
    ensures SamePointers(v, r, b, v', r', b') && fresh(OfPointers(v', r', b'))
    ensures SameLists(bs, rs, rbs, bs', rs', rbs') && fresh(OfLists(bs', rs', rbs'))
  {
    hide SamePointers, OfPointers, SameLists, OfLists;
    var _ := Existing(OfPointers(v, r, b));
    var _ := Existing(OfLists(bs, rs, rbs));
    v', r', b' := CopyPointers(v, r, b);
    var _ := Existing(OfPointers(v', r', b'));
    bs', rs', rbs' := CopyLists(bs, rs, rbs);
  }

  class ClusterPermissionSpec {
    var validate: Cell?<bool>
    var clusterRole: Cell?<ClusterRoleStruct>
    var clusterRoleBinding: Cell?<ClusterRoleBindingStruct>
    var clusterRoleBindings: Bindings
    var roles: Roles
    var roleBindings: RoleBindings

    constructor ()
      ensures validate == null && clusterRole == null && clusterRoleBinding == null
      ensures clusterRoleBindings == null && roles == null && roleBindings == null
    {
      validate, clusterRole, clusterRoleBinding := null, null, null;
      clusterRoleBindings, roles, roleBindings := null, null, null;
    }

    method Assign(v: Cell?<bool>, r: Cell?<ClusterRoleStruct>, b: Cell?<ClusterRoleBindingStruct>,
                  bs: Bindings, rs: Roles, rbs: RoleBindings)
      modifies this
      ensures validate == v && clusterRole == r && clusterRoleBinding == b
      ensures clusterRoleBindings == bs && roles == rs && roleBindings == rbs
    {
      validate, clusterRole, clusterRoleBinding := v, r, b;
      clusterRoleBindings, roles, roleBindings := bs, rs, rbs;
    }

    // Copies the receiver into another struct, pointer by pointer.
    method DeepCopyInto(out: ClusterPermissionSpec)
      requires out != this
      modifies out
      ensures SamePointers(validate, clusterRole, clusterRoleBinding,
                           out.validate, out.clusterRole, out.clusterRoleBinding)
      ensures fresh(OfPointers(out.validate, out.clusterRole, out.clusterRoleBinding))
      ensures SameLists(clusterRoleBindings, roles, roleBindings, out.clusterRoleBindings, out.roles, out.roleBindings)
      ensures fresh(OfLists(out.clusterRoleBindings, out.roles, out.roleBindings))
    {
      hide SamePointers, OfPointers, SameLists, OfLists;
      var _ := Existing(OfPointers(validate, clusterRole, clusterRoleBinding));
      var _ := Existing(OfLists(clusterRoleBindings, roles, roleBindings));
      var v, r, b, bs, rs, rbs :=
        CopyAll(validate, clusterRole, clusterRoleBinding, clusterRoleBindings, roles, roleBindings);
      NoSpec(out, validate, clusterRole, clusterRoleBinding, clusterRoleBindings, roles, roleBindings);
      NoSpec(out, v, r, b, bs, rs, rbs);
      var _ := Existing(OfPointers(v, r, b));
      var _ := Existing(OfLists(bs, rs, rbs));
      out.Assign(v, r, b, bs, rs, rbs);
    }

    method DeepCopy() returns (out: ClusterPermissionSpec)
      ensures fresh(out)
      ensures SamePointers(validate, clusterRole, clusterRoleBinding,
                           out.validate, out.clusterRole, out.clusterRoleBinding)
      ensures fresh(OfPointers(out.validate, out.clusterRole, out.clusterRoleBinding))
      ensures SameLists(clusterRoleBindings, roles, roleBindings, out.clusterRoleBindings, out.roles, out.roleBindings)
      ensures fresh(OfLists(out.clusterRoleBindings, out.roles, out.roleBindings))
    {
      hide SamePointers, OfPointers, SameLists, OfLists;
      out := new ClusterPermissionSpec();
      DeepCopyInto(out);
    }
  }

  // No pointer of a spec leads to a spec.
  lemma NoSpec(spec: ClusterPermissionSpec, v: Cell?<bool>, r: Cell?<ClusterRoleStruct>,
               b: Cell?<ClusterRoleBindingStruct>, bs: Bindings, rs: Roles, rbs: RoleBindings)
    ensures spec !in OfPointers(v, r, b) && spec !in OfLists(bs, rs, rbs)
  {
    NoSpecByPointer(spec, r, b);
    NoSpecByClusterRoleBindings(spec, bs);
    NoSpecByRoles(spec, rs);
    NoSpecByRoleBindings(spec, rbs);
    hide OfClusterRolePointer, OfClusterRoleBindingPointer, OfClusterRoleBindingList, OfRoleList, OfRoleBindingList;
  }

  lemma NoSpecByPointer(spec: ClusterPermissionSpec, r: Cell?<ClusterRoleStruct>, b: Cell?<ClusterRoleBindingStruct>)
    ensures spec !in OfClusterRolePointer(r) && spec !in OfClusterRoleBindingPointer(b)
  {
  }

  lemma NoSpecByClusterRoleBindings(spec: ClusterPermissionSpec, a: Bindings)
    ensures spec !in OfClusterRoleBindingList(a)
  {
  }

  lemma NoSpecByRoles(spec: ClusterPermissionSpec, a: Roles)
    ensures spec !in OfRoleList(a)
  {
  }

  lemma NoSpecByRoleBindings(spec: ClusterPermissionSpec, a: RoleBindings)
    ensures spec !in OfRoleBindingList(a)
  {
  }
}
