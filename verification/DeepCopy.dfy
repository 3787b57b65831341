/**
 Deep copies on the heap. Slices are arrays that may be nil, pointers are cells that may be nil,
 and structs held in slices are values that hold such references. A copy agrees with its
 original in every value and in what is nil, and everything reachable from it is new.
 */
module DeepCopy {
  import opened Conditions

  // Says of objects that can be reached at some moment that they exist from then on, so that no
  // later allocation is one of them.
  lemma Existing(s: set<object>) returns (t: set<object>)
    ensures t == s
  {
    t := s;
  }

  // --- Slices of plain values

  ghost function Slice<T>(a: array?<T>): set<object> {
    if a == null then {} else {a}
  }

  // A nil slice agrees with nil only; any other, empty or not, with an array of the same elements.
  ghost predicate SameSlice<T>(a: array?<T>, b: array?<T>)
    reads a, b
  {
    (a == null <==> b == null) && (a != null && b != null ==> a[..] == b[..])
  }

  method CopySlice<T(0)>(a: array?<T>) returns (b: array?<T>)
    ensures SameSlice(a, b) && fresh(Slice(b))
  {
    if a == null {
      return null;
    }
    b := new T[a.Length];
    for i := 0 to a.Length
      invariant fresh(b) && b.Length == a.Length && b[..i] == a[..i]
    {
      b[i] := a[i];
    }
    assert b[..] == b[..a.Length] && a[..] == a[..a.Length];
  }

  // --- Pointers to plain values

  class Cell<T> {
    var value: T

    constructor (value: T)
      ensures this.value == value
    {
      this.value := value;
    }
  }

  ghost function Pointer<T>(a: Cell?<T>): set<object> {
    if a == null then {} else {a}
  }

  ghost predicate SameCell<T>(a: Cell?<T>, b: Cell?<T>)
    reads a, b
  {
    (a == null <==> b == null) && (a != null && b != null ==> a.value == b.value)
  }

  method CopyCell<T>(a: Cell?<T>) returns (b: Cell?<T>)
    ensures SameCell(a, b) && fresh(Pointer(b))
  {
    if a == null {
      return null;
    }
    b := new Cell(a.value);
  }

  // --- Status entries: structs that hold a condition slice

  datatype Entry = Entry(name: string, namespace: string, conditions: array?<Condition>)

  // The slice of entries and their condition slices.
  ghost function Entries(a: array?<Entry>): set<object>
    reads a
  {
    if a == null then {}
    else {a} + set i | 0 <= i < a.Length && a[i].conditions != null :: a[i].conditions as object
  }

  ghost predicate SameEntry(e: Entry, f: Entry)
    reads e.conditions, f.conditions
  {
    e.name == f.name && e.namespace == f.namespace && SameSlice(e.conditions, f.conditions)
  }

  ghost predicate SameEntries(a: array?<Entry>, b: array?<Entry>)
    reads a, b, Entries(a), Entries(b)
  {
    && (a == null <==> b == null)
    && (a != null && b != null ==> a.Length == b.Length && forall i :: 0 <= i < a.Length ==> SameEntry(a[i], b[i]))
  }

  method CopyEntries(a: array?<Entry>) returns (b: array?<Entry>)
    ensures SameEntries(a, b) && fresh(Entries(b))
  {
    if a == null {
      return null;
    }
    b := new Entry[a.Length](_ => Entry("", "", null));
    for i := 0 to a.Length
      invariant fresh(b) && b.Length == a.Length
      invariant forall k :: 0 <= k < i ==> SameEntry(a[k], b[k]) && fresh(Slice(b[k].conditions))
    {
      var conditions := CopySlice(a[i].conditions);
      b[i] := Entry(a[i].name, a[i].namespace, conditions);
    }
  }

  // No struct is among the arrays entries lead to.
  lemma EntriesAreArrays(a: array?<Entry>, o: object)
    requires o is ResourceStatus || o is ClusterPermissionStatus
    ensures o !in Entries(a)
  {
  }

  method CopyTwo(a: array?<Entry>, b: array?<Entry>) returns (a': array?<Entry>, b': array?<Entry>)
    ensures SameEntries(a, a') && fresh(Entries(a'))
    ensures SameEntries(b, b') && fresh(Entries(b'))
  {
    hide Entries;
    a' := CopyEntries(a);
    b' := CopyEntries(b);
  }

  method CopyFour(a: array?<Entry>, b: array?<Entry>, c: array?<Entry>, d: array?<Entry>)
    returns (a': array?<Entry>, b': array?<Entry>, c': array?<Entry>, d': array?<Entry>)
    ensures SameEntries(a, a') && SameEntries(b, b') && SameEntries(c, c') && SameEntries(d, d')
    ensures fresh(Entries(a') + Entries(b') + Entries(c') + Entries(d'))
  {
    hide Entries;
    a', b' := CopyTwo(a, b);
    c', d' := CopyTwo(c, d);
  }

  // --- The resource status

  class ResourceStatus {
    var clusterRoles: array?<Entry>
    var clusterRoleBindings: array?<Entry>
    var roles: array?<Entry>
    var roleBindings: array?<Entry>

    constructor ()
      ensures clusterRoles == null && clusterRoleBindings == null && roles == null && roleBindings == null
    {
      clusterRoles, clusterRoleBindings, roles, roleBindings := null, null, null, null;
    }

    // Everything the struct leads to.
    ghost function Reach(): set<object>
      reads this, clusterRoles, clusterRoleBindings, roles, roleBindings
    {
      Entries(clusterRoles) + Entries(clusterRoleBindings) + Entries(roles) + Entries(roleBindings)
    }

    lemma ReachIsArrays(o: object)
      requires o is ClusterPermissionStatus
      ensures o !in Reach()
    {
      EntriesAreArrays(clusterRoles, o);
      EntriesAreArrays(clusterRoleBindings, o);
      EntriesAreArrays(roles, o);
      EntriesAreArrays(roleBindings, o);
    }

    ghost predicate SameAs(out: ResourceStatus)
      reads this, clusterRoles, clusterRoleBindings, roles, roleBindings, Reach()
      reads out, out.clusterRoles, out.clusterRoleBindings, out.roles, out.roleBindings, out.Reach()
    {
      && SameEntries(clusterRoles, out.clusterRoles)
      && SameEntries(clusterRoleBindings, out.clusterRoleBindings)
      && SameEntries(roles, out.roles)
      && SameEntries(roleBindings, out.roleBindings)
    }

    method Assign(a: array?<Entry>, b: array?<Entry>, c: array?<Entry>, d: array?<Entry>)
      modifies this
      ensures clusterRoles == a && clusterRoleBindings == b && roles == c && roleBindings == d
    {
      clusterRoles, clusterRoleBindings, roles, roleBindings := a, b, c, d;
    }

    // Copies the receiver into another struct, slice by slice.
    method DeepCopyInto(out: ResourceStatus)
      requires out != this
      modifies out
      ensures SameAs(out) && fresh(out.Reach())
    {
      hide Entries, SameEntries;
      forall e: array?<Entry> ensures out !in Entries(e) {
        EntriesAreArrays(e, out);
      }
      var a, b, c, d := CopyFour(clusterRoles, clusterRoleBindings, roles, roleBindings);
      var _ := Existing(Entries(clusterRoles) + Entries(clusterRoleBindings) + Entries(roles) + Entries(roleBindings));
      var _ := Existing(Entries(a) + Entries(b) + Entries(c) + Entries(d));
      out.Assign(a, b, c, d);
    }

    method DeepCopy() returns (out: ResourceStatus)
      ensures fresh(out) && SameAs(out) && fresh(out.Reach())
    {
      out := new ResourceStatus();
      DeepCopyInto(out);
    }
  }

  // --- The status, and editing a copy of it

  class ClusterPermissionStatus {
    var conditions: array?<Condition>
    var resourceStatus: ResourceStatus?

    constructor ()
      ensures conditions == null && resourceStatus == null
    {
      conditions, resourceStatus := null, null;
    }

    // The condition list the slice stands for.
    function List(): seq<Condition>
      reads this, conditions
    {
      if conditions == null then [] else conditions[..]
    }

    method DeepCopyInto(out: ClusterPermissionStatus)
      requires out != this
      modifies out
      ensures SameSlice(conditions, out.conditions) && fresh(Slice(out.conditions))
      ensures resourceStatus == null <==> out.resourceStatus == null
      ensures resourceStatus != null ==>
                && fresh(out.resourceStatus) && fresh(out.resourceStatus.Reach())
                && resourceStatus.SameAs(out.resourceStatus)
                && Slice(out.conditions) !! out.resourceStatus.Reach()
    {
      hide ResourceStatus.SameAs, ResourceStatus.Reach;
      out.conditions, out.resourceStatus := conditions, resourceStatus;
      if conditions != null {
        var c := CopySlice(conditions);
        out.conditions := c;
      }
      if resourceStatus != null {
        var _ := Existing(resourceStatus.Reach());
        var r := new ResourceStatus();
        out.resourceStatus := r;
        resourceStatus.DeepCopyInto(r);
      }
    }

    // Sets a condition in the slice itself: an existing one is overwritten where it stands, a
    // new one needs a longer array.
    method SetStatusCondition(update: Condition, now: int)
      modifies this`conditions, conditions
      ensures List() == Set(old(List()), update, now)
      ensures conditions != null && (conditions == old(conditions) || fresh(conditions))
    {
      ghost var before := List();
      if conditions != null {
        for i := 0 to conditions.Length
          invariant List() == before && conditions == old(conditions)
          invariant forall k :: 0 <= k < i ==> before[k].kind != update.kind
        {
          if conditions[i].kind == update.kind {
            SetFound(before, update, now, i);
            conditions[i] := Revise(conditions[i], update, now);
            return;
          }
        }
      }
      SetMissing(before, update, now);
      var n := if conditions == null then 0 else conditions.Length;
      var longer := new Condition[n + 1](_ => update.(transitionTime := now));
      for i := 0 to n
        invariant fresh(longer) && longer[..i] == before[..i] && longer[n] == update.(transitionTime := now)
        invariant List() == before && conditions == old(conditions)
      {
        longer[i] := conditions[i];
      }
      conditions := longer;
      assert longer[..] == longer[..n] + [longer[n]];
    }
  }

  lemma {:induction false} SetFound(conditions: seq<Condition>, update: Condition, now: int, i: nat)
    requires i < |conditions| && conditions[i].kind == update.kind
    requires forall k :: 0 <= k < i ==> conditions[k].kind != update.kind
    ensures Set(conditions, update, now) == conditions[i := Revise(conditions[i], update, now)]
  {
    if i > 0 {
      SetFound(conditions[1..], update, now, i - 1);
      assert conditions == [conditions[0]] + conditions[1..];
    }
  }

  lemma {:induction false} SetMissing(conditions: seq<Condition>, update: Condition, now: int)
    requires forall k :: 0 <= k < |conditions| ==> conditions[k].kind != update.kind
    ensures Set(conditions, update, now) == conditions + [update.(transitionTime := now)]
  {
    if conditions != [] {
      SetMissing(conditions[1..], update, now);
      assert conditions == [conditions[0]] + conditions[1..];
    }
  }

  // Both writers edit a deep copy of the status they fetched and then assign it back. The only
  // thing written in the whole course is the fetched struct itself, at the end: the condition
  // array and the resource status it used to share with a cache are as they were, and the new
  // resource status agrees with that one.
  method EditCopyThenAssign(fetched: ClusterPermissionStatus, update: Condition, now: int)
    modifies fetched
    ensures fetched.List() == Set(old(fetched.List()), update, now)
    ensures fetched.conditions != null && fresh(fetched.conditions)
    ensures fetched.resourceStatus == null <==> old(fetched.resourceStatus) == null
    ensures fetched.resourceStatus != null ==>
              && fresh(fetched.resourceStatus) && fresh(fetched.resourceStatus.Reach())
              && old(fetched.resourceStatus).SameAs(fetched.resourceStatus)
    ensures old(fetched.conditions) != null ==> old(fetched.conditions)[..] == old(fetched.conditions[..])
  {
    hide ResourceStatus.SameAs, ResourceStatus.Reach, Set;
    ghost var shared := fetched.resourceStatus;
    if shared != null {
      var _ := Existing(shared.Reach());
    }
    var newStatus := new ClusterPermissionStatus();
    fetched.DeepCopyInto(newStatus);
    if fetched.resourceStatus != null {
      fetched.resourceStatus.ReachIsArrays(fetched);
      fetched.resourceStatus.ReachIsArrays(newStatus);
      newStatus.resourceStatus.ReachIsArrays(fetched);
      newStatus.resourceStatus.ReachIsArrays(newStatus);
      var _ := Existing(newStatus.resourceStatus.Reach());
    }
    newStatus.SetStatusCondition(update, now);
    assert fetched.List() == old(fetched.List()) && fetched.conditions == old(fetched.conditions);
    assert shared != null ==> shared.SameAs(newStatus.resourceStatus);
    fetched.conditions, fetched.resourceStatus := newStatus.conditions, newStatus.resourceStatus;
  }
}
