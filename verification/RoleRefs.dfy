/** Which existing roles a ClusterPermission refers to, deduplicated by a string key. */
module RoleRefs {
  import opened Prelude
  import opened Rbac
  import opened Api

  // The namespace is empty for cluster roles.
  datatype ValidationRoleRef = ValidationRoleRef(name: string, namespace: string, kind: string)

  const ROLE := "Role"
  const CLUSTER_ROLE := "ClusterRole"

  // The reference one binding contributes, if any.
  function ClusterBindingRefs(b: ClusterRoleBindingSpec): seq<ValidationRoleRef> {
    if b.roleRef.Some? && b.roleRef.value.kind == CLUSTER_ROLE
    then [ValidationRoleRef(b.roleRef.value.name, "", CLUSTER_ROLE)] else []
  }

  function RoleBindingRefs(b: RoleBindingSpec): seq<ValidationRoleRef> {
    if b.roleRef.kind == ROLE then
      if b.namespace != "" then [ValidationRoleRef(b.roleRef.name, b.namespace, ROLE)] else []
    else if b.roleRef.kind == CLUSTER_ROLE then [ValidationRoleRef(b.roleRef.name, "", CLUSTER_ROLE)]
    else []
  }

  function ClusterBindingsRefs(bindings: seq<ClusterRoleBindingSpec>): seq<ValidationRoleRef> {
    Concat(seq(|bindings|, i requires 0 <= i < |bindings| => ClusterBindingRefs(bindings[i])))
  }

  function RoleBindingsRefs(bindings: seq<RoleBindingSpec>): seq<ValidationRoleRef> {
    Concat(seq(|bindings|, i requires 0 <= i < |bindings| => RoleBindingRefs(bindings[i])))
  }

  // The singular cluster binding, whether or not a plural list overrides it.
  function SingularBinding(spec: Spec): seq<ClusterRoleBindingSpec> {
    if spec.clusterRoleBinding.Some? then [spec.clusterRoleBinding.value] else []
  }

  // Every reference in the spec, in spec order and with repetitions.
  function References(spec: Spec): seq<ValidationRoleRef> {
    ClusterBindingsRefs(SingularBinding(spec)) + ClusterBindingsRefs(Elements(spec.clusterRoleBindings))
      + RoleBindingsRefs(Elements(spec.roleBindings))
  }

  // Each element that no earlier element shares its key with.
  function FirstOccurrences<T, K(==)>(s: seq<T>, key: T -> K): seq<T> {
    if s == [] then []
    else
      var n := |s| - 1;
      FirstOccurrences(s[..n], key) + if exists j :: 0 <= j < n && key(s[j]) == key(s[n]) then [] else [s[n]]
  }

  function Identity<T>(x: T): T {
    x
  }

  function Key(ref: ValidationRoleRef): string {
    if ref.kind == ROLE then "Role:" + ref.namespace + ":" + ref.name else "ClusterRole:" + ref.name
  }

  // The extracted list, as a function of the spec.
  function Extracted(spec: Spec): seq<ValidationRoleRef> {
    FirstOccurrences(References(spec), Key)
  }

  ghost predicate SeenAre(seen: map<string, bool>, visited: seq<ValidationRoleRef>) {
    && (forall r :: r in visited ==> Key(r) in seen && seen[Key(r)])
    && (forall k :: k in seen ==> exists r :: r in visited && Key(r) == k)
  }

  lemma SeenStep(seen: map<string, bool>, visited: seq<ValidationRoleRef>, ref: ValidationRoleRef)
    requires SeenAre(seen, visited)
    ensures SeenAre(seen[Key(ref) := true], visited + [ref])
  {
    var seen' := seen[Key(ref) := true];
    forall k | k in seen' ensures exists r :: r in visited + [ref] && Key(r) == k {
      if k in seen {
        var r :| r in visited && Key(r) == k;
        assert r in visited + [ref];
      } else {
        assert ref in visited + [ref];
      }
    }
  }

  lemma OccurrenceStep<T, K>(visited: seq<T>, key: T -> K, x: T)
    ensures FirstOccurrences(visited + [x], key) ==
            if exists y :: y in visited && key(y) == key(x) then FirstOccurrences(visited, key)
            else FirstOccurrences(visited, key) + [x]
  {
    var all := visited + [x];
    assert all[..|all| - 1] == visited;
    assert forall j :: 0 <= j < |visited| ==> all[j] == visited[j] && visited[j] in visited;
  }

  // One visit of the loop body shared by the three loops: append unless the key was seen.
  method Visit(refs: seq<ValidationRoleRef>, seen: map<string, bool>, ref: ValidationRoleRef,
               ghost visited: seq<ValidationRoleRef>)
    returns (refs': seq<ValidationRoleRef>, seen': map<string, bool>)
    requires SeenAre(seen, visited) && refs == FirstOccurrences(visited, Key)
    ensures SeenAre(seen', visited + [ref]) && refs' == FirstOccurrences(visited + [ref], Key)
  {
    hide Key;
    OccurrenceStep(visited, Key, ref);
    SeenStep(seen, visited, ref);
    var key := Key(ref);
    if key !in seen || !seen[key] {
      refs' := refs + [ref];
      seen' := seen[key := true];
    } else {
      refs', seen' := refs, seen;
      assert seen == seen[key := true];
    }
  }

  method VisitClusterBinding(b: ClusterRoleBindingSpec, refs: seq<ValidationRoleRef>, seen: map<string, bool>,
                             ghost visited: seq<ValidationRoleRef>)
    returns (refs': seq<ValidationRoleRef>, seen': map<string, bool>)
    requires SeenAre(seen, visited) && refs == FirstOccurrences(visited, Key)
    ensures SeenAre(seen', visited + ClusterBindingRefs(b))
    ensures refs' == FirstOccurrences(visited + ClusterBindingRefs(b), Key)
  {
    hide Key, SeenAre, FirstOccurrences;
    refs', seen' := refs, seen;
    assert visited + [] == visited;
    if b.roleRef.Some? && b.roleRef.value.kind == CLUSTER_ROLE {
      refs', seen' := Visit(refs, seen, ValidationRoleRef(b.roleRef.value.name, "", CLUSTER_ROLE), visited);
    }
  }

  method VisitRoleBinding(b: RoleBindingSpec, refs: seq<ValidationRoleRef>, seen: map<string, bool>,
                          ghost visited: seq<ValidationRoleRef>)
    returns (refs': seq<ValidationRoleRef>, seen': map<string, bool>)
    requires SeenAre(seen, visited) && refs == FirstOccurrences(visited, Key)
    ensures SeenAre(seen', visited + RoleBindingRefs(b))
    ensures refs' == FirstOccurrences(visited + RoleBindingRefs(b), Key)
  {
    hide Key, SeenAre, FirstOccurrences;
    refs', seen' := refs, seen;
    assert visited + [] == visited;
    if b.roleRef.kind == ROLE {
      if b.namespace != "" {
        refs', seen' := Visit(refs, seen, ValidationRoleRef(b.roleRef.name, b.namespace, ROLE), visited);
      }
    } else if b.roleRef.kind == CLUSTER_ROLE {
      refs', seen' := Visit(refs, seen, ValidationRoleRef(b.roleRef.name, "", CLUSTER_ROLE), visited);
    }
  }

  method ExtractClusterBindings(bindings: seq<ClusterRoleBindingSpec>, refs: seq<ValidationRoleRef>,
                                seen: map<string, bool>, ghost before: seq<ValidationRoleRef>)
    returns (refs': seq<ValidationRoleRef>, seen': map<string, bool>)
    requires SeenAre(seen, before) && refs == FirstOccurrences(before, Key)
    ensures SeenAre(seen', before + ClusterBindingsRefs(bindings))
    ensures refs' == FirstOccurrences(before + ClusterBindingsRefs(bindings), Key)
  {
    hide Key, SeenAre, FirstOccurrences, ClusterBindingRefs;
    refs', seen' := refs, seen;
    ghost var blocks := seq(|bindings|, i requires 0 <= i < |bindings| => ClusterBindingRefs(bindings[i]));
    assert before + Concat(blocks[..0]) == before;
    for i := 0 to |bindings|
      invariant SeenAre(seen', before + Concat(blocks[..i]))
      invariant refs' == FirstOccurrences(before + Concat(blocks[..i]), Key)
    {
      ConcatStep(blocks, i);
      assert before + Concat(blocks[..i + 1]) == before + Concat(blocks[..i]) + blocks[i];
      refs', seen' := VisitClusterBinding(bindings[i], refs', seen', before + Concat(blocks[..i]));
    }
    assert blocks[..|bindings|] == blocks;
  }

  method ExtractRoleBindings(bindings: seq<RoleBindingSpec>, refs: seq<ValidationRoleRef>,
                             seen: map<string, bool>, ghost before: seq<ValidationRoleRef>)
    returns (refs': seq<ValidationRoleRef>, seen': map<string, bool>)
    requires SeenAre(seen, before) && refs == FirstOccurrences(before, Key)
    ensures SeenAre(seen', before + RoleBindingsRefs(bindings))
    ensures refs' == FirstOccurrences(before + RoleBindingsRefs(bindings), Key)
  {
    hide Key, SeenAre, FirstOccurrences, RoleBindingRefs;
    refs', seen' := refs, seen;
    ghost var blocks := seq(|bindings|, i requires 0 <= i < |bindings| => RoleBindingRefs(bindings[i]));
    assert before + Concat(blocks[..0]) == before;
    for i := 0 to |bindings|
      invariant SeenAre(seen', before + Concat(blocks[..i]))
      invariant refs' == FirstOccurrences(before + Concat(blocks[..i]), Key)
    {
      ConcatStep(blocks, i);
      assert before + Concat(blocks[..i + 1]) == before + Concat(blocks[..i]) + blocks[i];
      refs', seen' := VisitRoleBinding(bindings[i], refs', seen', before + Concat(blocks[..i]));
    }
    assert blocks[..|bindings|] == blocks;
  }

  // The whole extraction: singular cluster binding, plural cluster bindings, role bindings,
  // all deduplicating through one map of seen keys.
  method ExtractRoleReferencesForValidation(spec: Spec) returns (refs: seq<ValidationRoleRef>)
    ensures refs == FirstOccurrences(References(spec), Key)
  {
    var seen: map<string, bool> := map[];
    refs := [];
    var singular := if spec.clusterRoleBinding.Some? then [spec.clusterRoleBinding.value] else [];
    refs, seen := ExtractClusterBindings(singular, refs, seen, []);
    ghost var visited := [] + ClusterBindingsRefs(SingularBinding(spec));
    assert visited == ClusterBindingsRefs(SingularBinding(spec));
    if spec.clusterRoleBindings.Some? {
      refs, seen := ExtractClusterBindings(spec.clusterRoleBindings.value, refs, seen, visited);
    }
    assert spec.clusterRoleBindings.None? ==> visited + ClusterBindingsRefs([]) == visited;
    visited := visited + ClusterBindingsRefs(Elements(spec.clusterRoleBindings));
    if spec.roleBindings.Some? {
      refs, seen := ExtractRoleBindings(spec.roleBindings.value, refs, seen, visited);
    }
    assert spec.roleBindings.None? ==> visited + RoleBindingsRefs([]) == visited;
  }

  // --- What deduplication by a key means

  lemma {:induction false} OccurrencesSound<T, K>(s: seq<T>, key: T -> K)
    ensures forall x :: x in FirstOccurrences(s, key) ==> x in s
    ensures forall i, j :: 0 <= i < j < |FirstOccurrences(s, key)| ==>
              key(FirstOccurrences(s, key)[i]) != key(FirstOccurrences(s, key)[j])
  {
    if s != [] {
      var n := |s| - 1;
      OccurrencesSound(s[..n], key);
      var rest := FirstOccurrences(s[..n], key);
      forall i | 0 <= i < |rest| ensures exists j :: 0 <= j < n && s[j] == rest[i] {
        assert rest[i] in s[..n];
      }
    }
  }

  lemma {:induction false} OccurrencesComplete<T, K>(s: seq<T>, key: T -> K, x: T) returns (y: T)
    requires x in s
    ensures y in FirstOccurrences(s, key) && key(y) == key(x)
  {
    var n := |s| - 1;
    if exists j :: 0 <= j < n && key(s[j]) == key(x) {
      var j :| 0 <= j < n && key(s[j]) == key(x);
      assert s[j] in s[..n];
      y := OccurrencesComplete(s[..n], key, s[j]);
    } else {
      assert s[n] == x;
      y := x;
    }
  }

  predicate FaithfulOn<T(==), K(==)>(s: seq<T>, key: T -> K) {
    forall i, j :: 0 <= i < |s| && 0 <= j < |s| && key(s[i]) == key(s[j]) ==> s[i] == s[j]
  }

  lemma {:induction false} FaithfulKeysSame<T, K>(s: seq<T>, key: T -> K)
    requires FaithfulOn(s, key)
    ensures FirstOccurrences(s, key) == FirstOccurrences(s, Identity)
  {
    if s != [] {
      var n := |s| - 1;
      FaithfulKeysSame(s[..n], key);
      if exists j :: 0 <= j < n && key(s[j]) == key(s[n]) {
        var j :| 0 <= j < n && key(s[j]) == key(s[n]);
        assert Identity(s[j]) == Identity(s[n]);
      }
    }
  }

  // The string-keyed list never repeats a reference, whatever the names are.
  lemma ExtractedNeverRepeats(spec: Spec)
    ensures Distinct(Extracted(spec))
    ensures forall r :: r in Extracted(spec) ==> r in References(spec)
  {
    OccurrencesSound(References(spec), Key);
  }

  // Two role references that differ but are given the same key.
  predicate Collide(a: ValidationRoleRef, b: ValidationRoleRef) {
    && a != b && a.kind == ROLE && b.kind == ROLE
    && a.namespace + ":" + a.name == b.namespace + ":" + b.name
  }

  predicate AnyCollision(refs: seq<ValidationRoleRef>) {
    exists i, j :: 0 <= i < |refs| && 0 <= j < |refs| && Collide(refs[i], refs[j])
  }

  predicate WellFormedRef(r: ValidationRoleRef) {
    r.kind == ROLE || (r.kind == CLUSTER_ROLE && r.namespace == "")
  }

  lemma {:induction false} ConcatAll<T>(blocks: seq<seq<T>>, p: T -> bool)
    requires forall i, j :: 0 <= i < |blocks| && 0 <= j < |blocks[i]| ==> p(blocks[i][j])
    ensures forall x :: x in Concat(blocks) ==> p(x)
  {
    if blocks != [] {
      ConcatAll(blocks[1..], p);
    }
  }

  lemma ReferencesWellFormed(spec: Spec)
    ensures forall r :: r in References(spec) ==> WellFormedRef(r)
  {
    var single, plural, roles := SingularBinding(spec), Elements(spec.clusterRoleBindings), Elements(spec.roleBindings);
    ConcatAll(seq(|single|, i requires 0 <= i < |single| => ClusterBindingRefs(single[i])), WellFormedRef);
    ConcatAll(seq(|plural|, i requires 0 <= i < |plural| => ClusterBindingRefs(plural[i])), WellFormedRef);
    ConcatAll(seq(|roles|, i requires 0 <= i < |roles| => RoleBindingRefs(roles[i])), WellFormedRef);
  }

  // Keys of well-formed references agree only for equal or colliding references.
  lemma SameKey(a: ValidationRoleRef, b: ValidationRoleRef)
    requires WellFormedRef(a) && WellFormedRef(b)
    ensures Key(a) == Key(b) <==> a == b || Collide(a, b)
  {
    if a.kind != b.kind {
      assert Key(a)[0] != Key(b)[0];
    } else if a.kind == ROLE {
      assert Key(a) == "Role:" + (a.namespace + ":" + a.name);
      assert Key(b) == "Role:" + (b.namespace + ":" + b.name);
      assert Key(a)[5..] == a.namespace + ":" + a.name && Key(b)[5..] == b.namespace + ":" + b.name;
    } else {
      assert Key(a)[12..] == a.name && Key(b)[12..] == b.name;
    }
  }

  // Of two references that collide, at most one is extracted.
  lemma CollisionLosesOne(spec: Spec, a: ValidationRoleRef, b: ValidationRoleRef)
    requires a in References(spec) && b in References(spec) && Collide(a, b)
    ensures a !in Extracted(spec) || b !in Extracted(spec)
  {
    SameKey(a, b);
    OccurrencesSound(References(spec), Key);
  }

  // The extracted list is the first-occurrence deduplication of the references as
  // (kind, namespace, name) triples if and only if no two references of the spec collide.
  lemma DedupExact(spec: Spec)
    ensures Extracted(spec) == FirstOccurrences(References(spec), Identity)
            <==> !AnyCollision(References(spec))
  {
    var refs := References(spec);
    if AnyCollision(refs) {
      var i, j :| 0 <= i < |refs| && 0 <= j < |refs| && Collide(refs[i], refs[j]);
      CollisionLosesOne(spec, refs[i], refs[j]);
      var a := OccurrencesComplete(refs, Identity, refs[i]);
      var b := OccurrencesComplete(refs, Identity, refs[j]);
    } else {
      ReferencesWellFormed(spec);
      forall i, j | 0 <= i < |refs| && 0 <= j < |refs| && Key(refs[i]) == Key(refs[j]) ensures refs[i] == refs[j] {
        SameKey(refs[i], refs[j]);
      }
      FaithfulKeysSame(refs, Key);
    }
  }

  // Namespaces are DNS labels (section 2.1 of RFC 1123), so they hold no colon; role names may.
  predicate LabelNamespaces(spec: Spec) {
    forall i :: 0 <= i < |Elements(spec.roleBindings)| ==> ':' !in Elements(spec.roleBindings)[i].namespace
  }

  lemma ColonSplit(a: ValidationRoleRef, b: ValidationRoleRef)
    requires ':' !in a.namespace && ':' !in b.namespace
    ensures !Collide(a, b)
  {
    if a.namespace + ":" + a.name == b.namespace + ":" + b.name {
      SeparatorSplit(':', a.namespace, a.name, b.namespace, b.name);
    }
  }

  lemma LabelsNeverCollide(spec: Spec)
    requires LabelNamespaces(spec)
    ensures !AnyCollision(References(spec))
  {
    var plain := (r: ValidationRoleRef) => ':' !in r.namespace;
    var single, plural, roles := SingularBinding(spec), Elements(spec.clusterRoleBindings), Elements(spec.roleBindings);
    ConcatAll(seq(|single|, i requires 0 <= i < |single| => ClusterBindingRefs(single[i])), plain);
    ConcatAll(seq(|plural|, i requires 0 <= i < |plural| => ClusterBindingRefs(plural[i])), plain);
    ConcatAll(seq(|roles|, i requires 0 <= i < |roles| => RoleBindingRefs(roles[i])), plain);
    var refs := References(spec);
    forall i, j | 0 <= i < |refs| && 0 <= j < |refs| ensures !Collide(refs[i], refs[j]) {
      assert plain(refs[i]) && plain(refs[j]);
      ColonSplit(refs[i], refs[j]);
    }
  }

  // A reference that no other one of the spec collides with is extracted, exactly once.
  lemma UncollidedExtracted(spec: Spec, ref: ValidationRoleRef)
    requires ref in References(spec) && forall r :: r in References(spec) ==> !Collide(r, ref)
    ensures ref in Extracted(spec) && multiset(Extracted(spec))[ref] == 1
  {
    hide Key, FirstOccurrences, References, WellFormedRef, Collide;
    var kept := OccurrencesComplete(References(spec), Key, ref);
    ExtractedNeverRepeats(spec);
    ReferencesWellFormed(spec);
    SameKey(kept, ref);
    DistinctCount(Extracted(spec), ref);
  }

  // With label namespaces that is every reference; a cluster role collides with nothing in any case.
  lemma ExtractedOnce(spec: Spec, ref: ValidationRoleRef)
    requires ref in References(spec) && (ref.kind == CLUSTER_ROLE || LabelNamespaces(spec))
    ensures ref in Extracted(spec) && multiset(Extracted(spec))[ref] == 1
  {
    hide References, Key, LabelNamespaces;
    var refs := References(spec);
    if ref.kind != CLUSTER_ROLE {
      LabelsNeverCollide(spec);
      forall r | r in refs ensures !Collide(r, ref) {
        var i, j :| 0 <= i < |refs| && 0 <= j < |refs| && refs[i] == r && refs[j] == ref;
        assert !Collide(refs[i], refs[j]);
      }
    }
    UncollidedExtracted(spec, ref);
  }

  // What a binding of the spec refers to is among the references of the spec.
  lemma ReferenceOfRoleBinding(spec: Spec, i: nat, ref: ValidationRoleRef)
    requires i < |Elements(spec.roleBindings)| && ref in RoleBindingRefs(Elements(spec.roleBindings)[i])
    ensures ref in References(spec)
  {
    hide RoleBindingRefs;
    var bs := Elements(spec.roleBindings);
    ConcatMember(seq(|bs|, i requires 0 <= i < |bs| => RoleBindingRefs(bs[i])), i, ref);
    assert ref in RoleBindingsRefs(bs);
  }

  // --- Which references there are, and in what order

  predicate ClusterBindingRefers(b: ClusterRoleBindingSpec, ref: ValidationRoleRef) {
    && b.roleRef.Some? && b.roleRef.value.kind == "ClusterRole"
    && ref == ValidationRoleRef(b.roleRef.value.name, "", "ClusterRole")
  }

  predicate RoleBindingRefers(b: RoleBindingSpec, ref: ValidationRoleRef) {
    || (b.roleRef.kind == "Role" && b.namespace != "" && ref == ValidationRoleRef(b.roleRef.name, b.namespace, "Role"))
    || (b.roleRef.kind == "ClusterRole" && ref == ValidationRoleRef(b.roleRef.name, "", "ClusterRole"))
  }

  // The references are those of the singular cluster binding, whether or not it is overridden, of
  // the plural ones, and of the role bindings: a cluster role wherever one is named, a role only
  // where a namespace places the binding.
  lemma ReferencesExactly(spec: Spec, ref: ValidationRoleRef)
    ensures ref in References(spec) <==>
      || (spec.clusterRoleBinding.Some? && ClusterBindingRefers(spec.clusterRoleBinding.value, ref))
      || (spec.clusterRoleBindings.Some? &&
            exists b :: b in spec.clusterRoleBindings.value && ClusterBindingRefers(b, ref))
      || (spec.roleBindings.Some? && exists b :: b in spec.roleBindings.value && RoleBindingRefers(b, ref))
  {
    ClusterBindingsRefer(SingularBinding(spec), ref);
    ClusterBindingsRefer(Elements(spec.clusterRoleBindings), ref);
    RoleBindingsRefer(Elements(spec.roleBindings), ref);
    hide ClusterBindingsRefs, RoleBindingsRefs, ClusterBindingRefers, RoleBindingRefers;
  }

  lemma {:induction false} ConcatMembers<T>(blocks: seq<seq<T>>, x: T)
    ensures x in Concat(blocks) <==> exists i :: 0 <= i < |blocks| && x in blocks[i]
  {
    if blocks != [] {
      ConcatMembers(blocks[1..], x);
      if x in Concat(blocks[1..]) {
        var i :| 0 <= i < |blocks[1..]| && x in blocks[1..][i];
        assert x in blocks[i + 1];
      }
      if i :| 0 <= i < |blocks| && x in blocks[i] {
        assert i > 0 ==> x in blocks[1..][i - 1];
      }
    }
  }

  lemma ClusterBindingsRefer(bs: seq<ClusterRoleBindingSpec>, ref: ValidationRoleRef)
    ensures ref in ClusterBindingsRefs(bs) <==> exists b :: b in bs && ClusterBindingRefers(b, ref)
  {
    var blocks := seq(|bs|, i requires 0 <= i < |bs| => ClusterBindingRefs(bs[i]));
    ConcatMembers(blocks, ref);
    forall b ensures ref in ClusterBindingRefs(b) <==> ClusterBindingRefers(b, ref) {
    }
    hide ClusterBindingRefs, ClusterBindingRefers, Concat;
    if b :| b in bs && ClusterBindingRefers(b, ref) {
      var i :| 0 <= i < |bs| && bs[i] == b;
      assert ref in blocks[i];
    }
  }

  lemma RoleBindingsRefer(bs: seq<RoleBindingSpec>, ref: ValidationRoleRef)
    ensures ref in RoleBindingsRefs(bs) <==> exists b :: b in bs && RoleBindingRefers(b, ref)
  {
    var blocks := seq(|bs|, i requires 0 <= i < |bs| => RoleBindingRefs(bs[i]));
    ConcatMembers(blocks, ref);
    forall b ensures ref in RoleBindingRefs(b) <==> RoleBindingRefers(b, ref) {
    }
    hide RoleBindingRefs, RoleBindingRefers, Concat;
    if b :| b in bs && RoleBindingRefers(b, ref) {
      var i :| 0 <= i < |bs| && bs[i] == b;
      assert ref in blocks[i];
    }
  }

  // A binding added at the end of the spec adds what it refers to at the end of the references:
  // cluster bindings after the singular one, role bindings after all of them.
  lemma ReferencesInOrder(spec: Spec, plural: seq<ClusterRoleBindingSpec>, c: ClusterRoleBindingSpec,
                          roles: seq<RoleBindingSpec>, b: RoleBindingSpec)
    ensures References(spec.(clusterRoleBindings := Some(plural + [c]), roleBindings := None)) ==
            References(spec.(clusterRoleBindings := Some(plural), roleBindings := None)) + ClusterBindingRefs(c)
    ensures References(spec.(roleBindings := Some(roles + [b]))) ==
            References(spec.(roleBindings := Some(roles))) + RoleBindingRefs(b)
    ensures forall ref :: ClusterBindingRefs(c) == [ref] <==> ClusterBindingRefers(c, ref)
    ensures forall ref :: RoleBindingRefs(b) == [ref] <==> RoleBindingRefers(b, ref)
  {
    ClusterBindingsRefsAppend(plural, c);
    RoleBindingsRefsAppend(roles, b);
    assert RoleBindingsRefs([]) == [];
    hide ClusterBindingsRefs, RoleBindingsRefs;
    var single := ClusterBindingsRefs(SingularBinding(spec));
    AppendAssociative(single, ClusterBindingsRefs(plural), ClusterBindingRefs(c));
    AppendAssociative(single + ClusterBindingsRefs(Elements(spec.clusterRoleBindings)),
                      RoleBindingsRefs(roles), RoleBindingRefs(b));
  }

  lemma ClusterBindingsRefsAppend(bs: seq<ClusterRoleBindingSpec>, b: ClusterRoleBindingSpec)
    ensures ClusterBindingsRefs(bs + [b]) == ClusterBindingsRefs(bs) + ClusterBindingRefs(b)
  {
    hide ClusterBindingRefs;
    var all := bs + [b];
    var blocks := seq(|bs|, i requires 0 <= i < |bs| => ClusterBindingRefs(bs[i]));
    assert seq(|all|, i requires 0 <= i < |all| => ClusterBindingRefs(all[i])) == blocks + [ClusterBindingRefs(b)];
    ConcatAppend(blocks, [ClusterBindingRefs(b)]);
  }

  lemma RoleBindingsRefsAppend(bs: seq<RoleBindingSpec>, b: RoleBindingSpec)
    ensures RoleBindingsRefs(bs + [b]) == RoleBindingsRefs(bs) + RoleBindingRefs(b)
  {
    hide RoleBindingRefs;
    var all := bs + [b];
    var blocks := seq(|bs|, i requires 0 <= i < |bs| => RoleBindingRefs(bs[i]));
    assert seq(|all|, i requires 0 <= i < |all| => RoleBindingRefs(all[i])) == blocks + [RoleBindingRefs(b)];
    ConcatAppend(blocks, [RoleBindingRefs(b)]);
  }

  // No earlier element has the key of the one at k.
  predicate NewAt<T, K(==)>(s: seq<T>, key: T -> K, k: nat) {
    k < |s| && forall j :: 0 <= j < k ==> key(s[j]) != key(s[k])
  }

  // Deduplication keeps, in their order, exactly the elements that no earlier one shares its key with.
  ghost predicate KeepsFirst<T, K>(s: seq<T>, key: T -> K, at: seq<nat>, r: seq<T>) {
    && (forall i, j :: 0 <= i < j < |at| ==> at[i] < at[j])
    && |r| == |at| && (forall i :: 0 <= i < |at| ==> at[i] < |s| && r[i] == s[at[i]])
    && (forall k: nat :: k in at <==> NewAt(s, key, k))
  }

  lemma NewInPrefix<T, K>(s: seq<T>, x: T, key: T -> K, k: nat)
    requires k < |s|
    ensures NewAt(s + [x], key, k) <==> NewAt(s, key, k)
  {
    var t := s + [x];
    assert t[k] == s[k] && forall j :: 0 <= j < k ==> t[j] == s[j];
  }

  lemma KeepsFirstStep<T, K>(s: seq<T>, x: T, key: T -> K, at: seq<nat>, r: seq<T>)
    requires KeepsFirst(s, key, at, r)
    ensures if NewAt(s + [x], key, |s|) then KeepsFirst(s + [x], key, at + [|s|], r + [x])
            else KeepsFirst(s + [x], key, at, r)
  {
    forall k: nat | k < |s| ensures NewAt(s + [x], key, k) <==> k in at {
      NewInPrefix(s, x, key, k);
    }
    assert forall k :: k in at ==> NewAt(s, key, k);
    assert forall k: nat :: NewAt(s + [x], key, k) ==> k <= |s|;
    hide NewAt;
    var n: nat := |s|;
    assert forall k: nat :: k in at + [n] <==> k in at || k == n;
  }

  lemma {:induction false} OccurrencesAreFirst<T, K>(s: seq<T>, key: T -> K) returns (at: seq<nat>)
    ensures KeepsFirst(s, key, at, FirstOccurrences(s, key))
  {
    at := [];
    if s != [] {
      var n: nat := |s| - 1;
      at := OccurrencesAreFirst(s[..n], key);
      assert s[..n] + [s[n]] == s;
      KeepsFirstStep(s[..n], s[n], key, at, FirstOccurrences(s[..n], key));
      hide KeepsFirst;
      if NewAt(s, key, n) {
        at := at + [n];
      }
    }
  }

  // Two role bindings whose references share the key Role:a:b:c, for any a, b and c.
  function CollidingSpec(a: string, b: string, c: string): Spec {
    Spec(None, None, None, None, None, Some([
      RoleBindingSpec(None, [], RoleRef(GROUP_NAME, ROLE, b + ":" + c), a, None, ""),
      RoleBindingSpec(None, [], RoleRef(GROUP_NAME, ROLE, c), a + ":" + b, None, "")]))
  }

  // Without label namespaces a reference can be lost.
  lemma ColonLosesReference(a: string, b: string, c: string)
    requires a != ""
    ensures exists ref :: ref in References(CollidingSpec(a, b, c)) && ref !in Extracted(CollidingSpec(a, b, c))
  {
    var x, y := ValidationRoleRef(b + ":" + c, a, ROLE), ValidationRoleRef(c, a + ":" + b, ROLE);
    var spec := CollidingSpec(a, b, c);
    ReferenceOfRoleBinding(spec, 0, x);
    ReferenceOfRoleBinding(spec, 1, y);
    assert Collide(x, y) by {
      assert |a + ":" + b| > |a|;
      assert a + ":" + (b + ":" + c) == (a + ":" + b) + ":" + c;
    }
    hide *;
    CollisionLosesOne(spec, x, y);
  }
}
