/** Reconciling in an unchanging world: every covering order reaches the same contents, and stays there. */
module Confluence {
  import opened Prelude
  import opened Api
  import opened Hub
  import opened Conditions
  import opened Payload
  import opened PayloadProperties
  import opened Works
  import opened Reconciler

  // One reconcile that reads what is stored and meets no API error.
  function Step(world: World, s: Store, key: Key, now: int): Effect
    requires UidsLong(s)
  {
    Reconciled(world, s, s, key, NO_FAULTS, now)
  }

  // Objects are stored under their own names, UIDs are long enough to slice, and stored works
  // hold raw manifests.
  predicate WellFormed(s: Store) {
    && UidsLong(s)
    && (forall k :: k in s.permissions ==> s.permissions[k].namespace == k.namespace && s.permissions[k].name == k.name)
    && (forall k :: k in s.works ==> s.works[k] == Encoded(s.works[k]))
  }

  // --- One step

  // Everything of a ClusterPermission but its status.
  function Bare(cp: ClusterPermission): ClusterPermission {
    cp.(status := Status([], None))
  }

  lemma WorkIgnoresStatus(cp: ClusterPermission, name: string, p: Payload, validate: bool)
    ensures WorkOf(cp, name, p, validate) == WorkOf(Bare(cp), name, p, validate)
  {
    hide SpecOf;
  }

  lemma JudgeIgnoresStatus(world: World, cp: ClusterPermission)
    requires |cp.uid| >= 5
    ensures Judge(world, cp) == Judge(world, Bare(cp))
  {
    SameInputsCompileAlike(world, cp, Bare(cp), Validates(cp.spec));
    hide Compile, WorkOf, World.GetManagedCluster, HasBinding, GenerateManifestWorkName;
    var payload := Compile(world, cp, Validates(cp.spec));
    if payload.Success? {
      WorkIgnoresStatus(cp, GenerateManifestWorkName(cp), payload.value, Validates(cp.spec));
    }
  }

  // What a successful reconcile leaves of the permission it ran for.
  function SettledPermission(world: World, cp: ClusterPermission, now: int): ClusterPermission
    requires |cp.uid| >= 5
  {
    match Judge(world, cp)
    case Refused(refusal) =>
      cp.(status := cp.status.(conditions := Set(cp.status.conditions, ConditionOf(refusal), now)))
    case _ => cp
  }

  // What it leaves of the work, given the one stored before, if any.
  function SettledWork(before: Option<ManifestWork>, work: ManifestWork): ManifestWork {
    if before.Some? then before.value.(spec := Encode(work.spec)) else Encoded(work)
  }

  function Lookup(works: map<Key, ManifestWork>, key: Key): Option<ManifestWork> {
    if key in works then Some(works[key]) else None
  }

  // The store a successful reconcile leaves, without the protocol: exact contents.
  function Settled(world: World, s: Store, key: Key, now: int): Store
    requires UidsLong(s)
  {
    if key !in s.permissions then s
    else
      var cp := s.permissions[key];
      match Judge(world, cp)
      case Refused(_) => s.(permissions := s.permissions[key := SettledPermission(world, cp, now)])
      case Applied(work) => s.(works := s.works[WorkKey(cp) := SettledWork(Lookup(s.works, WorkKey(cp)), work)])
      case _ => s
  }

  // An encoded spec is compared with a freshly built one: they are equal only when the built
  // one has no manifests at all, so the skip in the source fires only then.
  lemma SkipOnlyWhenEmpty(stored: ManifestWork, work: ManifestWork)
    requires stored == Encoded(stored) && forall i :: 0 <= i < |work.spec.manifests| ==> work.spec.manifests[i].Built?
    ensures stored.spec == work.spec <==> stored.spec == Encode(work.spec) && work.spec.manifests == []
  {
    var before, built := stored.spec.manifests, work.spec.manifests;
    assert built != [] ==> built[0].Built?;
    assert before != [] ==> before[0] == Encode(stored.spec).manifests[0] && before[0].Decoded?;
  }

  lemma EncodeTwice(spec: WorkSpec)
    ensures Encode(Encode(spec)) == Encode(spec)
  {
  }

  lemma JudgedWorkBuilt(world: World, cp: ClusterPermission)
    requires |cp.uid| >= 5 && Judge(world, cp).Applied?
    ensures var work := Judge(world, cp).work;
      && (forall i :: 0 <= i < |work.spec.manifests| ==> work.spec.manifests[i].Built?)
      && work.name == GenerateManifestWorkName(cp) && work.namespace == cp.namespace && work.owners == [OwnedBy(cp)]
  {
    hide Compile, Manifests, ConfigBlocks, GenerateManifestWorkName, OwnedBy;
  }

  // A live object that gives a binding, whose managed cluster cannot be read.
  predicate AbortsOn(world: World, s: Store, key: Key) {
    && key in s.permissions && !s.permissions[key].deleting && !NoBindingGiven(s.permissions[key].spec)
    && world.GetManagedCluster(s.permissions[key].namespace).Failure?
    && !world.GetManagedCluster(s.permissions[key].namespace).error.NotFound?
  }

  lemma AbortsExactly(world: World, s: Store, key: Key)
    requires UidsLong(s)
    ensures AbortsOn(world, s, key) <==> key in s.permissions && Judge(world, s.permissions[key]).Aborted?
  {
    hide Compile, Accepts, WorkOf, GenerateManifestWorkName, World.GetManagedCluster, Judge;
    if key in s.permissions {
      VerdictExact(world, s.permissions[key]);
    }
  }

  // A step fails only when the managed cluster cannot be read; otherwise it leaves exactly the
  // settled store, whichever branch it takes.
  lemma StepSettles(world: World, s: Store, key: Key, now: int)
    requires WellFormed(s)
    ensures Step(world, s, key, now).error.Some? <==> AbortsOn(world, s, key)
    ensures Step(world, s, key, now).store == Settled(world, s, key, now)
    ensures WellFormed(Settled(world, s, key, now)) && UidsLong(Settled(world, s, key, now))
  {
    hide Judge, ConditionOf, Set, GenerateManifestWorkName, AbortsOn;
    AbortsExactly(world, s, key);
    if key in s.permissions {
      var cp := s.permissions[key];
      if Judge(world, cp).Applied? {
        var work, wk := Judge(world, cp).work, WorkKey(cp);
        JudgedWorkBuilt(world, cp);
        EncodeTwice(work.spec);
        if wk in s.works {
          SkipOnlyWhenEmpty(s.works[wk], work);
          assert s.works[wk].spec == work.spec ==> s.works == s.works[wk := s.works[wk].(spec := Encode(work.spec))];
        }
      }
    }
  }

  lemma SettledTwice(world: World, s: Store, key: Key, now: int, later: int)
    requires WellFormed(s)
    ensures var s' := Settled(world, s, key, now);
      UidsLong(s') && Settled(world, s', key, later) == s' && (AbortsOn(world, s', key) <==> AbortsOn(world, s, key))
  {
    hide Judge, ConditionOf, Set, GenerateManifestWorkName, Encode;
    var s' := Settled(world, s, key, now);
    if key in s.permissions {
      var cp := s.permissions[key];
      JudgeIgnoresStatus(world, cp);
      JudgeIgnoresStatus(world, s'.permissions[key]);
      if Judge(world, cp).Refused? {
        SetIdempotent(cp.status.conditions, ConditionOf(Judge(world, cp).refusal), now, later);
        assert s'.permissions[key := s'.permissions[key]] == s'.permissions;
      } else if Judge(world, cp).Applied? {
        assert s'.works[WorkKey(cp) := s'.works[WorkKey(cp)]] == s'.works;
      }
    }
  }

  // Fixpoint: reconciling the same object again, at any time, changes nothing at all, times included.
  lemma StepFixpoint(world: World, s: Store, key: Key, now: int, later: int)
    requires WellFormed(s) && Step(world, s, key, now).error.None?
    ensures var s' := Step(world, s, key, now).store;
      WellFormed(s') && Step(world, s', key, later) == Effect(s', None)
  {
    hide Settled, Step, AbortsOn, Judge, Encode;
    StepSettles(world, s, key, now);
    SettledTwice(world, s, key, now, later);
    StepSettles(world, Settled(world, s, key, now), key, later);
  }

  // --- Runs

  datatype Visit = Visit(key: Key, at: int)

  function Run(world: World, s: Store, visits: seq<Visit>): (r: Store)
    requires WellFormed(s)
    ensures WellFormed(r)
  {
    if visits == [] then s
    else
      var n := |visits| - 1;
      var before := Run(world, s, visits[..n]);
      StepSettles(world, before, visits[n].key, visits[n].at);
      Step(world, before, visits[n].key, visits[n].at).store
  }

  predicate Visited(visits: seq<Visit>, key: Key) {
    exists i :: 0 <= i < |visits| && visits[i].key == key
  }

  // Every object that is not being deleted is reconciled at least once.
  predicate Covers(s: Store, visits: seq<Visit>) {
    forall k :: k in s.permissions && !s.permissions[k].deleting ==> Visited(visits, k)
  }

  // An object with its condition times forgotten.
  function Plain(cp: ClusterPermission): ClusterPermission {
    cp.(status := cp.status.(conditions := Timeless(cp.status.conditions)))
  }

  // The same objects with the same statuses up to times, and exactly the same works.
  predicate SameContents(a: Store, b: Store) {
    && a.permissions.Keys == b.permissions.Keys
    && (forall k :: k in a.permissions ==> Plain(a.permissions[k]) == Plain(b.permissions[k]))
    && a.works == b.works
  }

  predicate WritesTo(world: World, s: Store, k: Key, wk: Key)
    requires UidsLong(s)
  {
    k in s.permissions && Judge(world, s.permissions[k]).Applied? && WorkKey(s.permissions[k]) == wk
  }

  // Two live objects never share a work.
  lemma WritersDistinct(world: World, s: Store, k1: Key, k2: Key, wk: Key)
    requires WellFormed(s) && WritesTo(world, s, k1, wk) && WritesTo(world, s, k2, wk)
    ensures k1 == k2
  {
    hide Judge;
    WorkNameInjective(s.permissions[k1], s.permissions[k2]);
  }

  // Where a run stands: visited objects are settled, the others and the works nobody wrote are as they were.
  predicate PermissionAt(world: World, cp0: ClusterPermission, cp: ClusterPermission, visited: bool)
    requires |cp0.uid| >= 5
  {
    Bare(cp) == Bare(cp0) && Plain(cp) == Plain(if visited then SettledPermission(world, cp0, 0) else cp0)
  }

  ghost predicate PermissionsAt(world: World, s0: Store, s: Store, visits: seq<Visit>)
    requires UidsLong(s0)
  {
    && s.permissions.Keys == s0.permissions.Keys
    && (forall k :: k in s0.permissions ==>
         PermissionAt(world, s0.permissions[k], s.permissions[k], Visited(visits, k)))
  }

  // One work key: settled by the visited object that writes it, untouched if there is none.
  ghost predicate WorkAt(world: World, s0: Store, s: Store, visits: seq<Visit>, wk: Key)
    requires UidsLong(s0)
  {
    && (forall k :: WritesTo(world, s0, k, wk) && Visited(visits, k) ==>
          Lookup(s.works, wk) == Some(SettledWork(Lookup(s0.works, wk), Judge(world, s0.permissions[k]).work)))
    && ((forall k :: WritesTo(world, s0, k, wk) ==> !Visited(visits, k)) ==>
         Lookup(s.works, wk) == Lookup(s0.works, wk))
  }

  ghost predicate WorksAt(world: World, s0: Store, s: Store, visits: seq<Visit>)
    requires UidsLong(s0)
  {
    forall wk :: WorkAt(world, s0, s, visits, wk)
  }

  lemma VisitedStep(visits: seq<Visit>, key: Key)
    requires visits != []
    ensures Visited(visits, key) <==> Visited(visits[..|visits| - 1], key) || visits[|visits| - 1].key == key
  {
    var n := |visits| - 1;
    if i :| 0 <= i < |visits| && visits[i].key == key {
      assert i < n ==> visits[..n][i].key == key;
    }
  }

  lemma SettledPermissionPlain(world: World, cp0: ClusterPermission, cp: ClusterPermission, now: int)
    requires |cp0.uid| >= 5 && Bare(cp) == Bare(cp0)
    requires Plain(cp) == Plain(cp0) || Plain(cp) == Plain(SettledPermission(world, cp0, 0))
    ensures |cp.uid| >= 5 && Judge(world, cp) == Judge(world, cp0)
    ensures Plain(SettledPermission(world, cp, now)) == Plain(SettledPermission(world, cp0, 0))
  {
    hide Judge, ConditionOf, Set, Timeless;
    JudgeIgnoresStatus(world, cp);
    JudgeIgnoresStatus(world, cp0);
    if Judge(world, cp).Refused? {
      var c := ConditionOf(Judge(world, cp).refusal);
      var start, once := cp0.status.conditions, Set(cp0.status.conditions, c, 0);
      if Plain(cp) == Plain(cp0) {
        SetTimeless(cp.status.conditions, start, c, now, 0);
      } else {
        SetTimeless(cp.status.conditions, once, c, now, now);
        SetIdempotent(start, c, 0, now);
      }
    }
  }

  lemma PermissionVisited(world: World, cp0: ClusterPermission, cp: ClusterPermission, visited: bool, now: int)
    requires |cp0.uid| >= 5 && PermissionAt(world, cp0, cp, visited)
    ensures |cp.uid| >= 5 && Judge(world, cp) == Judge(world, cp0) && WorkKey(cp) == WorkKey(cp0)
    ensures PermissionAt(world, cp0, SettledPermission(world, cp, now), true)
  {
    hide Judge, ConditionOf, Set, Timeless;
    SettledPermissionPlain(world, cp0, cp, now);
  }

  lemma SettledElsewhere(world: World, s: Store, key: Key, now: int, k: Key)
    requires UidsLong(s) && k in s.permissions
    ensures var s' := Settled(world, s, key, now);
      && s'.permissions.Keys == s.permissions.Keys
      && s'.permissions[k] == if k == key then SettledPermission(world, s.permissions[k], now) else s.permissions[k]
  {
    hide Judge, ConditionOf, Set, Encode, GenerateManifestWorkName;
  }

  lemma PermissionsStep(world: World, s0: Store, s: Store, visits: seq<Visit>)
    requires WellFormed(s0) && WellFormed(s) && visits != []
    requires PermissionsAt(world, s0, s, visits[..|visits| - 1])
    ensures PermissionsAt(world, s0, Settled(world, s, visits[|visits| - 1].key, visits[|visits| - 1].at), visits)
  {
    hide Judge, Visited, PermissionAt, Settled, SettledPermission;
    var n := |visits| - 1;
    var key, at := visits[n].key, visits[n].at;
    forall k | k in s0.permissions
      ensures Settled(world, s, key, at).permissions.Keys == s0.permissions.Keys
      ensures PermissionAt(world, s0.permissions[k], Settled(world, s, key, at).permissions[k], Visited(visits, k))
    {
      VisitedStep(visits, k);
      SettledElsewhere(world, s, key, at, k);
      if k == key {
        PermissionVisited(world, s0.permissions[k], s.permissions[k], Visited(visits[..n], k), at);
      }
    }
    if s0.permissions.Keys == {} {
      NothingStored(world, s, key, at);
    } else {
      var k :| k in s0.permissions.Keys;
      assert k in s0.permissions;
    }
  }

  lemma NothingStored(world: World, s: Store, key: Key, now: int)
    requires UidsLong(s) && key !in s.permissions
    ensures Settled(world, s, key, now) == s
  {
  }

  // What one settling does to one work key.
  lemma SettledWorkElsewhere(world: World, s: Store, key: Key, now: int, wk: Key)
    requires UidsLong(s)
    ensures Lookup(Settled(world, s, key, now).works, wk) ==
      if WritesTo(world, s, key, wk) then Some(SettledWork(Lookup(s.works, wk), Judge(world, s.permissions[key]).work))
      else Lookup(s.works, wk)
  {
    hide Judge, ConditionOf, Set, Encode, GenerateManifestWorkName;
  }

  // Along a run, the objects keep their verdicts and their works.
  lemma SameWriter(world: World, s0: Store, s: Store, visits: seq<Visit>, key: Key, wk: Key)
    requires UidsLong(s0) && UidsLong(s) && PermissionsAt(world, s0, s, visits)
    ensures WritesTo(world, s, key, wk) <==> WritesTo(world, s0, key, wk)
    ensures key in s0.permissions ==>
              key in s.permissions && Judge(world, s.permissions[key]) == Judge(world, s0.permissions[key])
  {
    hide Judge, Visited, PermissionAt;
    if key in s0.permissions {
      PermissionVisited(world, s0.permissions[key], s.permissions[key], Visited(visits, key), 0);
    }
  }

  lemma WorkStep(world: World, s0: Store, s: Store, visits: seq<Visit>, wk: Key)
    requires WellFormed(s0) && WellFormed(s) && visits != []
    requires PermissionsAt(world, s0, s, visits[..|visits| - 1]) && WorkAt(world, s0, s, visits[..|visits| - 1], wk)
    ensures WorkAt(world, s0, Settled(world, s, visits[|visits| - 1].key, visits[|visits| - 1].at), visits, wk)
  {
    hide Judge, Visited, PermissionsAt, Settled, SettledWork, Lookup, WorkKey;
    var n := |visits| - 1;
    var key, at := visits[n].key, visits[n].at;
    forall k ensures Visited(visits, k) <==> Visited(visits[..n], k) || k == key {
      VisitedStep(visits, k);
    }
    SettledWorkElsewhere(world, s, key, at, wk);
    SameWriter(world, s0, s, visits[..n], key, wk);
    if WritesTo(world, s0, key, wk) {
      forall k | WritesTo(world, s0, k, wk) ensures k == key {
        WritersDistinct(world, s0, k, key, wk);
      }
      SettledWorkTwice(Lookup(s0.works, wk), Judge(world, s0.permissions[key]).work);
    }
  }

  lemma SettledWorkTwice(before: Option<ManifestWork>, work: ManifestWork)
    ensures SettledWork(Some(SettledWork(before, work)), work) == SettledWork(before, work)
  {
  }

  // Where every run stands.
  lemma {:induction false} RunAt(world: World, s: Store, visits: seq<Visit>)
    requires WellFormed(s)
    ensures PermissionsAt(world, s, Run(world, s, visits), visits) && WorksAt(world, s, Run(world, s, visits), visits)
  {
    hide Judge, Settled, Step, WorkAt, WritesTo;
    if visits == [] {
      NothingVisited(world, s);
    } else {
      var n := |visits| - 1;
      var before := Run(world, s, visits[..n]);
      RunAt(world, s, visits[..n]);
      StepSettles(world, before, visits[n].key, visits[n].at);
      PermissionsStep(world, s, before, visits);
      forall wk ensures WorkAt(world, s, Run(world, s, visits), visits, wk) {
        WorkStep(world, s, before, visits, wk);
      }
    }
  }

  lemma NothingVisited(world: World, s: Store)
    requires UidsLong(s)
    ensures PermissionsAt(world, s, s, []) && WorksAt(world, s, s, [])
  {
    hide Judge, WritesTo;
  }

  // Confluence: two runs over the same store that both cover it end in the same contents,
  // whatever their orders, repetitions and times.
  lemma Confluent(world: World, s: Store, visits: seq<Visit>, visits': seq<Visit>)
    requires WellFormed(s) && Covers(s, visits) && Covers(s, visits')
    ensures SameContents(Run(world, s, visits), Run(world, s, visits'))
  {
    hide Run, Judge, PermissionAt, Plain, WorkAt, Visited;
    var a, b := Run(world, s, visits), Run(world, s, visits');
    RunAt(world, s, visits);
    RunAt(world, s, visits');
    forall k | k in s.permissions ensures Plain(a.permissions[k]) == Plain(b.permissions[k]) {
      SamePermission(world, s.permissions[k],
                     a.permissions[k], Visited(visits, k), b.permissions[k], Visited(visits', k));
    }
    forall wk ensures Lookup(a.works, wk) == Lookup(b.works, wk) {
      SameWork(world, s, a, b, visits, visits', wk);
    }
    SameLookups(a.works, b.works);
  }

  lemma SamePermission(world: World, cp0: ClusterPermission,
                       a: ClusterPermission, inA: bool, b: ClusterPermission, inB: bool)
    requires |cp0.uid| >= 5 && PermissionAt(world, cp0, a, inA) && PermissionAt(world, cp0, b, inB)
    requires cp0.deleting || (inA && inB)
    ensures Plain(a) == Plain(b)
  {
    hide Set, Timeless, ConditionOf, HasBinding, World.GetManagedCluster, Compile, WorkOf, Bare, Plain;
  }

  lemma SameWork(world: World, s: Store, a: Store, b: Store, visits: seq<Visit>, visits': seq<Visit>, wk: Key)
    requires WellFormed(s) && Covers(s, visits) && Covers(s, visits')
    requires WorkAt(world, s, a, visits, wk) && WorkAt(world, s, b, visits', wk)
    ensures Lookup(a.works, wk) == Lookup(b.works, wk)
  {
    hide Lookup, Visited, SettledWork, HasBinding, World.GetManagedCluster, Compile, WorkOf, GenerateManifestWorkName;
    if k :| WritesTo(world, s, k, wk) {
      assert !s.permissions[k].deleting;
    }
  }

  lemma SameLookups(a: map<Key, ManifestWork>, b: map<Key, ManifestWork>)
    requires forall wk :: Lookup(a, wk) == Lookup(b, wk)
    ensures a == b
  {
    forall wk ensures (wk in a <==> wk in b) && (wk in a ==> a[wk] == b[wk]) {
      assert Lookup(a, wk) == Lookup(b, wk);
    }
  }

  // --- Nothing moves after a covering run

  // Reconciling the object would change nothing, whenever it happens.
  ghost predicate Stable(world: World, s: Store, key: Key)
    requires UidsLong(s)
  {
    forall now :: Settled(world, s, key, now) == s
  }

  // An object that is stable stays so when any other object is reconciled.
  lemma StableKept(world: World, s: Store, key: Key, other: Key, now: int)
    requires WellFormed(s) && Stable(world, s, key)
    ensures UidsLong(Settled(world, s, other, now)) && Stable(world, Settled(world, s, other, now), key)
  {
    hide Judge, ConditionOf, Set, SettledWork, WorkKey;
    StepSettles(world, s, other, now);
    var s' := Settled(world, s, other, now);
    forall later ensures Settled(world, s', key, later) == s' {
      assert Settled(world, s, key, later) == s;
      if key == other {
        SettledTwice(world, s, key, now, later);
      } else if key in s.permissions {
        StableApart(world, s, s', key, other, now, later);
      }
    }
  }

  lemma StableApart(world: World, s: Store, s': Store, key: Key, other: Key, now: int, later: int)
    requires WellFormed(s) && key != other && key in s.permissions
    requires s' == Settled(world, s, other, now) && UidsLong(s') && Settled(world, s, key, later) == s
    ensures Settled(world, s', key, later) == s'
  {
    hide Judge, ConditionOf, Set, SettledWork, GenerateManifestWorkName;
    SettledElsewhere(world, s, other, now, key);
    var cp := s.permissions[key];
    assert s'.permissions[key] == cp;
    if Judge(world, cp).Applied? {
      var wk := WorkKey(cp);
      assert WritesTo(world, s, key, wk);
      if WritesTo(world, s, other, wk) {
        WritersDistinct(world, s, key, other, wk);
      }
      SettledWorkElsewhere(world, s, other, now, wk);
      assert wk in s.works && s.works[wk] == SettledWork(Lookup(s.works, wk), Judge(world, cp).work);
      assert wk in s'.works && s'.works[wk] == s.works[wk];
      assert s'.works[wk := s'.works[wk]] == s'.works;
    } else if Judge(world, cp).Refused? {
      assert s.permissions[key := SettledPermission(world, cp, later)] == s.permissions;
      assert s.permissions[key := SettledPermission(world, cp, later)][key] == SettledPermission(world, cp, later);
      assert s'.permissions[key := cp] == s'.permissions;
    }
  }

  lemma {:induction false} VisitedStable(world: World, s: Store, visits: seq<Visit>, key: Key)
    requires WellFormed(s) && Visited(visits, key)
    ensures Stable(world, Run(world, s, visits), key)
  {
    hide Judge, Settled, Step;
    var n := |visits| - 1;
    var before := Run(world, s, visits[..n]);
    StepSettles(world, before, visits[n].key, visits[n].at);
    VisitedStep(visits, key);
    if Visited(visits[..n], key) {
      VisitedStable(world, s, visits[..n], key);
      StableKept(world, before, key, visits[n].key, visits[n].at);
    } else {
      forall later ensures Settled(world, Run(world, s, visits), key, later) == Run(world, s, visits) {
        SettledTwice(world, before, key, visits[n].at, later);
      }
    }
  }

  lemma NotLiveStable(world: World, s: Store, key: Key)
    requires WellFormed(s) && (key !in s.permissions || s.permissions[key].deleting)
    ensures Stable(world, s, key)
  {
    hide HasBinding, World.GetManagedCluster, Compile;
  }

  lemma CoveredStable(world: World, s: Store, visits: seq<Visit>, key: Key)
    requires WellFormed(s) && Covers(s, visits)
    ensures Stable(world, Run(world, s, visits), key)
  {
    hide Judge, Settled, Step, PermissionAt, Stable;
    if Visited(visits, key) {
      VisitedStable(world, s, visits, key);
    } else {
      var settled := Run(world, s, visits);
      RunAt(world, s, visits);
      if key in s.permissions {
        assert PermissionAt(world, s.permissions[key], settled.permissions[key], false);
        StillDeleting(world, s.permissions[key], settled.permissions[key], false);
      }
      NotLiveStable(world, settled, key);
    }
  }

  // Fixpoint of whole runs: once a run has covered the store, any further reconciles, of any
  // objects and at any times, leave every stored object exactly as it is.
  lemma {:induction false} CoveredFixed(world: World, s: Store, visits: seq<Visit>, more: seq<Visit>)
    requires WellFormed(s) && Covers(s, visits)
    ensures Run(world, s, visits + more) == Run(world, s, visits)
  {
    if more == [] {
      assert visits + more == visits;
    } else {
      hide Judge, Settled, Step, Covers;
      var n, all := |more| - 1, visits + more;
      CoveredFixed(world, s, visits, more[..n]);
      assert all[..|all| - 1] == visits + more[..n] && all[|all| - 1] == more[n];
      CoveredStable(world, s, visits, more[n].key);
      StepSettles(world, Run(world, s, visits), more[n].key, more[n].at);
    }
  }

  lemma StillDeleting(world: World, cp0: ClusterPermission, cp: ClusterPermission, visited: bool)
    requires |cp0.uid| >= 5 && PermissionAt(world, cp0, cp, visited)
    ensures cp.deleting == cp0.deleting
  {
    hide Judge;
    assert Bare(cp).deleting == cp.deleting && Bare(cp0).deleting == cp0.deleting;
  }
}
