/** The status controller's reconcile: from a changed ManifestWork to its owner's status. */
module StatusReconciler {
  import opened Prelude
  import opened Api
  import opened Hub
  import opened Conditions
  import opened Payload
  import opened Works
  import opened StatusReport
  import opened Reconciler

  // What one attempt meets: the read it makes, from a cache that may lag, what others have made
  // of the store when its write arrives, and a possible write error.
  datatype Try = Try(latest: Result<ClusterPermission, Error>, live: Store, writeFault: Option<Error>)

  function ReportOnce(key: Key, work: ManifestWork, t: Try, now: int): Effect {
    match t.latest
    case Failure(e) => Effect(t.live, Some(e))
    case Success(cp) =>
      PutStatus(t.live, key, cp, StatusEdit(cp.status, Validates(cp.spec), key.namespace, work, now),
                NO_FAULTS.(write := t.writeFault))
  }

  // The attempts one after another: a conflict is retried with the next read, anything else is final.
  function Reported(key: Key, work: ManifestWork, tries: seq<Try>, now: int): Effect
    requires tries != []
  {
    var effect := ReportOnce(key, work, tries[0], now);
    if Retried(effect) && |tries| > 1 then Reported(key, work, tries[1..], now) else effect
  }

  // Where a request for a work leads: the key of the ClusterPermission that controls it.
  function Resolve(cache: Store, request: Key, faults: Faults): Result<Option<Key>, Error> {
    match GetWork(cache, request, faults)
    case Failure(NotFound(_, _)) => Success(None)
    case Failure(e) => Failure(e)
    case Success(work) =>
      if OwnerName(work.owners) == "" then Success(None) else Success(Some(Key(work.namespace, OwnerName(work.owners))))
  }

  // The specification of one reconcile of the status controller.
  function StatusReconciled(cache: Store, live: Store, request: Key, faults: Faults, tries: seq<Try>, now: int): Effect
    requires tries != []
  {
    match Resolve(cache, request, faults)
    case Failure(e) => Effect(live, Some(e))
    case Success(None) => Effect(live, None)
    case Success(Some(key)) =>
      match GetPermission(cache, key, faults)
      case Failure(NotFound(_, _)) => Effect(live, None)
      case Failure(e) => Effect(live, Some(e))
      case Success(cp) => if cp.deleting then Effect(live, None) else Reported(key, cache.works[request], tries, now)
  }

  class ClusterPermissionStatusReconciler {
    var cache: Store
    var live: Store

    // Every attempt reads the object again before editing its status.
    method UpdateClusterPermissionStatus(key: Key, work: ManifestWork, tries: seq<Try>, now: int)
      returns (error: Option<Error>)
      requires |tries| == RETRY_STEPS
      modifies this`live
      ensures var effect := Reported(key, work, tries, now); error == effect.error && live == effect.store
    {
      hide StatusEdit, PutStatus, Set;
      var attempt := 0;
      error := None;
      assert tries[0..] == tries;
      while attempt < RETRY_STEPS
        invariant 0 <= attempt <= RETRY_STEPS
        invariant attempt < RETRY_STEPS ==>
                Reported(key, work, tries, now) == Reported(key, work, tries[attempt..], now)
        invariant attempt == RETRY_STEPS ==> Reported(key, work, tries, now) == Effect(live, error)
      {
        var t := tries[attempt];
        assert attempt + 1 < RETRY_STEPS ==> tries[attempt..][1..] == tries[attempt + 1..];
        var effect;
        if t.latest.Failure? {
          effect := Effect(t.live, Some(t.latest.error));
        } else {
          var latest := t.latest.value;
          var status := EditStatus(latest.status, latest.spec.validate.Some? && latest.spec.validate.value,
                                   key.namespace, work, now);
          effect := PutStatus(t.live, key, latest, status, NO_FAULTS.(write := t.writeFault));
        }
        error := effect.error;
        live := effect.store;
        if error.None? || !error.value.Conflict? {
          return;
        }
        attempt := attempt + 1;
      }
    }

    method Reconcile(request: Key, faults: Faults, tries: seq<Try>, now: int) returns (error: Option<Error>)
      requires |tries| == RETRY_STEPS
      modifies this`live
      ensures var effect := StatusReconciled(cache, old(live), request, faults, tries, now);
              error == effect.error && live == effect.store
    {
      hide Reported, IsControllerOwner;
      var work := GetWork(cache, request, faults);
      if work.Failure? {
        return if work.error.NotFound? then None else Some(work.error);
      }
      var owner := FindOwnerName(work.value);
      if owner == "" {
        return None;
      }
      var key := Key(work.value.namespace, owner);
      var found := GetPermission(cache, key, faults);
      if found.Failure? {
        return if found.error.NotFound? then None else Some(found.error);
      }
      if found.value.deleting {
        return None;
      }
      error := UpdateClusterPermissionStatus(key, work.value, tries, now);
    }
  }

  // --- What an update can do to the store

  // The live object with the status controller's edit of its own status.
  function Refreshed(live: Store, key: Key, work: ManifestWork, now: int): Store
    requires key in live.permissions
  {
    var cp := live.permissions[key];
    live.(permissions := live.permissions[key :=
      cp.(status := StatusEdit(cp.status, cp.spec.validate == Some(true), key.namespace, work, now))])
  }

  // However stale the reads, and whatever others write in between, an update ends with one of its
  // attempts, all earlier ones being in conflict; that one writes nothing or edits the status
  // that is live when its write arrives.
  lemma {:induction false} ReportsOnLive(key: Key, work: ManifestWork, tries: seq<Try>, now: int) returns (i: nat)
    requires tries != []
    ensures i < |tries| && forall j :: 0 <= j < i ==> Retried(ReportOnce(key, work, tries[j], now))
    ensures var e, live := Reported(key, work, tries, now), tries[i].live;
      && (e.error.Some? ==> e.store == live)
      && (e.error.None? ==> key in live.permissions && e.store == Refreshed(live, key, work, now))
  {
    hide StatusEdit;
    i := 0;
    if Retried(ReportOnce(key, work, tries[0], now)) && |tries| > 1 {
      i := ReportsOnLive(key, work, tries[1..], now);
      i := i + 1;
      assert forall j :: 1 <= j < i ==> tries[j] == tries[1..][j - 1];
    }
  }

  predicate Clean(key: Key, tries: seq<Try>) {
    forall i :: 0 <= i < |tries| ==>
      tries[i].latest.Success? && tries[i].writeFault.None? && key in tries[i].live.permissions
  }

  // With API calls succeeding, the status controller's update goes through exactly when one of
  // its reads saw the object that is live when its write arrives.
  lemma {:induction false} CommitsIfAnyReadCurrent(key: Key, work: ManifestWork, tries: seq<Try>, now: int)
    requires tries != [] && Clean(key, tries)
    ensures Reported(key, work, tries, now).error.None? <==>
            exists i :: 0 <= i < |tries| && tries[i].latest.value == tries[i].live.permissions[key]
  {
    hide StatusEdit;
    if |tries| > 1 {
      CommitsIfAnyReadCurrent(key, work, tries[1..], now);
      assert forall i :: 1 <= i < |tries| ==> tries[i] == tries[1..][i - 1];
    }
  }

  predicate FirstCurrent(key: Key, tries: seq<Try>, i: nat)
    requires i < |tries| && Clean(key, tries)
  {
    && tries[i].latest.value == tries[i].live.permissions[key]
    && forall j :: 0 <= j < i ==> tries[j].latest.value != tries[j].live.permissions[key]
  }

  // It then leaves the edit of the object that was live at the first such attempt.
  lemma {:induction false} FirstCurrentCommits(key: Key, work: ManifestWork, tries: seq<Try>, now: int, i: nat)
    requires i < |tries| && Clean(key, tries) && FirstCurrent(key, tries, i)
    ensures Reported(key, work, tries, now) == Effect(Refreshed(tries[i].live, key, work, now), None)
  {
    hide StatusEdit;
    if i > 0 {
      FirstCurrentCommits(key, work, tries[1..], now, i - 1);
    }
  }

  // What an attempt fails with that is not a conflict: a read error, or a write error.
  predicate FailsWith(t: Try, e: Error) {
    !e.Conflict? && (t.latest == Failure(e) || (t.latest.Success? && t.writeFault == Some(e)))
  }

  // Such a failure ends the attempts, all earlier ones having met a conflict.
  lemma {:induction false} FailureEndsAttempts(key: Key, work: ManifestWork, tries: seq<Try>, now: int,
                                               i: nat, e: Error)
    requires i < |tries| && Clean(key, tries[..i]) && FailsWith(tries[i], e)
    requires forall j :: 0 <= j < i ==> tries[..i][j].latest.value != tries[..i][j].live.permissions[key]
    ensures Reported(key, work, tries, now) == Effect(tries[i].live, Some(e))
  {
    hide StatusEdit;
    if i > 0 {
      assert tries[..i][0] == tries[0] && tries[1..][..i - 1] == tries[..i][1..];
      FailureEndsAttempts(key, work, tries[1..], now, i - 1, e);
    }
  }

  // --- The whole reconcile, case by case

  // A controlling owner is a ClusterPermission of this API that is marked as the controller.
  predicate Controls(owner: OwnerReference) {
    && owner.apiVersion == "rbac.open-cluster-management.io/v1alpha1"
    && owner.kind == "ClusterPermission"
    && owner.controller == Some(true)
  }

  // The first controlling owner's name.
  ghost predicate ControlledBy(work: ManifestWork, name: string) {
    exists i :: 0 <= i < |work.owners| && FirstControls(work.owners, i) && work.owners[i].name == name
  }

  predicate FirstControls(owners: seq<OwnerReference>, i: nat)
    requires i < |owners|
  {
    Controls(owners[i]) && forall j :: 0 <= j < i ==> !Controls(owners[j])
  }

  lemma {:induction false} OwnerNameExactly(owners: seq<OwnerReference>)
    ensures (forall i :: 0 <= i < |owners| ==> !Controls(owners[i])) ==> OwnerName(owners) == ""
    ensures forall i :: 0 <= i < |owners| && FirstControls(owners, i) ==> OwnerName(owners) == owners[i].name
  {
    if owners != [] {
      OwnerNameExactly(owners[1..]);
      assert IsControllerOwner(owners[0]) <==> Controls(owners[0]);
      hide IsControllerOwner, Controls;
      assert forall i :: 1 <= i < |owners| ==> owners[i] == owners[1..][i - 1];
    }
  }

  // A work that is gone is nothing to do; one that cannot be read is an error.
  lemma UnreadWorkReconciles(cache: Store, live: Store, request: Key, faults: Faults, tries: seq<Try>, now: int)
    requires tries != [] && (faults.getWork.Some? || request !in cache.works)
    ensures StatusReconciled(cache, live, request, faults, tries, now) ==
      if faults.getWork.Some? && !faults.getWork.value.NotFound? then Effect(live, faults.getWork)
      else Effect(live, None)
  {
    hide Reported;
  }

  // A work that no ClusterPermission controls, or one without a name, is nothing to do.
  lemma UncontrolledReconciles(cache: Store, live: Store, request: Key, faults: Faults, tries: seq<Try>, now: int)
    requires tries != [] && faults.getWork.None? && request in cache.works
    requires || ControlledBy(cache.works[request], "")
             || forall i :: 0 <= i < |cache.works[request].owners| ==> !Controls(cache.works[request].owners[i])
    ensures StatusReconciled(cache, live, request, faults, tries, now) == Effect(live, None)
  {
    hide Reported, OwnerName, Controls;
    OwnerNameExactly(cache.works[request].owners);
  }

  predicate ReadsWork(cache: Store, request: Key, faults: Faults, work: ManifestWork) {
    faults.getWork.None? && request in cache.works && cache.works[request] == work
  }

  // A controlled work leads to its owner, in the work's namespace. One that is gone or being deleted
  // is left alone, one that cannot be read is an error, and a live one gets the update.
  lemma ControlledReconciles(cache: Store, live: Store, request: Key, faults: Faults, tries: seq<Try>, now: int,
                             work: ManifestWork, name: string)
    requires tries != [] && ReadsWork(cache, request, faults, work) && ControlledBy(work, name) && name != ""
    ensures var key, e := Key(work.namespace, name), StatusReconciled(cache, live, request, faults, tries, now);
      if faults.getPermission.Some? then
        e == if faults.getPermission.value.NotFound? then Effect(live, None) else Effect(live, faults.getPermission)
      else if key !in cache.permissions || cache.permissions[key].deleting then e == Effect(live, None)
      else e == Reported(key, work, tries, now)
  {
    hide Reported, OwnerName, Controls;
    OwnerNameExactly(work.owners);
  }

  // So, with API calls succeeding and a live owner, the owner's status becomes the edit of the one
  // that is live at the first attempt whose read is current; without a current read the reconcile
  // returns a conflict and has written nothing.
  lemma LiveOwnerReconciles(cache: Store, live: Store, request: Key, faults: Faults, tries: seq<Try>, now: int,
                            work: ManifestWork, name: string)
    requires tries != [] && ReadsWork(cache, request, faults, work) && ControlledBy(work, name) && name != ""
    requires var key := Key(work.namespace, name);
      && faults.getPermission.None? && key in cache.permissions && !cache.permissions[key].deleting && Clean(key, tries)
    ensures var key, e := Key(work.namespace, name), StatusReconciled(cache, live, request, faults, tries, now);
      && (forall i :: 0 <= i < |tries| && FirstCurrent(key, tries, i) ==>
            e == Effect(Refreshed(tries[i].live, key, work, now), None))
      && ((forall i :: 0 <= i < |tries| ==> tries[i].latest.value != tries[i].live.permissions[key]) ==>
            e == Effect(tries[|tries| - 1].live, Some(Conflict(Permissions, key.name))))
  {
    hide Reported, ControlledBy, Refreshed, StatusReconciled;
    var key := Key(work.namespace, name);
    ControlledReconciles(cache, live, request, faults, tries, now, work, name);
    forall i | 0 <= i < |tries| && FirstCurrent(key, tries, i)
      ensures Reported(key, work, tries, now) == Effect(Refreshed(tries[i].live, key, work, now), None)
    {
      FirstCurrentCommits(key, work, tries, now, i);
    }
    if forall i :: 0 <= i < |tries| ==> tries[i].latest.value != tries[i].live.permissions[key] {
      NoneCurrentConflicts(key, work, tries, now);
    }
  }

  lemma {:induction false} NoneCurrentConflicts(key: Key, work: ManifestWork, tries: seq<Try>, now: int)
    requires tries != [] && Clean(key, tries)
    requires forall i :: 0 <= i < |tries| ==> tries[i].latest.value != tries[i].live.permissions[key]
    ensures Reported(key, work, tries, now) == Effect(tries[|tries| - 1].live, Some(Conflict(Permissions, key.name)))
  {
    hide StatusEdit;
    if |tries| > 1 {
      NoneCurrentConflicts(key, work, tries[1..], now);
    }
  }

  // --- Ownership

  // The watch maps a work built for a ClusterPermission to a request for that work, and the
  // reconcile of that request resolves to the object the work was built from, whatever has
  // become of the work's spec and status since.
  lemma OwnershipRoundTrip(cache: Store, cp: ClusterPermission, p: Payload, validate: bool)
    requires |cp.uid| >= 5 && cp.name != ""
    requires WorkKey(cp) in cache.works
    requires var stored, built := cache.works[WorkKey(cp)], WorkOf(cp, GenerateManifestWorkName(cp), p, validate);
      stored.name == built.name && stored.namespace == built.namespace && stored.owners == built.owners
    ensures var work := cache.works[WorkKey(cp)];
      && (exists i :: 0 <= i < |work.owners| && IsControllerOwner(work.owners[i]))
      && Key(work.namespace, work.name) == WorkKey(cp)
      && Resolve(cache, WorkKey(cp), NO_FAULTS) == Success(Some(Key(cp.namespace, cp.name)))
  {
    hide SpecOf, Encode, GenerateManifestWorkName;
    var work := cache.works[WorkKey(cp)];
    assert work.owners == [OwnedBy(cp)] && IsControllerOwner(work.owners[0]);
  }
}
