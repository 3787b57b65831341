/**
 Two controllers write the status of one ClusterPermission under optimistic concurrency. Every
 attempt is split into a read, possibly of an old version, and a commit that the server accepts
 only for the version that was read; attempts of both controllers, and edits of the spec by
 users, interleave freely.
 */
module StatusProtocol {
  import opened Prelude
  import opened Api
  import opened Conditions
  import opened Hub
  import opened Strings
  import opened RoleRefs
  import opened Works
  import opened StatusReport
  import opened Reconciler

  // Who made a version, and with what: the main controller records a refusal, the status
  // controller reports a work, and a user edits the spec, of which only the validate flag matters here.
  datatype Author =
    | User
    | Main(refusal: Refusal, now: int)
    | Reporter(work: ManifestWork, now: int)

  datatype Version = Version(status: Status, validate: bool, author: Author)

  // An attempt in flight. A recorder holds the object it once read: the version it carries
  // never changes, but each attempt edits its status in place. A reporter reads anew each time.
  datatype Attempt =
    | Recording(refusal: Refusal, at: nat, held: Status, conflicts: nat)
    | Reporting(work: ManifestWork, read: Option<nat>, conflicts: nat)

  // The resource version of the object is its index in the history.
  datatype State = State(namespace: string, history: seq<Version>, attempts: map<nat, Attempt>)
  {
    function Current(): Version
      requires history != []
    {
      history[|history| - 1]
    }
  }

  // --- The edits

  function Record(status: Status, refusal: Refusal, now: int): Status {
    status.(conditions := Set(status.conditions, ConditionOf(refusal), now))
  }

  function Edit(namespace: string, before: Version, author: Author): Status {
    match author
    case User => before.status
    case Main(refusal, now) => Record(before.status, refusal, now)
    case Reporter(work, now) => StatusEdit(before.status, before.validate, namespace, work, now)
  }

  // The server takes a status only for the current version; one that changes nothing makes no
  // new version.
  function Committed(s: State, id: nat, status: Status, author: Author): State
    requires s.history != []
  {
    if status == s.Current().status then s.(attempts := s.attempts - {id})
    else s.(history := s.history + [Version(status, s.Current().validate, author)], attempts := s.attempts - {id})
  }

  // --- The steps

  predicate Init(s: State) {
    |s.history| == 1 && s.history[0].status == Status([], None) && s.history[0].author == User && s.attempts == map[]
  }

  // A user changes the spec, which makes a new version with the same status.
  predicate UserStep(s: State, s': State) {
    s.history != [] && exists validate: bool :: s' == UserEdited(s, validate)
  }

  function UserEdited(s: State, validate: bool): State
    requires s.history != []
  {
    s.(history := s.history + [Version(s.Current().status, validate, User)])
  }

  // A main reconcile has read some version, old or new, and wants to record a refusal.
  predicate StartRecording(s: State, s': State, id: nat, refusal: Refusal, at: nat) {
    && at < |s.history| && id !in s.attempts
    && s' == s.(attempts := s.attempts[id := Recording(refusal, at, s.history[at].status, 0)])
  }

  // One try of the main controller: edit the held object, then ask the server to take it. On a
  // conflict the edited object is kept, with the version it was read at, for the next try.
  predicate TryRecording(s: State, s': State, id: nat, now: int) {
    && id in s.attempts && s.attempts[id].Recording? && s.history != []
    && var a := s.attempts[id];
       && a.conflicts < RETRY_STEPS
       && var edited := Record(a.held, a.refusal, now);
          if a.at == |s.history| - 1
          then s' == Committed(s, id, edited, Main(a.refusal, now))
          else s' == s.(attempts := s.attempts[id := a.(held := edited, conflicts := a.conflicts + 1)])
  }

  predicate StartReporting(s: State, s': State, id: nat, work: ManifestWork) {
    && id !in s.attempts
    && s' == s.(attempts := s.attempts[id := Reporting(work, None, 0)])
  }

  // The status controller reads before every try; a lagging cache may give it an old version.
  predicate ReadForReport(s: State, s': State, id: nat, at: nat) {
    && id in s.attempts && s.attempts[id].Reporting? && s.attempts[id].read.None? && at < |s.history|
    && s.attempts[id].conflicts < RETRY_STEPS
    && s' == s.(attempts := s.attempts[id := s.attempts[id].(read := Some(at))])
  }

  predicate TryReporting(s: State, s': State, id: nat, now: int) {
    && id in s.attempts && s.attempts[id].Reporting?
    && s.attempts[id].read.Some? && s.attempts[id].read.value < |s.history|
    && var a := s.attempts[id];
       var read := s.history[a.read.value];
       var edited := StatusEdit(read.status, read.validate, s.namespace, a.work, now);
       if a.read.value == |s.history| - 1
       then s' == Committed(s, id, edited, Reporter(a.work, now))
       else s' == s.(attempts := s.attempts[id := a.(read := None, conflicts := a.conflicts + 1)])
  }

  // Either controller may give an attempt up: its budget is spent, or it met another error.
  predicate GiveUp(s: State, s': State, id: nat) {
    id in s.attempts && s' == s.(attempts := s.attempts - {id})
  }

  ghost predicate Next(s: State, s': State) {
    || UserStep(s, s')
    || (exists id, refusal, at :: StartRecording(s, s', id, refusal, at))
    || (exists id, now :: TryRecording(s, s', id, now))
    || (exists id, work :: StartReporting(s, s', id, work))
    || (exists id, at :: ReadForReport(s, s', id, at))
    || (exists id, now :: TryReporting(s, s', id, now))
    || (exists id :: GiveUp(s, s', id))
  }

  ghost predicate IsRun(run: seq<State>) {
    && run != [] && Init(run[0])
    && forall i :: 0 <= i < |run| - 1 ==> Next(run[i], run[i + 1])
  }

  // --- No lost update

  // Every version is its author's edit of the version just before it.
  predicate Linear(s: State) {
    && s.history != []
    && s.history[0].status == Status([], None)
    && (forall i :: 1 <= i < |s.history| ==>
         s.history[i].status == Edit(s.namespace, s.history[i - 1], s.history[i].author))
    && (forall i :: 1 <= i < |s.history| && !s.history[i].author.User? ==>
         s.history[i].validate == s.history[i - 1].validate)
  }

  // An attempt that has met no conflict holds the status it read; one that has is behind for good.
  predicate Held(s: State, a: Attempt) {
    match a
    case Recording(_, at, held, conflicts) =>
      at < |s.history| && (if conflicts == 0 then held == s.history[at].status else at < |s.history| - 1)
    case Reporting(_, read, _) => read.Some? ==> read.value < |s.history|
  }

  predicate Inv(s: State) {
    Linear(s) && forall id :: id in s.attempts ==> Held(s, s.attempts[id])
  }

  // The history only grows, keeping what it held.
  predicate Extends(s: State, s': State) {
    s'.namespace == s.namespace && s.history <= s'.history
  }

  lemma HeldLater(s: State, s': State, a: Attempt)
    requires Held(s, a) && Extends(s, s')
    ensures Held(s', a)
  {
  }

  lemma CommitKeepsInv(s: State, id: nat, status: Status, author: Author)
    requires Inv(s) && status == Edit(s.namespace, s.Current(), author) && !author.User?
    ensures Inv(Committed(s, id, status, author)) && Extends(s, Committed(s, id, status, author))
  {
    hide Edit;
    var s' := Committed(s, id, status, author);
    forall k | k in s'.attempts ensures Held(s', s'.attempts[k]) {
      HeldLater(s, s', s.attempts[k]);
    }
  }

  lemma UserKeepsInv(s: State, validate: bool)
    requires Inv(s)
    ensures Inv(UserEdited(s, validate)) && Extends(s, UserEdited(s, validate))
  {
    hide Record, StatusEdit;
    var s' := UserEdited(s, validate);
    forall k | k in s'.attempts ensures Held(s', s'.attempts[k]) {
      HeldLater(s, s', s.attempts[k]);
    }
  }

  lemma TryRecordingKeepsInv(s: State, s': State, id: nat, now: int)
    requires Inv(s) && TryRecording(s, s', id, now)
    ensures Inv(s') && Extends(s, s')
  {
    hide Record, StatusEdit, Linear, Committed;
    var a := s.attempts[id];
    assert Held(s, a);
    if a.at == |s.history| - 1 {
      CommitKeepsInv(s, id, Record(a.held, a.refusal, now), Main(a.refusal, now));
    } else {
      SameHistoryKeepsLinear(s, s');
    }
  }

  lemma TryReportingKeepsInv(s: State, s': State, id: nat, now: int)
    requires Inv(s) && TryReporting(s, s', id, now)
    ensures Inv(s') && Extends(s, s')
  {
    hide Record, StatusEdit, Linear, Committed;
    var a := s.attempts[id];
    if a.read.value == |s.history| - 1 {
      CommitKeepsInv(s, id, StatusEdit(s.Current().status, s.Current().validate, s.namespace, a.work, now),
          Reporter(a.work, now));
    } else {
      SameHistoryKeepsLinear(s, s');
    }
  }

  lemma SameHistoryKeepsLinear(s: State, s': State)
    requires Linear(s) && s'.namespace == s.namespace && s'.history == s.history
    ensures Linear(s')
  {
  }

  lemma StepKeepsInv(s: State, s': State)
    requires Inv(s) && Next(s, s')
    ensures Inv(s') && Extends(s, s')
  {
    hide Linear, Committed, TryRecording, TryReporting, UserEdited;
    if UserStep(s, s') {
      var validate: bool :| s' == UserEdited(s, validate);
      UserKeepsInv(s, validate);
    } else if id, now :| TryRecording(s, s', id, now) {
      TryRecordingKeepsInv(s, s', id, now);
    } else if id, now :| TryReporting(s, s', id, now) {
      TryReportingKeepsInv(s, s', id, now);
    } else {
      SameHistoryKeepsLinear(s, s');
    }
  }

  // In every reachable state every committed status is its writer's edit of the status
  // committed just before it, whatever was read, however old, and however the tries interleave.
  lemma {:induction false} NoLostUpdate(run: seq<State>, i: nat)
    requires IsRun(run) && i < |run|
    ensures Inv(run[i])
  {
    hide Inv, Next;
    if i > 0 {
      NoLostUpdate(run, i - 1);
      StepKeepsInv(run[i - 1], run[i]);
    } else {
      assert Inv(run[0]) by {
        InitInv(run[0]);
      }
    }
  }

  lemma InitInv(s: State)
    requires Init(s)
    ensures Inv(s)
  {
  }

  // A main attempt that has met a conflict can never commit: none of its retries reads again,
  // so each of them carries a version that is no longer current.
  lemma RetryNeverCommits(run: seq<State>, i: nat, id: nat, now: int)
    requires IsRun(run) && i + 1 < |run| && TryRecording(run[i], run[i + 1], id, now)
    requires run[i].attempts[id].conflicts > 0
    ensures run[i + 1].history == run[i].history && id in run[i + 1].attempts
  {
    NoLostUpdate(run, i);
    assert Held(run[i], run[i].attempts[id]);
    hide Record, Linear, Committed;
  }

  // A report that meets a conflict forgets what it read, and as long as its budget lasts it can
  // still commit: by reading the current version and trying before anyone else writes.
  lemma ReportReadsAgain(s: State, s': State, id: nat, now: int)
    requires TryReporting(s, s', id, now) && s.attempts[id].read.value < |s.history| - 1
    ensures s'.history == s.history && id in s'.attempts && s'.attempts[id].Reporting? && s'.attempts[id].read == None
  {
    hide StatusEdit, Committed;
  }

  lemma ReportMayCommit(s: State, id: nat, now: int) returns (read: State, done: State)
    requires s.history != [] && id in s.attempts && s.attempts[id].Reporting?
    requires s.attempts[id].read == None && s.attempts[id].conflicts < RETRY_STEPS
    ensures ReadForReport(s, read, id, |s.history| - 1) && TryReporting(read, done, id, now)
    ensures done.history != [] && id !in done.attempts
    ensures done.Current().status ==
            StatusEdit(s.Current().status, s.Current().validate, s.namespace, s.attempts[id].work, now)
  {
    hide StatusEdit;
    var a := s.attempts[id];
    read := s.(attempts := s.attempts[id := a.(read := Some(|s.history| - 1))]);
    done := Committed(read, id, StatusEdit(s.Current().status, s.Current().validate, s.namespace, a.work, now),
                      Reporter(a.work, now));
  }

  // --- What an edit touches

  // The conditions an author sets, in order, on the version before its own.
  function Updates(namespace: string, before: Version, author: Author): seq<Condition> {
    match author
    case User => []
    case Main(refusal, _) => [ConditionOf(refusal)]
    case Reporter(work, _) =>
      [AppliedWorkCondition(namespace, work)]
        + if before.validate && Find(work.status.conditions, APPLIED).Some?
          then [RolesCondition(WrittenEach(Missing(work.status.manifests, ROLE))),
                ClusterRolesCondition(WrittenEach(Missing(work.status.manifests, CLUSTER_ROLE)))]
          else []
  }

  function Time(author: Author): int {
    match author
    case User => 0
    case Main(_, now) => now
    case Reporter(_, now) => now
  }

  function SetAll(conditions: seq<Condition>, updates: seq<Condition>, now: int): seq<Condition>
    decreases updates
  {
    if updates == [] then conditions else SetAll(Set(conditions, updates[0], now), updates[1..], now)
  }

  lemma EditSetsUpdates(namespace: string, before: Version, author: Author)
    ensures Edit(namespace, before, author).conditions ==
            SetAll(before.status.conditions, Updates(namespace, before, author), Time(author))
    ensures !author.Reporter? ==> Edit(namespace, before, author).resourceStatus == before.status.resourceStatus
  {
    hide Set, AppliedWorkCondition, RolesCondition, ClusterRolesCondition, ConditionOf, ResourceStatusOf;
    var conditions, updates, now := before.status.conditions, Updates(namespace, before, author), Time(author);
    if |updates| == 1 {
      assert SetAll(Set(conditions, updates[0], now), [], now) == Set(conditions, updates[0], now);
    } else if |updates| == 3 {
      var once := Set(conditions, updates[0], now);
      var twice := Set(once, updates[1], now);
      assert updates[1..] == [updates[1], updates[2]] && updates[1..][1..] == [updates[2]];
      assert SetAll(twice, [updates[2]], now) == Set(twice, updates[2], now);
    }
  }

  // Types that are not set are kept exactly.
  lemma {:induction false} SetAllKeeps(conditions: seq<Condition>, updates: seq<Condition>, now: int, kind: string)
    requires kind !in Kinds(updates)
    ensures Find(SetAll(conditions, updates, now), kind) == Find(conditions, kind)
    decreases updates
  {
    hide Set, Find;
    if updates != [] {
      assert Kinds(updates) == [updates[0].kind] + Kinds(updates[1..]);
      FindAfterSet(conditions, updates[0], now, kind);
      SetAllKeeps(Set(conditions, updates[0], now), updates[1..], now, kind);
    }
  }

  // The list of types grows at its end, stays free of repetitions and gains only types that are set.
  lemma {:induction false} SetAllKinds(conditions: seq<Condition>, updates: seq<Condition>, now: int)
    ensures Kinds(conditions) <= Kinds(SetAll(conditions, updates, now))
    ensures Distinct(Kinds(conditions)) ==> Distinct(Kinds(SetAll(conditions, updates, now)))
    ensures forall k :: k in Kinds(SetAll(conditions, updates, now)) ==> k in Kinds(conditions) || k in Kinds(updates)
    decreases updates
  {
    hide Set;
    if updates != [] {
      assert Kinds(updates) == [updates[0].kind] + Kinds(updates[1..]);
      KindsAfterSet(conditions, updates[0], now);
      SetAllKinds(Set(conditions, updates[0], now), updates[1..], now);
      hide Kinds;
    }
  }

  // A condition's time moves if and only if its status does, and then to the time of the edit.
  predicate TimeFollowsStatus(before: Option<Condition>, after: Option<Condition>, now: int) {
    before.Some? ==>
      && after.Some?
      && after.value.transitionTime ==
         if after.value.status == before.value.status then before.value.transitionTime else now
  }

  lemma {:induction false} SetAllTimes(conditions: seq<Condition>, updates: seq<Condition>, now: int, kind: string)
    requires Distinct(Kinds(updates))
    ensures TimeFollowsStatus(Find(conditions, kind), Find(SetAll(conditions, updates, now), kind), now)
    decreases updates
  {
    hide Set, Find;
    if updates != [] {
      assert Kinds(updates) == [updates[0].kind] + Kinds(updates[1..]);
      var rest := Set(conditions, updates[0], now);
      FindAfterSet(conditions, updates[0], now, kind);
      assert Distinct(Kinds(updates[1..])) by {
        forall i, j | 0 <= i < j < |updates[1..]| ensures Kinds(updates[1..])[i] != Kinds(updates[1..])[j] {
          assert Kinds(updates)[i + 1] != Kinds(updates)[j + 1];
        }
      }
      if updates[0].kind == kind {
        assert kind !in Kinds(updates[1..]) by {
          forall j | 0 <= j < |updates[1..]| ensures Kinds(updates[1..])[j] != kind {
            assert Kinds(updates)[0] != Kinds(updates)[j + 1];
          }
        }
        SetAllKeeps(rest, updates[1..], now, kind);
      } else {
        SetAllTimes(rest, updates[1..], now, kind);
      }
    }
  }

  predicate TopLevelType(kind: string) {
    || kind == APPLIED_RBAC_MANIFEST_WORK || kind == VALIDATION
    || kind == VALIDATE_ROLES_EXIST || kind == VALIDATE_CLUSTER_ROLES_EXIST
  }

  lemma TypesDiffer()
    ensures APPLIED_RBAC_MANIFEST_WORK != VALIDATE_ROLES_EXIST
    ensures APPLIED_RBAC_MANIFEST_WORK != VALIDATE_CLUSTER_ROLES_EXIST
    ensures VALIDATE_ROLES_EXIST != VALIDATE_CLUSTER_ROLES_EXIST
  {
    assert VALIDATE_ROLES_EXIST[8] != VALIDATE_CLUSTER_ROLES_EXIST[8];
    assert APPLIED_RBAC_MANIFEST_WORK[0] != VALIDATE_ROLES_EXIST[0];
  }

  lemma UpdateKinds(namespace: string, before: Version, author: Author)
    ensures Distinct(Kinds(Updates(namespace, before, author)))
    ensures forall k :: k in Kinds(Updates(namespace, before, author)) ==> TopLevelType(k)
  {
    hide CheckHint, WrittenEach, Missing, Find, Join, Message;
    TypesDiffer();
  }

  // What one version is to the one before it.
  ghost predicate Follows(namespace: string, before: Version, after: Version) {
    var c, c' := before.status.conditions, after.status.conditions;
    && Kinds(c) <= Kinds(c')
    && (forall kind :: TimeFollowsStatus(Find(c, kind), Find(c', kind), Time(after.author)))
    && (forall kind :: kind !in Kinds(Updates(namespace, before, after.author)) ==> Find(c', kind) == Find(c, kind))
    && (!after.author.Reporter? ==> after.status.resourceStatus == before.status.resourceStatus)
  }

  lemma EditFollows(namespace: string, before: Version, after: Version)
    requires after.status == Edit(namespace, before, after.author)
    ensures Follows(namespace, before, after)
    ensures Distinct(Kinds(before.status.conditions)) ==> Distinct(Kinds(after.status.conditions))
    ensures forall k :: k in Kinds(after.status.conditions) ==> k in Kinds(before.status.conditions) || TopLevelType(k)
  {
    hide Updates, Edit, Kinds, Find, SetAll, TopLevelType;
    var updates, now := Updates(namespace, before, after.author), Time(after.author);
    EditSetsUpdates(namespace, before, after.author);
    UpdateKinds(namespace, before, after.author);
    SetAllKinds(before.status.conditions, updates, now);
    forall kind
      ensures TimeFollowsStatus(Find(before.status.conditions, kind), Find(after.status.conditions, kind), now)
    {
      SetAllTimes(before.status.conditions, updates, now, kind);
    }
    forall kind | kind !in Kinds(updates)
      ensures Find(after.status.conditions, kind) == Find(before.status.conditions, kind)
    {
      SetAllKeeps(before.status.conditions, updates, now, kind);
    }
  }

  // The condition list over every run: in every version of every reachable state each type
  // occurs at most once and is one of the four top-level ones, and each version follows the
  // one before it: no type disappears, a time moves exactly when its status flips, types the
  // author does not set are kept exactly, and only the status controller touches the resource status.
  lemma {:induction false} ConditionHistory(run: seq<State>, i: nat, v: nat)
    requires IsRun(run) && i < |run| && v < |run[i].history|
    ensures Distinct(Kinds(run[i].history[v].status.conditions))
    ensures forall k :: k in Kinds(run[i].history[v].status.conditions) ==> TopLevelType(k)
    ensures v > 0 ==> Follows(run[i].namespace, run[i].history[v - 1], run[i].history[v])
    decreases v
  {
    hide Next, Init, Follows, Edit, TopLevelType, Held;
    NoLostUpdate(run, i);
    if v > 0 {
      ConditionHistory(run, i, v - 1);
      EditFollows(run[i].namespace, run[i].history[v - 1], run[i].history[v]);
    }
  }
}
