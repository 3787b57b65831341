# Verified model of the ClusterPermission controllers

A ClusterPermission lives in a managed cluster's namespace on a hub cluster and describes RBAC
objects wanted on that managed cluster. The main controller compiles it into a ManifestWork, which
an agent applies and reports on; the status controller turns the report into the ClusterPermission's
status. This project models both controllers, the informer that reacts to changes of the
managed-serviceaccount addon, and the deep copies the status writers rely on, and proves what they
guarantee over all inputs and all runs.

## How it is laid out

| file | what it holds |
|---|---|
| `Prelude.dfy`, `Strings.dfy`, `Types.dfy` | options and sequences; joining and splitting names; RBAC and API types, condition lists, the world the compiler reads |
| `Subjects.dfy`, `RoleRefs.dfy`, `Payload.dfy` | the compiler: subjects, role references, the payload with its early exits |
| `PayloadProperties.dfy` | what a compile depends on: addons, listing order, overridden bindings |
| `PayloadContents.dfy` | what each emitted object is and which error a refused spec has, said of the spec and the world alone |
| `Works.dfy` | building a ManifestWork, validation stubs, names and owners |
| `Reconciler.dfy`, `ReconcileCases.dfy`, `Confluence.dfy`, `History.dfy` | the main reconcile, its cases one by one, and runs of it in a fixed and in a changing world |
| `StatusReport.dfy`, `StatusReconciler.dfy`, `StatusProtocol.dfy` | the status edit, the status controller, and both writers interleaved |
| `AddonInformer.dfy`, `AddonTrigger.dfy`, `AddonTriggerLimits.dfy` | filter, queue and worker; no missed recompile, and what that needs |
| `DeepCopy.dfy`, `SpecCopy.dfy` | copies on the heap |

Loops and state changes of the source are methods and class methods with loops, each proved equal to
a specification function in closed form. What such a function gives is then stated without it, in
terms of the inputs alone (`PayloadContents`, `ReconcileCases`, the `Built...`, `...Tells` and
`...Reconciles` lemmas), and the other lemmas build on both. `World` is one value
holding everything the compiler reads (managed clusters, service accounts, addons, namespaces by
selector), so properties can compare two worlds. A nil list is `None` and an empty one `Some([])`
where the source tells them apart.

`dafny verify dfyconfig.toml` checks everything.

## What is assumed of libraries

- `SetStatusCondition` and `FindStatusCondition` (module `Conditions`): the first condition of a
  type is found; setting revises it in place, moving its time only when its status changes, or
  appends a new one.
- The work queue (`AddonInformer.Queue`): adding coalesces, a key being processed waits until it is
  done, and `Get` returns a waiting key or, once shut down with none left, says so.
- The API server accepts an update only for the version that was read, and an update that changes
  nothing makes no new version. `StatusProtocol` counts versions; the stores of `Reconciler` and
  `StatusReconciler` compare the object that was read with the live one, which stands for its version.
- A stored ManifestWork holds its manifests as raw bytes (`Decoded`), a freshly built one as typed
  objects (`Built`); both carry the same contents.
- UIDs have at least five characters. Where a lemma needs namespaces without a colon it says so;
  they are DNS labels (section 2.1 of RFC 1123).

## What the code does that its comments do not say

- The tests that skip a status write compare a value with a pointer
  (`controllers/clusterpermission_controller.go:323`,
  `controllers/clusterpermission_status_controller.go:176` and `:201`), so they never skip. The test
  at `controllers/clusterpermission_controller.go:294` compares built with decoded manifests and skips
  only for a work without manifests (`SkipOnlyWhenEmpty`). Fixpoints are therefore about stored
  contents, not about the number of requests.
- `updateStatus` retries on conflict without reading again, so no retry of it can ever commit
  (`RetryNeverCommits`, `RetriesAddNothing`). `updateClusterPermissionStatus` does read again, and commits exactly when one
  of its reads is current (`CommitsIfAnyReadCurrent`).
- An addon change can be missed. Compiles read the addon through the manager's cache, which is not the
  informer's indexer, and the two reconcile loops can work on one object at once, so that the compile
  that lands last need not be the one that started last. For every run, `MissedExactly` says when an
  object with nothing pending is up to date, which means that its landed payload or error is what the
  present object compiles to with the present addon, the rest of the world being as that compile found
  it (changes there trigger no recompile and do not count): what landed last must compile to the same
  as what started last, with the addon the indexer held then. `MissedClosed` puts that in closed form where the landed
  compile was of the present object, as it always is when the loops stay apart
  (`MissedExactlyApart`): it failed, or the addon that was read has the effective namespace of the one
  that was indexed, or the object emits no managed subject. `NeverMissed` gives three assumptions that exclude
  a miss; `StaleReadMisses`, `OverlapMisses` and `SkippedVersionMisses` are runs showing that none of
  the three can be dropped.
- The manager's cache resyncs every ten hours (`main.go:143`) and queues every ClusterPermission again.
  `ResyncRepairs` says what that repairs: if the loops stay apart, and after a resync the namespace's
  addon does not change and every compile of the object reads its last version, the object is up to
  date whenever it has nothing pending. A compile after the resync that reads an older version can
  miss again.
- Two role references whose namespace and name join to the same text share a deduplication key
  (`ColonLosesReference`); `DedupExact` says exactly when nothing is lost.
- Setting a validate flag adds read-only stubs to the one ManifestWork; there is no separate work for
  validation, although `api/v1alpha1/clusterpermission_types.go:34-36` speaks of one.

## Model

| member | source | states |
|---|---|---|
| Subjects.ValidateSubject | controllers/clusterpermission_controller.go:333-352 | The account of every managed subject is looked up in turn; the error is that of the first one that cannot be read, and there is none otherwise. |
| Subjects.SubjectChecksPass | controllers/clusterpermission_controller.go:333-400 | A subject list passes if and only if every managed subject has an account and, when there is a managed subject, the addon can be read. |
| Subjects.GenerateSubjects | controllers/clusterpermission_controller.go:368-400 | The loop that caches the addon namespace equals mapping each subject on its own, also when that namespace is empty; it fails exactly when a managed subject exists and the addon cannot be read; no managed subject is left. |
| RoleRefs.ExtractRoleReferencesForValidation | controllers/helper.go:42-108 | The three loops sharing one map of seen keys return the first occurrences, by key, of all references in spec order. |
| RoleRefs.ReferencesExactly | controllers/helper.go:42-108 | The references of a spec are those of the singular cluster binding, of the plural ones and of the role bindings: a ClusterRole wherever one is named, a Role only where a namespace places the binding. |
| RoleRefs.ReferencesInOrder | controllers/helper.go:46-105 | A binding added at the end adds its reference at the end, role bindings after all cluster bindings. |
| RoleRefs.OccurrencesAreFirst | controllers/helper.go:43-105 | Deduplication keeps, in order, exactly the elements that no earlier one shares its key with. |
| RoleRefs.ExtractedNeverRepeats | controllers/helper.go:42-108 | No reference is extracted twice and none is invented, whatever the names are. |
| RoleRefs.CollisionLosesOne | controllers/helper.go:80-93 | Of two different references with the same key at most one is extracted. |
| RoleRefs.DedupExact | controllers/helper.go:42-108 | The string-keyed list equals deduplication by (kind, namespace, name) if and only if no two references of the spec collide. |
| RoleRefs.LabelsNeverCollide | controllers/helper.go:80-93 | Without a colon in any namespace no two references collide. |
| RoleRefs.UncollidedExtracted | controllers/helper.go:42-108 | A reference that collides with no other one of the spec is extracted exactly once. |
| RoleRefs.ExtractedOnce | controllers/helper.go:42-108 | Every ClusterRole reference is extracted exactly once, and without a colon in any namespace every Role reference too. |
| RoleRefs.ColonLosesReference | controllers/helper.go:80-93 | A family of specs with a colon in a namespace, each of which loses a reference. |
| Payload.GenerateClusterRoleBinding | controllers/clusterpermission_controller.go:471-508 | One cluster binding: its subject checks in order, then explicit or defaulted name and role reference with translated subjects. |
| Payload.GenerateClusterRoleBindings | controllers/clusterpermission_controller.go:426-510 | One binding per effective entry, in order: the plural list if it has entries, otherwise the singular one; or the first failing check. |
| Payload.GenerateRole | controllers/clusterpermission_controller.go:514-566 | One role for a namespace, one per listed namespace for a selector; exactly one of the two must be given and a nil listing is refused while an empty one is not. |
| Payload.GenerateRoles | controllers/clusterpermission_controller.go:512-567 | The roles are the in-order concatenation of the entries' blocks, or the first failing check. |
| Payload.GenerateSelectedRoleBindings | controllers/clusterpermission_controller.go:597-623 | Bindings placed by a selector: one per namespace with default names, subjects checked only if a namespace is listed. |
| Payload.GenerateNamespacedRoleBinding | controllers/clusterpermission_controller.go:624-670 | A binding placed by its namespace: subject errors before a role reference with only one of API group and name. |
| Payload.GenerateRoleBinding | controllers/clusterpermission_controller.go:571-671 | One entry in full: placement, listing, subjects and role reference are checked in this order. |
| Payload.GenerateRoleBindings | controllers/clusterpermission_controller.go:569-672 | The role bindings are the in-order concatenation of the entries' blocks, or the first failing check. |
| Payload.GenerateManifestWorkPayload | controllers/clusterpermission_controller.go:403-679 | The compiler, with all its loops and early exits, equals flattening the spec entry by entry, unless a check fails; references are extracted exactly when validating. |
| Payload.RoleBindingChecksPass | controllers/clusterpermission_controller.go:571-671 | When one role binding entry is accepted, in closed form. |
| Payload.AcceptsExactly | controllers/clusterpermission_controller.go:403-679 | Compilation succeeds if and only if: effective cluster bindings resolve, every entry has exactly one of namespace and selector, selectors resolve, subjects of emitted role bindings resolve, and namespaced role references give both API group and name or neither. |
| Payload.FailsWithFirst | controllers/clusterpermission_controller.go:426-672 | Otherwise the error is that of a check before which, in code order, every check passes. |
| PayloadContents.TranslatedStand | controllers/clusterpermission_controller.go:354-400 | The list of subjects is used if it has any, else the single one; a managed service account becomes the ServiceAccount of its name in the addon's status namespace, or its install namespace if that is empty; anything else stays. |
| PayloadContents.CompiledClusterRole | controllers/clusterpermission_controller.go:412-424 | The cluster role is there if the spec gives one, with its owner's name and the spec's rules. |
| PayloadContents.CompiledClusterBindings | controllers/clusterpermission_controller.go:426-510 | One binding for each plural entry, or for the singular one if there is none, with the entry's name and role reference or the defaults, and its subjects. |
| PayloadContents.CompiledRoles | controllers/clusterpermission_controller.go:512-567 | The roles are, entry after entry, one for each namespace of the entry, with the owner's name and the entry's rules. |
| PayloadContents.CompiledRoleBindings | controllers/clusterpermission_controller.go:569-672 | The role bindings are, entry after entry, one for each namespace of the entry; each keeps the kind its entry refers to, and has the entry's name and role where a namespace places it and they are given, otherwise the owner's name and the RBAC group. |
| PayloadContents.SubjectsFailExactly | controllers/clusterpermission_controller.go:333-400 | A subject list fails with its first missing account, and with the addon's error only if all accounts are there. |
| PayloadContents.RoleBindingFailsExactly | controllers/clusterpermission_controller.go:571-671 | A role binding entry fails by placement, then listing, then subjects, then a half-given role reference, each with its own error. |
| PayloadContents.FailsExactly | controllers/clusterpermission_controller.go:426-672 | A spec is refused with an error if and only if that is the error of the first failing cluster binding, or, all of these passing, of the first failing role, or, these passing too, of the first failing role binding. |
| PayloadProperties.UsesManagedExactly | controllers/clusterpermission_controller.go:682-731 | The search looks for a managed service account in either subject field of any binding of the three fields. |
| PayloadProperties.ClusterPermissionUsesManagedServiceAccount | controllers/clusterpermission_controller.go:682-731 | The search returns true exactly when some binding, overridden or not, has a managed subject in either subject field. |
| PayloadProperties.EmittedIsUsed | controllers/clusterpermission_controller.go:682-718 | The search misses no binding whose managed subjects are really emitted. |
| PayloadProperties.CompileUnaffected | controllers/clusterpermission_controller.go:368-679 | In two worlds that differ only in addons, the same payload or the same error results if no emitted binding is managed, or the addon lookup fails alike, or the effective namespace is the same. |
| PayloadProperties.TriggerSound | controllers/clusterpermission_controller.go:682-718 | If the search finds nothing, or the effective addon namespace is the same, skipping a recompile changes nothing. |
| PayloadProperties.DependenceExact | controllers/clusterpermission_controller.go:368-679 | With two different effective namespaces, an accepted spec compiles alike if and only if it emits no managed subject. |
| PayloadProperties.FailureAnyAddon | controllers/clusterpermission_controller.go:368-679 | A spec that fails to compile with one addon fails with the same error with any other. |
| PayloadProperties.AddonChangeExact | controllers/clusterpermission_controller.go:368-679 | A spec that compiles with one addon compiles to the same with another if and only if their effective namespaces are equal or it emits no managed subject. |
| PayloadProperties.SameInputsCompileAlike | controllers/clusterpermission_controller.go:403-679 | Only name, namespace and effective entries are compiled; status and UID have no influence. |
| PayloadProperties.PluralReplacesSingular | controllers/clusterpermission_controller.go:426-510 | With a plural list that has entries, replacing the singular binding by any other changes neither payload nor error. |
| PayloadProperties.OrderInsensitive | controllers/clusterpermission_controller.go:513-672 | Permuting any selector's listing changes no check, error, cluster-scoped object or reference; each entry's block is permuted within itself, and a block without a selector does not change. |
| Works.BuildManifestWork | controllers/helper.go:111-209 | Manifests in order: cluster role, cluster bindings, roles, role bindings, stubs; configs for the stubs; one controlling owner. |
| Works.BuiltObjects | controllers/helper.go:121-141 | The manifest at each offset is the compiled object of that place, unchanged: cluster role, cluster bindings, roles, role bindings. |
| Works.BuiltStubs | controllers/helper.go:143-190 | After them comes, when validating, one empty object for each reference with a ReadOnly option for its group, resource, name and namespace; otherwise nothing. |
| Works.BuiltOwner | controllers/helper.go:192-208 | The work has its name, its owner's namespace, and one controlling owner: the very object, by name and UID. |
| Works.ValidationAligned | controllers/helper.go:143-190 | When validating, the j-th stub after the compiled manifests and the j-th config both identify the j-th reference, read-only; otherwise there are neither. |
| Works.ClusterBindingCovered | controllers/helper.go:47-76 | Every emitted cluster binding with an explicit cluster role has exactly one stub, whatever the namespaces are. |
| Works.RoleBindingCovered | controllers/helper.go:79-105 | Every role binding emitted for a namespace with an explicit role has exactly one stub of the role it binds: a ClusterRole always, a Role if no namespace of the spec holds a colon. |
| Works.WorkNameParts | controllers/helper.go:37-39 | A work name reads as the owner's name, a dash, and the first five characters of its UID. |
| Works.WorkNameInjective | controllers/helper.go:37-39 | Work names agree if and only if the owner's name and the five-character UID prefix do. |
| Works.FindClusterPermissionForManifestWork | controllers/clusterpermission_status_controller.go:51-75 | A work gives a request for itself exactly when some owner is a controlling ClusterPermission. |
| Works.FindOwnerName | controllers/clusterpermission_status_controller.go:100-109 | The name of the first controlling ClusterPermission, or nothing. |
| Strings.JoinStrings | controllers/helper.go:212-225 | The loop growing from the left equals the recursive join. |
| Strings.JoinReadable | controllers/helper.go:212-225 | A joined list splits back to itself if and only if no element holds a comma and a space. |
| Reconciler.ClusterPermissionReconciler.UpdateStatus | controllers/clusterpermission_controller.go:315-329 | The attempts in turn, each meeting what others have made of the store by then, all offer one and the same edit of the object that was read once. |
| Reconciler.RetriesAddNothing | controllers/clusterpermission_controller.go:317-328 | With API calls succeeding, the update goes through if and only if the object is still the one that was read at the first attempt. |
| Reconciler.ClusterPermissionReconciler.ApplyWork | controllers/clusterpermission_controller.go:283-310 | Creates, updates or keeps the work, or returns the error, with the whole new store. |
| Reconciler.ClusterPermissionReconciler.Reconcile | controllers/clusterpermission_controller.go:191-311 | The reconcile equals a judgement on the object and the world followed by at most one conditional write, others being free to write between the attempts of a status update. |
| Reconciler.VerdictExact | controllers/clusterpermission_controller.go:206-281 | Ignored if being deleted; refused without a binding; refused outside a managed cluster, aborted if that cannot be told; refused with the compile error if not accepted; otherwise the compiled work is applied, validated exactly if the spec asks. |
| Reconciler.FaultEndsAttempts | controllers/clusterpermission_controller.go:317-328 | Any error but a conflict ends the attempts at the first. |
| ReconcileCases.UnreadReconciles | controllers/clusterpermission_controller.go:196-204 | An object that is gone is nothing to do; one that cannot be read is that error. |
| ReconcileCases.DeletingReconciles | controllers/clusterpermission_controller.go:206-209 | An object being deleted changes nothing. |
| ReconcileCases.NoBindingReconciles | controllers/clusterpermission_controller.go:213-229 | A live object without a binding has Validation recorded as False, and nothing else changes. |
| ReconcileCases.NotInClusterReconciles | controllers/clusterpermission_controller.go:231-247 | So has one outside any managed cluster's namespace. |
| ReconcileCases.UnreadableReconciles | controllers/clusterpermission_controller.go:249-251 | A managed cluster that cannot be read ends the reconcile with that error. |
| ReconcileCases.UnacceptedReconciles | controllers/clusterpermission_controller.go:262-277 | An object that is not accepted has AppliedRBACManifestWork recorded as False with the compile error, no work is touched, and the error returned is only that of the status write. |
| ReconcileCases.UnplacedText | controllers/clusterpermission_controller.go:515-518 | The recorded text of an entry with neither namespace nor selector, for roles and role bindings. |
| ReconcileCases.AmbiguousText | controllers/clusterpermission_controller.go:519-522 | The recorded text of an entry with both. |
| ReconcileCases.NoneSelectedText | controllers/clusterpermission_controller.go:535-538 | The recorded text of a nil listing. |
| ReconcileCases.HalfGivenTexts | controllers/clusterpermission_controller.go:650-656 | The recorded texts of a role reference with only one of API group and name, with the namespace in them. |
| ReconcileCases.FailureText | controllers/clusterpermission_controller.go:267-274 | An API error is recorded with its own text. |
| ReconcileCases.AcceptedReconciles | controllers/clusterpermission_controller.go:279-310 | An accepted object has its work created, or the spec alone of the one found replaced; every failing write surfaces and changes nothing. |
| Reconciler.AtOneMoment | controllers/clusterpermission_controller.go:191-329 | Whatever others write between its attempts, a reconcile is one atomic step at one moment. |
| Confluence.SkipOnlyWhenEmpty | controllers/clusterpermission_controller.go:293-304 | A stored spec equals a freshly built one if and only if both have no manifests and the same configs. |
| Confluence.StepSettles | controllers/clusterpermission_controller.go:191-311 | A step fails exactly when the managed cluster of a live object with a binding cannot be read, and otherwise leaves precisely the settled contents, whichever branch it takes. |
| Confluence.StepFixpoint | controllers/clusterpermission_controller.go:191-311 | Repeating a successful reconcile, at any time, changes nothing, condition times included. |
| Confluence.WritersDistinct | controllers/helper.go:37-39 | Two live ClusterPermissions never write to the same work. |
| Confluence.RunAt | controllers/clusterpermission_controller.go:191-311 | After any run, every visited object and its work are settled, and everything else is as it was. |
| Confluence.Confluent | controllers/clusterpermission_controller.go:191-311 | In an unchanging world any two runs that cover the live objects, in any order with repeats, end in the same works and the same statuses up to times. |
| Confluence.CoveredFixed | controllers/clusterpermission_controller.go:191-311 | After a covering run any further reconciles leave every stored object exactly as it is. |
| History.OneWrite | controllers/clusterpermission_controller.go:191-311 | A reconcile that returns an error has written nothing; any other has written at most one object, with exactly the stated contents. |
| History.WriteCompiled | controllers/clusterpermission_controller.go:262-301 | Whatever work a step creates, or whatever work spec it changes, is the compilation of the object and world it read, which was live, had a binding and lay in a managed cluster's namespace. |
| History.EveryWorkAccounted | controllers/clusterpermission_controller.go:191-311 | In every state of every run with stale caches and an arbitrary environment, each stored work spec was there at the start or was compiled from an earlier snapshot. |
| History.ControllerKeepsWorks | controllers/clusterpermission_controller.go:191-311 | The controller never removes a work and neither adds nor removes a ClusterPermission. |
| StatusReport.BuildResourceStatus | controllers/clusterpermission_status_controller.go:269-305 | One pass over the reports yields the four per-kind projections, in report order. |
| StatusReport.ReportsConserved | controllers/clusterpermission_status_controller.go:269-305 | The four lengths sum to the number of reports of an RBAC kind. |
| StatusReport.MissingMeaning | controllers/clusterpermission_status_controller.go:214-230 | A report is missing if and only if it is of the kind and has no Available condition that is True. |
| StatusReport.UpdateValidateConditions | controllers/clusterpermission_status_controller.go:211-267 | The two lists the loop collects become exactly the two role conditions. |
| StatusReport.ValidateExact | controllers/clusterpermission_status_controller.go:211-267 | Each role condition is True if and only if every report of its kind is available; otherwise its message, after its prefix, splits back into exactly the missing objects in order if and only if none of them holds a comma and a space. |
| StatusReport.WrittenRoleReadable | controllers/clusterpermission_status_controller.go:226-226 | Without a slash in namespaces a written role determines its namespace and name. |
| StatusReport.EditStatus | controllers/clusterpermission_status_controller.go:164-205 | The whole edit; without an Applied condition only one condition is set and the old resource status stays. |
| StatusReport.AppliedConditionTells | controllers/clusterpermission_status_controller.go:308-334 | An entry's condition has the status and time of the reported Applied condition, and its message if that is not True; it is False when there is none. |
| StatusReport.ResourceStatusLists | controllers/clusterpermission_status_controller.go:269-305 | Each of the four lists is exactly the reports of its kind, in order, each with its name, namespace and one condition. |
| StatusReport.MissingList | controllers/clusterpermission_status_controller.go:214-230 | The written objects are exactly the reports of the kind without Available=True, in order, roles with their namespace. |
| StatusReport.ValidateTells | controllers/clusterpermission_status_controller.go:232-264 | Both role conditions with their status, reason and message, no other type changed. |
| StatusReport.EditTells | controllers/clusterpermission_status_controller.go:164-205 | With an Applied condition the resource status is present and lists the reports, and the role conditions are set where validation is asked for; without one the old resource status stays; the overall condition has the work's Applied status and reason, and is False without one. |
| StatusReport.EditRoundTrip | controllers/clusterpermission_status_controller.go:199-205 | The round trip below holds of the status the edit leaves, whatever was there before. |
| StatusReport.ReportRoundTrip | controllers/clusterpermission_status_controller.go:269-305 | If the agent reports every manifest of a compiled work in order, the four lists are the compiled objects of their kind, in order, followed by the stubs of that kind. |
| StatusProtocol.StepKeepsInv | controllers/clusterpermission_status_controller.go:154-207 | Every read, commit, retry, user edit and give-up keeps the history linear and every attempt tied to the version it read. |
| StatusProtocol.NoLostUpdate | controllers/clusterpermission_controller.go:315-329 | Under every interleaving with stale reads, each committed status is its writer's edit of the status committed just before it. |
| StatusProtocol.RetryNeverCommits | controllers/clusterpermission_controller.go:317-328 | A main attempt that has met one conflict never commits. |
| StatusProtocol.ReportMayCommit | controllers/clusterpermission_status_controller.go:154-207 | A status controller's attempt that has met conflicts commits after a current read, as long as its budget lasts. |
| StatusProtocol.ReportReadsAgain | controllers/clusterpermission_status_controller.go:154-162 | After a conflict it has nothing read and reads again. |
| StatusProtocol.EditSetsUpdates | controllers/clusterpermission_status_controller.go:164-199 | An edit sets exactly its author's condition types in order, and only the status controller changes the resource status. |
| StatusProtocol.ConditionHistory | api/v1alpha1/clusterpermission_types.go:25-28 | In every version of every run from an empty status each type occurs once and is one of the four; no type disappears, a time moves exactly when its status flips, and types the author does not set are kept. |
| StatusReconciler.ClusterPermissionStatusReconciler.UpdateClusterPermissionStatus | controllers/clusterpermission_status_controller.go:150-208 | The retry loop equals trying each fresh read in turn, against what others have made of the store by then, until one is not in conflict. |
| StatusReconciler.ClusterPermissionStatusReconciler.Reconcile | controllers/clusterpermission_status_controller.go:84-147 | Resolves the owner, ignores works without one and owners that are gone or being deleted, and otherwise updates. |
| StatusReconciler.ReportsOnLive | controllers/clusterpermission_status_controller.go:150-208 | However stale its reads and whatever others write between its attempts, an update ends with the first attempt not in conflict, which writes nothing or edits the status that is live then. |
| StatusReconciler.CommitsIfAnyReadCurrent | controllers/clusterpermission_status_controller.go:154-207 | With API calls succeeding, the update goes through if and only if one of its reads is of the object that is live when its write arrives. |
| StatusReconciler.FailureEndsAttempts | controllers/clusterpermission_status_controller.go:154-207 | A read or write error that is not a conflict ends the attempts and is returned. |
| StatusReconciler.UnreadWorkReconciles | controllers/clusterpermission_status_controller.go:89-98 | A work that is gone is nothing to do; one that cannot be read is that error. |
| StatusReconciler.UncontrolledReconciles | controllers/clusterpermission_status_controller.go:100-115 | A work without a named controlling ClusterPermission is nothing to do. |
| StatusReconciler.ControlledReconciles | controllers/clusterpermission_status_controller.go:100-147 | A controlled work leads to its first controlling owner in the work's namespace; one that is gone or being deleted is left alone, a live one gets the update. |
| StatusReconciler.LiveOwnerReconciles | controllers/clusterpermission_status_controller.go:84-147 | With API calls succeeding, a live owner's status becomes the edit of the one live at the first attempt whose read is current; without a current read the reconcile returns a conflict and has written nothing. |
| StatusReconciler.OwnershipRoundTrip | controllers/clusterpermission_status_controller.go:51-122 | A built work is mapped by the watch to a request that resolves to the ClusterPermission it was built from. |
| AddonInformer.DirtyIsHandled | controllers/managed_cluster_addon_informer.go:177-274 | While the addon is in the indexer, a well-formed key that was added is handled later with what the indexer holds then, whatever others add before, in between and during the handling of other keys or of itself. |
| AddonInformer.RoundKeepsValid | controllers/managed_cluster_addon_informer.go:189-238 | One round of the worker handles a waiting key or leaves it waiting, and what is added while a key is handled waits afterwards. |
| AddonInformer.HandledExactly | controllers/managed_cluster_addon_informer.go:241-274 | A key with two slashes or without an addon leads to no call, any other to exactly one with what the indexer holds. |
| AddonInformer.RoundHandlesOne | controllers/managed_cluster_addon_informer.go:189-238 | A round makes one handler call at most, for a key that was waiting or added before it. |
| AddonInformer.AddonKeyInjective | controllers/managed_cluster_addon_informer.go:177-180 | Addons of different namespaces have different keys. |
| AddonInformer.ManagedClusterAddOnInformer.EnqueueAddon | controllers/managed_cluster_addon_informer.go:177-180 | The addon's key is added to the queue. |
| AddonInformer.ManagedClusterAddOnInformer.OnUpdate | controllers/managed_cluster_addon_informer.go:119-146 | The key is queued exactly when one of the two namespace fields differs. |
| AddonInformer.ManagedClusterAddOnInformer.SyncHandler | controllers/managed_cluster_addon_informer.go:241-274 | The handler is called once, with what the indexer holds now, if the key is well formed and present. |
| AddonInformer.ManagedClusterAddOnInformer.ProcessNextWorkItem | controllers/managed_cluster_addon_informer.go:189-238 | One key is taken, handled and marked done, others adding keys meanwhile; without one, shutdown is reported and nothing changes. |
| AddonInformer.ManagedClusterAddOnInformer.DrainQueue | controllers/managed_cluster_addon_informer.go:183-186 | A queue being shut down is emptied, every waiting key handled once and in order. |
| AddonInformer.ManagedClusterAddOnInformer.RunWorker | controllers/managed_cluster_addon_informer.go:183-186 | The worker's whole life, with whatever others add and the indexer becomes around each of its calls, makes exactly the handler calls of the round-by-round specification and ends with an empty queue. |
| AddonTrigger.StepKeepsInv | controllers/managed_cluster_addon_informer.go:119-274 | Every step of addon updates, deliveries, filter, queue, worker, both reconcile loops, resyncs and edits, in any interleaving, keeps: the latest compile of an object to start is of its present form and matches the indexed addon, or something pending will redo it. |
| AddonTrigger.MissedExactly | controllers/clusterpermission_controller.go:110-139 | In every reachable state of every run, an object with nothing pending has an up-to-date outcome, payload or error, if and only if its landed compile gives the same as its latest compile to start does with the addon version the indexer held then. |
| AddonTrigger.MissedClosed | controllers/clusterpermission_controller.go:110-139 | Where the landed compile was of the present object: if and only if it failed, or the addon version it read has the effective namespace of that indexed version, or the object emits no managed subject. |
| AddonTrigger.MissedExactlyApart | controllers/clusterpermission_controller.go:110-180 | With the two loops apart the landed compile is the latest to start, and the closed condition decides. |
| AddonTrigger.NeverMissed | controllers/clusterpermission_controller.go:110-139 | If moreover compiles read no older addon than the indexer and the watch skips no version, an object with nothing pending is up to date, be its outcome a payload or an error. |
| AddonTrigger.DrainedNotPending | controllers/managed_cluster_addon_informer.go:177-274 | With notices filtered, queue empty and workers idle nothing is pending: no key is lost between them. |
| AddonTrigger.ResyncRepairs | main.go:143 | In every run whose loops stay apart and that passes a resync, after which the namespace's addon does not change and every compile of the object reads its last version, the object is up to date whenever nothing of it is pending. |
| AddonTrigger.DrainedUpToDate | controllers/managed_cluster_addon_informer.go:119-274 | Under the same three assumptions every object of a drained state is up to date. |
| AddonTriggerLimits.AccountBindingDepends | controllers/clusterpermission_controller.go:368-510 | The hypothesis of the three runs below is met by every object with one cluster binding of an existing managed service account. |
| AddonTriggerLimits.DependsCanBeMet | controllers/clusterpermission_controller.go:368-510 | A concrete such object. |
| AddonTriggerLimits.StaleReadMisses | controllers/clusterpermission_controller.go:376-386 | A run with a compile that reads an older addon than the indexer holds, ending drained and outdated. |
| AddonTriggerLimits.OverlapMisses | controllers/clusterpermission_controller.go:142-180 | A run in which both loops work on one object at once, ending drained and outdated. |
| AddonTriggerLimits.SkippedVersionMisses | controllers/managed_cluster_addon_informer.go:133-145 | A run in which the watch skips a version, so that the filter sees no change, ending drained and outdated. |
| DeepCopy.CopySlice | api/v1alpha1/zz_generated.deepcopy.go:154-160 | A nil slice stays nil; any other becomes a new array with the same elements. |
| DeepCopy.CopyEntries | api/v1alpha1/zz_generated.deepcopy.go:277-282 | A slice of structs is copied element by element, with a new condition array for each that has one. |
| DeepCopy.ResourceStatus.DeepCopyInto | api/v1alpha1/zz_generated.deepcopy.go:275-305 | All four slices are copied value by value, and everything reachable from the copy is new. |
| DeepCopy.ClusterPermissionStatus.DeepCopyInto | api/v1alpha1/zz_generated.deepcopy.go:152-166 | The same for a status, a nil resource status staying nil; its condition slice is none of the arrays its resource status leads to. |
| DeepCopy.ClusterPermissionStatus.SetStatusCondition | controllers/clusterpermission_controller.go:319-321 | Setting a condition in the slice itself, in place or in a longer array, is the list operation `Set`. |
| DeepCopy.EditCopyThenAssign | controllers/clusterpermission_controller.go:318-326 | Copying, editing the copy and assigning it back changes the fetched struct alone: the condition array it shared keeps its contents, and its new resource status is new throughout and agrees with the one it shared. |
| SpecCopy.ClusterPermissionSpec.DeepCopyInto | api/v1alpha1/zz_generated.deepcopy.go:89-139 | Every pointer, slice and pointer to a slice of a spec is copied, nil staying nil, and everything reachable from the copy is new. |
| SpecCopy.ClusterPermissionSpec.DeepCopy | api/v1alpha1/zz_generated.deepcopy.go:142-149 | The same into a new struct. |

## Left out

- Manager setup, flags, leader election, logging, scheme construction, informer start-up: wiring.
- The generated `client/` tree and the chart, samples, scripts and tests.
- Label selector parsing and matching, JSON encoding and CRD schema validation: a selector is an opaque key whose listing the world supplies, possibly as an error or as a nil list.
- Real time, back-off sleeps and jitter: an attempt budget and arbitrary times remain.
- The agent on the managed cluster and garbage collection of works: arbitrary steps of the environment.
- One reconcile reads the world as of one snapshot; the object, the world and the works may each come from a different earlier snapshot.
- The three attempts the addon handler makes per object, with their API errors: in `AddonTrigger` API calls succeed, and its list of objects is current (an edit the list misses still has its own reconcile to come).
- AddonTrigger.NeverMissed: of a reconcile it keeps the compile and the write of its payload; the checks for bindings and for a managed cluster, which read no addon, are in `Reconciler` only.
- Addon add and delete events, which the informer ignores: in `AddonTrigger` an addon exists throughout.
- The rate-limited re-queue on an indexer error, which an in-memory indexer does not return.
- The predicate that filters ManifestWork events before the status controller's watch.
- The cluster-scoped resource fields that are constant in every object built, such as the API version in its type metadata.
- SpecCopy.ClusterPermissionSpec.DeepCopyInto: its six fields are assigned in one go after the copies are made; policy rules and label selectors, whose copies belong to other libraries, are values.
- DeepCopy.ResourceStatus.DeepCopyInto: requires, like the other two, that a struct is not copied into itself; the generated code, like the model, would then read what it has just overwritten.
- Reconciler.RetriesAddNothing: that an object which has moved on never equals the one that was read again is an assumption here, since stores hold objects without their versions; `StatusProtocol` counts versions and needs no such assumption.
- A stored work does not imply that its ClusterPermission is now valid, and `Validation=False` is never cleared: both follow the code and are not claimed otherwise.
