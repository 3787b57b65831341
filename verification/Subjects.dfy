/** Binding subjects: choosing, checking and translating them. */
module Subjects {
  import opened Prelude
  import opened Rbac
  import opened Hub

  const ACCOUNT_GROUP := "authentication.open-cluster-management.io"
  const ACCOUNT_KIND := "ManagedServiceAccount"

  predicate IsManaged(subject: Subject) {
    subject.apiGroup == ACCOUNT_GROUP && subject.kind == ACCOUNT_KIND
  }

  predicate AnyManaged(subjects: seq<Subject>) {
    exists i :: 0 <= i < |subjects| && IsManaged(subjects[i])
  }

  // Both given: only the list is used. Neither given: no subjects.
  function GetSubjects(subject: Option<Subject>, subjects: seq<Subject>): seq<Subject> {
    if |subjects| > 0 then subjects
    else if subject.None? then []
    else [subject.value]
  }

  // The namespace the addon really runs in.
  function EffectiveNamespace(addon: Addon): string {
    if addon.statusNamespace != "" then addon.statusNamespace else addon.installNamespace
  }

  function Translate(subject: Subject, addonNamespace: string): Subject {
    if IsManaged(subject) then Subject("", "ServiceAccount", addonNamespace, subject.name) else subject
  }

  function TranslateEach(subjects: seq<Subject>, addonNamespace: string): seq<Subject> {
    seq(|subjects|, i requires 0 <= i < |subjects| => Translate(subjects[i], addonNamespace))
  }

  // The namespace managed subjects are sent to in a world; empty where no addon can be read.
  function AddonNamespace(world: World, cluster: string): string {
    var addon := world.GetAddon(cluster);
    if addon.Success? then EffectiveNamespace(addon.value) else ""
  }

  // What can go wrong with a subject list, in code order: first each managed subject's
  // account in turn, then the addon, which is read only if some subject is managed.
  function AccountChecks(world: World, cluster: string, subjects: seq<Subject>): seq<Option<Error>> {
    seq(|subjects|, i requires 0 <= i < |subjects| =>
      if IsManaged(subjects[i]) then ErrorOf(world.GetServiceAccount(cluster, subjects[i].name)) else None)
  }

  function AddonCheck(world: World, cluster: string, subjects: seq<Subject>): Option<Error> {
    if AnyManaged(subjects) then ErrorOf(world.GetAddon(cluster)) else None
  }

  function SubjectChecks(world: World, cluster: string, subjects: seq<Subject>): seq<Option<Error>> {
    AccountChecks(world, cluster, subjects) + [AddonCheck(world, cluster, subjects)]
  }

  // The same in closed form.
  predicate SubjectsResolve(world: World, cluster: string, subjects: seq<Subject>) {
    && (forall i :: 0 <= i < |subjects| && IsManaged(subjects[i]) ==>
          world.GetServiceAccount(cluster, subjects[i].name).Success?)
    && (AnyManaged(subjects) ==> world.GetAddon(cluster).Success?)
  }

  lemma SubjectChecksPass(world: World, cluster: string, subjects: seq<Subject>)
    ensures First(SubjectChecks(world, cluster, subjects)).None? <==> SubjectsResolve(world, cluster, subjects)
  {
    hide IsManaged;
    var accounts := AccountChecks(world, cluster, subjects);
    FirstAppend(accounts, [AddonCheck(world, cluster, subjects)]);
    FirstAbsent(accounts);
    assert forall i :: 0 <= i < |subjects| ==>
      (accounts[i].None? <==> (IsManaged(subjects[i]) ==> world.GetServiceAccount(cluster, subjects[i].name).Success?));
  }

  // Every managed subject must have an account; the first one that cannot be read is reported.
  method ValidateSubject(world: World, subjects: seq<Subject>, cluster: string) returns (error: Option<Error>)
    ensures error == First(AccountChecks(world, cluster, subjects))
  {
    ghost var checks := AccountChecks(world, cluster, subjects);
    if |subjects| > 0 {
      for i := 0 to |subjects|
        invariant First(checks[..i]).None?
      {
        FirstStep(checks, i);
        if IsManaged(subjects[i]) {
          var account := world.GetServiceAccount(cluster, subjects[i].name);
          if account.Failure? {
            FirstPrefix(checks, i + 1);
            return Some(account.error);
          }
        }
      }
      assert checks[..|subjects|] == checks;
    }
    return None;
  }

  // The addon is looked up when the first managed subject is met and its namespace kept
  // in a local variable; an empty namespace is looked up again. Whatever the caching does,
  // the outcome is the subject-by-subject translation, or the addon's error when a
  // managed subject exists. Nothing managed is left, even when the namespace is empty.
  method GenerateSubjects(world: World, subjects: seq<Subject>, cluster: string)
    returns (r: Result<seq<Subject>, Error>)
    ensures r.Failure? <==> AnyManaged(subjects) && world.GetAddon(cluster).Failure?
    ensures r.Failure? ==> world.GetAddon(cluster) == Failure(r.error)
    ensures r.Success? ==> r.value == TranslateEach(subjects, AddonNamespace(world, cluster))
    ensures r.Success? ==> !AnyManaged(r.value)
  {
    var translated: seq<Subject> := [];
    var addonNamespace := "";
    ghost var target := AddonNamespace(world, cluster);
    for i := 0 to |subjects|
      invariant translated == TranslateEach(subjects[..i], target)
      invariant addonNamespace == "" || addonNamespace == target
      invariant AnyManaged(subjects[..i]) ==> world.GetAddon(cluster).Success?
      invariant addonNamespace != "" ==> world.GetAddon(cluster).Success?
    {
      assert subjects[..i + 1] == subjects[..i] + [subjects[i]];
      assert AnyManaged(subjects[..i + 1]) ==> AnyManaged(subjects[..i]) || IsManaged(subjects[i]);
      if IsManaged(subjects[i]) {
        if addonNamespace == "" {
          var addon := world.GetAddon(cluster);
          if addon.Failure? {
            return Failure(addon.error);
          }
          addonNamespace := addon.value.statusNamespace;
          if addonNamespace == "" {
            addonNamespace := addon.value.installNamespace;
          }
        }
        translated := translated + [Subject("", "ServiceAccount", addonNamespace, subjects[i].name)];
      } else {
        translated := translated + [subjects[i]];
      }
    }
    assert subjects[..|subjects|] == subjects;
    return Success(translated);
  }

  // The search the addon event handler makes over one binding.
  predicate BindingUsesManaged(subject: Option<Subject>, subjects: seq<Subject>) {
    || (subject.Some? && IsManaged(subject.value))
    || AnyManaged(subjects)
  }
}
