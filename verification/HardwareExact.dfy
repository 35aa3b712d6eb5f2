/** The steps of the migration case by case: names, targets, attaching, and what each failing call does. */
module HardwareExact {
  import opened Common
  import opened HardwareProfiles

  /** An accelerator annotation counts before a size selection, and a size only if it is configured. */
  lemma TargetExact(nb: Notebook, sizes: seq<Size>)
    ensures var ap, size := Lookup(nb.annotations, ACCELERATOR_NAME), Lookup(nb.annotations, LAST_SIZE);
            && (ap != "" ==>
                  TargetOf(nb, sizes) ==
                  Some(Target(CrdName(ap) + "-notebooks", Lookup(nb.annotations, ACCELERATOR_NAMESPACE))))
            && (ap == "" && size != "" && (exists i :: 0 <= i < |sizes| && sizes[i].name == size) ==>
                  TargetOf(nb, sizes) == Some(Target("containersize-" + CrdName(size) + "-notebooks", "")))
            && (ap == "" && (size == "" || forall i :: 0 <= i < |sizes| ==> sizes[i].name != size) ==>
                  TargetOf(nb, sizes) == None)
  {
    var size := CrdName(Lookup(nb.annotations, LAST_SIZE));
    assert "containersize-" + size + "-" + "notebooks" == "containersize-" + size + "-notebooks";
  }

  /**
   What happens to an unannotated notebook whose profile is found: skipped in a readable Kueue namespace when it
   names no queue, otherwise updated unless the update fails or is rejected; only a rejection for another reason
   than Kueue, or a failure, is an error.
   */
  lemma AttachExact(policy: Policy, faults: Faults, profiles: Profiles, appNs: string, sizes: seq<Size>, id: Name,
                    nb: Notebook)
    requires Lookup(nb.annotations, PROFILE_NAME) == "" && TargetOf(nb, sizes).Some?
    requires TargetSearch(faults, profiles, appNs, id, TargetOf(nb, sizes).value).Found?
    ensures var t := TargetOf(nb, sizes).value;
            var changed := WithProfile(nb, t.profile, TargetSearch(faults, profiles, appNs, id, t).namespace);
            var skip := id.namespace != "" && !faults(ReadLabels(id)) && policy.kueue(id.namespace) &&
                        nb.queueName == "";
            var done := Attach(policy, faults, profiles, appNs, sizes, id, nb);
            && (done.notebook == changed <==>
                  !skip && !faults(UpdateNotebook(id)) && policy.admit(id, changed) == Accepted)
            && (done.notebook == nb || done.notebook == changed)
            && (done.ok <==> skip || (!faults(UpdateNotebook(id)) && policy.admit(id, changed) != Rejected))
  {
    var t := TargetOf(nb, sizes).value;
    TargetSearchIsSearch(faults, profiles, appNs, id, t);
    TargetNames(nb, sizes);
    ProfileIsNews(nb, t.profile);
  }

  /** A notebook that already names a profile, or asks for none, is left alone. */
  lemma AttachLeavesAlone(policy: Policy, faults: Faults, profiles: Profiles, appNs: string, sizes: seq<Size>, id: Name,
                          nb: Notebook)
    requires Lookup(nb.annotations, PROFILE_NAME) != "" || TargetOf(nb, sizes).None?
    ensures Attach(policy, faults, profiles, appNs, sizes, id, nb) == Attached(nb, true)
  {
  }

  /** Upper-case letters become lower-case, blanks become dashes, everything else stays. */
  lemma CrdNameExact(s: string, i: nat)
    requires i < |s|
    ensures |CrdName(s)| == |s|
    ensures s[i] == ' ' ==> CrdName(s)[i] == '-'
    ensures 'A' <= s[i] <= 'Z' ==> CrdName(s)[i] as int == s[i] as int + 32
    ensures s[i] != ' ' && !('A' <= s[i] <= 'Z') ==> CrdName(s)[i] == s[i]
  {
  }

  /** The names under which profiles are created. */
  lemma CreatedNames(ap: AcceleratorProfile, size: string)
    ensures ApName(ap, NOTEBOOKS) == Name(ap.id.namespace, ap.id.name + "-notebooks")
    ensures ApName(ap, SERVING) == Name(ap.id.namespace, ap.id.name + "-serving")
    ensures SizeProfileName(size, NOTEBOOKS) == "containersize-" + CrdName(size) + "-notebooks"
    ensures SizeProfileName(size, SERVING) == "containersize-" + CrdName(size) + "-serving"
  {
    assert ap.id.name + "-" + "notebooks" == ap.id.name + "-notebooks";
    assert ap.id.name + "-" + "serving" == ap.id.name + "-serving";
    var head := "containersize-" + CrdName(size);
    assert head + "-" + "notebooks" == head + "-notebooks" && head + "-" + "serving" == head + "-serving";
  }

  /** An annotated notebook names the profile and its namespace and keeps its other annotations. */
  lemma WithProfileExact(nb: Notebook, profile: string, ns: string, k: string)
    ensures var changed := WithProfile(nb, profile, ns);
            && Lookup(changed.annotations, "opendatahub.io/hardware-profile-name") == profile
            && Lookup(changed.annotations, "opendatahub.io/hardware-profile-namespace") == ns
            && changed.queueName == nb.queueName
            && (k !in {PROFILE_NAME, PROFILE_NAMESPACE} ==>
                  (k in changed.annotations <==> k in nb.annotations) &&
                  Lookup(changed.annotations, k) == Lookup(nb.annotations, k))
  {
    assert |PROFILE_NAME| == 36 && |PROFILE_NAMESPACE| == 41;
  }

  /** When a run does nothing at all, and whether that is an error. */
  lemma RunGuards(policy: Policy, faults: Faults, appNs: string, config: Result<Option<Config>, ()>,
                  aps: seq<AcceleratorProfile>, c: Cluster)
    ensures appNs == "" ==> Run(policy, faults, appNs, config, aps, c) == Outcome(c, true)
    ensures appNs != "" && config.Err? ==> Run(policy, faults, appNs, config, aps, c) == Outcome(c, false)
    ensures appNs != "" && config == Ok(None) ==> Run(policy, faults, appNs, config, aps, c) == Outcome(c, true)
  {
  }

  /** What happens when the profile is not found: a failing search or event is an error, the notebook stays. */
  lemma AttachMissExact(policy: Policy, faults: Faults, profiles: Profiles, appNs: string, sizes: seq<Size>, id: Name,
                        nb: Notebook)
    requires Lookup(nb.annotations, PROFILE_NAME) == "" && TargetOf(nb, sizes).Some?
    requires !KueueSkipped(policy, faults, id, nb)
    requires !TargetSearch(faults, profiles, appNs, id, TargetOf(nb, sizes).value).Found?
    ensures var done := Attach(policy, faults, profiles, appNs, sizes, id, nb);
            && done.notebook == nb
            && (done.ok <==>
                  && TargetSearch(faults, profiles, appNs, id, TargetOf(nb, sizes).value).NotThere?
                  && !faults(RecordEvent(id)) && !faults(UpdateNotebook(id)) && policy.admit(id, nb) != Rejected)
  {
    TargetSearchIsSearch(faults, profiles, appNs, id, TargetOf(nb, sizes).value);
  }

  /** When the attach phase does not get to the notebooks. */
  lemma AttachPhaseGuards(policy: Policy, faults: Faults, profiles: Profiles, notebooks: Notebooks, config: Config,
                          appNs: string)
    ensures var done := AttachPhase(policy, faults, profiles, notebooks, config, appNs);
            && (faults(ListNotebooks) || (notebooks != map[] && config.notebookSizes.Err?) ==>
                  done == AttachedAll(notebooks, false))
            && (!faults(ListNotebooks) && notebooks == map[] ==> done == AttachedAll(notebooks, true))
  {
  }

  /** The two profiles of an accelerator profile under faults: the second is not tried when the first fails. */
  lemma ApFaults(faults: Faults, profiles: Profiles, ap: AcceleratorProfile, counts: Counts, toleration: seq<string>)
    ensures var made := MakeForAp(faults, profiles, ap, counts, toleration);
            && (ap.spec.None? || faults(CreateProfile(ApName(ap, NOTEBOOKS))) ==> made == Made(profiles, false))
            && (ap.spec.Some? && !faults(CreateProfile(ApName(ap, NOTEBOOKS))) ==>
                  ApName(ap, NOTEBOOKS) in made.profiles &&
                  (made.ok <==> !faults(CreateProfile(ApName(ap, SERVING)))))
  {
  }

  /** A malformed list of one kind of sizes is an error that leaves the other kind alone. */
  lemma SizeListsAreIndependent(faults: Faults, profiles: Profiles, config: Config, appNs: string)
    requires config.toleration.Ok?
    ensures config.notebookSizes.Err? && config.modelServerSizes.Ok? ==>
              var made := MakeForSizes(faults, profiles, config.modelServerSizes.value, SERVING, [], appNs);
              SizePhase(faults, profiles, config, appNs) == Made(made.profiles, false)
    ensures config.notebookSizes.Ok? && config.modelServerSizes.Err? ==>
              var made := MakeForSizes(faults, profiles, config.notebookSizes.value, NOTEBOOKS,
                                       config.toleration.value, appNs);
              SizePhase(faults, profiles, config, appNs) == Made(made.profiles, false)
  {
  }

  /** The serving profile under faults; an existing one is enough. */
  lemma CustomFaults(faults: Faults, profiles: Profiles, appNs: string)
    ensures var id, made := Name(appNs, CUSTOM_SERVING), CustomPhase(faults, profiles, appNs);
            && (made.ok <==> !faults(CheckCustomServing) && (id in profiles || !faults(CreateProfile(id))))
            && (!made.ok || id in profiles ==> made.profiles == profiles)
            && (made.ok ==> id in made.profiles)
  {
  }
}
