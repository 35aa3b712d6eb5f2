/** What the profiles that a migration creates look like. */
module HardwareContents {
  import opened Common
  import opened HardwareProfiles

  /** After an error-free run the serving profile exists in the application namespace. */
  lemma CustomServingExists(policy: Policy, faults: Faults, appNs: string, config: Config,
                            aps: seq<AcceleratorProfile>, c: Cluster)
    requires appNs != "" && Run(policy, faults, appNs, Ok(Some(config)), aps, c).ok
    ensures Name(appNs, "custom-serving") in Run(policy, faults, appNs, Ok(Some(config)), aps, c).cluster.profiles
  {
  }

  // ---------------------------------------------------------------- nothing else appears

  /** Every profile that is new has the content that `made` allows under its name. */
  ghost predicate OnlyNew(before: Profiles, after: Profiles, made: (Name, Profile) -> bool) {
    && (forall id :: id in before ==> id in after)
    && (forall id :: id in after && id !in before ==> made(id, after[id]))
    && (forall id :: id in before ==> after[id] == before[id])
  }

  lemma OnlyNewAgain(a: Profiles, b: Profiles, c: Profiles, made: (Name, Profile) -> bool)
    requires OnlyNew(a, b, made) && OnlyNew(b, c, made)
    ensures OnlyNew(a, c, made)
  {
  }

  lemma CreateOnlyNew(faults: Faults, profiles: Profiles, id: Name, p: Profile, made: (Name, Profile) -> bool)
    requires made(id, p)
    ensures OnlyNew(profiles, Create(faults, profiles, id, p).profiles, made)
  {
  }

  /** Both profiles of an accelerator profile are allowed. */
  ghost predicate ApAllowed(ap: AcceleratorProfile, counts: Counts, toleration: seq<string>,
                            made: (Name, Profile) -> bool)
  {
    ap.spec.Some? ==>
      && made(ApName(ap, NOTEBOOKS), ApProfile(ap, NOTEBOOKS, counts, toleration))
      && made(ApName(ap, SERVING), ApProfile(ap, SERVING, SERVING_COUNTS, []))
  }

  lemma ApOnlyNew(faults: Faults, profiles: Profiles, ap: AcceleratorProfile, counts: Counts, toleration: seq<string>,
                  made: (Name, Profile) -> bool)
    requires ApAllowed(ap, counts, toleration, made)
    ensures OnlyNew(profiles, MakeForAp(faults, profiles, ap, counts, toleration).profiles, made)
  {
    if ap.spec.Some? {
      var first := Create(faults, profiles, ApName(ap, NOTEBOOKS), ApProfile(ap, NOTEBOOKS, counts, toleration));
      var p := ApProfile(ap, SERVING, SERVING_COUNTS, []);
      CreateOnlyNew(faults, profiles, ApName(ap, NOTEBOOKS), ApProfile(ap, NOTEBOOKS, counts, toleration), made);
      CreateOnlyNew(faults, first.profiles, ApName(ap, SERVING), p, made);
      OnlyNewAgain(profiles, first.profiles, Create(faults, first.profiles, ApName(ap, SERVING), p).profiles, made);
    }
  }

  lemma {:induction false} ApsOnlyNew(faults: Faults, profiles: Profiles, aps: seq<AcceleratorProfile>, counts: Counts,
                                      toleration: seq<string>, made: (Name, Profile) -> bool)
    requires forall ap :: ap in aps ==> ApAllowed(ap, counts, toleration, made)
    ensures OnlyNew(profiles, MakeForAps(faults, profiles, aps, counts, toleration).profiles, made)
    decreases |aps|
  {
    if aps != [] {
      var others, last := aps[..|aps| - 1], aps[|aps| - 1];
      var before := MakeForAps(faults, profiles, others, counts, toleration).profiles;
      ApsOnlyNew(faults, profiles, others, counts, toleration, made);
      ApOnlyNew(faults, before, last, counts, toleration, made);
      OnlyNewAgain(profiles, before, MakeForAp(faults, before, last, counts, toleration).profiles, made);
    }
  }

  lemma {:induction false} SizesOnlyNew(faults: Faults, profiles: Profiles, sizes: seq<Size>, kind: string,
                                        toleration: seq<string>, appNs: string, made: (Name, Profile) -> bool)
    requires forall size :: size in sizes ==>
               made(Name(appNs, SizeProfileName(size.name, kind)), SizeProfile(size, kind, toleration))
    ensures OnlyNew(profiles, MakeForSizes(faults, profiles, sizes, kind, toleration, appNs).profiles, made)
    decreases |sizes|
  {
    if sizes != [] {
      var others, size := sizes[..|sizes| - 1], sizes[|sizes| - 1];
      var before := MakeForSizes(faults, profiles, others, kind, toleration, appNs).profiles;
      var id, p := Name(appNs, SizeProfileName(size.name, kind)), SizeProfile(size, kind, toleration);
      SizesOnlyNew(faults, profiles, others, kind, toleration, appNs, made);
      CreateOnlyNew(faults, before, id, p, made);
      OnlyNewAgain(profiles, before, Create(faults, before, id, p).profiles, made);
    }
  }

  /** Everything that the configuration asks for is allowed. */
  ghost predicate Allowed(config: Config, aps: seq<AcceleratorProfile>, appNs: string, made: (Name, Profile) -> bool) {
    && (config.notebookCounts.Ok? && config.toleration.Ok? ==>
          forall ap :: ap in aps ==> ApAllowed(ap, config.notebookCounts.value, config.toleration.value, made))
    && (config.notebookSizes.Ok? && config.toleration.Ok? ==>
          forall size :: size in config.notebookSizes.value ==>
            made(Name(appNs, SizeProfileName(size.name, NOTEBOOKS)),
                 SizeProfile(size, NOTEBOOKS, config.toleration.value)))
    && (config.modelServerSizes.Ok? ==>
          forall size :: size in config.modelServerSizes.value ==>
            made(Name(appNs, SizeProfileName(size.name, SERVING)), SizeProfile(size, SERVING, [])))
    && made(Name(appNs, CUSTOM_SERVING), CustomServingProfile())
  }

  lemma ApPhaseOnlyNew(faults: Faults, profiles: Profiles, config: Config, aps: seq<AcceleratorProfile>, appNs: string,
                       made: (Name, Profile) -> bool)
    requires Allowed(config, aps, appNs, made)
    ensures OnlyNew(profiles, ApPhase(faults, profiles, aps, config).profiles, made)
  {
    if config.toleration.Ok? && config.notebookCounts.Ok? {
      ApsOnlyNew(faults, profiles, aps, config.notebookCounts.value, config.toleration.value, made);
    }
  }

  lemma SizePhaseOnlyNew(faults: Faults, profiles: Profiles, config: Config, aps: seq<AcceleratorProfile>,
                         appNs: string, made: (Name, Profile) -> bool)
    requires Allowed(config, aps, appNs, made)
    ensures OnlyNew(profiles, SizePhase(faults, profiles, config, appNs).profiles, made)
  {
    if config.toleration.Ok? {
      var toleration, first := config.toleration.value, profiles;
      if config.notebookSizes.Ok? {
        SizesOnlyNew(faults, profiles, config.notebookSizes.value, NOTEBOOKS, toleration, appNs, made);
        first := MakeForSizes(faults, profiles, config.notebookSizes.value, NOTEBOOKS, toleration, appNs).profiles;
      }
      if config.modelServerSizes.Ok? {
        SizesOnlyNew(faults, first, config.modelServerSizes.value, SERVING, [], appNs, made);
        var second := MakeForSizes(faults, first, config.modelServerSizes.value, SERVING, [], appNs).profiles;
        OnlyNewAgain(profiles, first, second, made);
      }
    }
  }

  /**
   Whatever fails, a run creates only the profiles that the configuration asks for, each with its generated
   content under its own name: any description that allows those allows everything that is new.
   */
  lemma RunCreatesOnlyGenerated(policy: Policy, faults: Faults, appNs: string, config: Config,
                                aps: seq<AcceleratorProfile>, c: Cluster, made: (Name, Profile) -> bool)
    requires Allowed(config, aps, appNs, made)
    ensures OnlyNew(c.profiles, Run(policy, faults, appNs, Ok(Some(config)), aps, c).cluster.profiles, made)
  {
    if appNs != "" {
      var one := ApPhase(faults, c.profiles, aps, config).profiles;
      var two := SizePhase(faults, one, config, appNs).profiles;
      ApPhaseOnlyNew(faults, c.profiles, config, aps, appNs, made);
      SizePhaseOnlyNew(faults, one, config, aps, appNs, made);
      CreateOnlyNew(faults, two, Name(appNs, CUSTOM_SERVING), CustomServingProfile(), made);
      OnlyNewAgain(c.profiles, one, two, made);
      OnlyNewAgain(c.profiles, two, CustomPhase(faults, two, appNs).profiles, made);
    }
  }

  // ---------------------------------------------------------------- generated contents

  /** A size profile asks for the requests and is bounded by the limits of its size. */
  lemma SizeProfileExact(size: Size, kind: string, toleration: seq<string>)
    ensures var p := SizeProfile(size, kind, toleration);
            && |p.identifiers| == 2 && p.tolerations == toleration
            && p.identifiers[0] == Identifier("cpu", "CPU", size.requestCpu, Some(size.limitCpu))
            && p.identifiers[1] == Identifier("memory", "Memory", size.requestMemory, Some(size.limitMemory))
            && Lookup(p.annotations, "opendatahub.io/display-name") == size.name
            && Lookup(p.annotations, "opendatahub.io/disabled") == "false"
  {
    AnnotateExact(kind, size.name, "", false);
  }

  /** Only notebooks get upper bounds and the configured toleration from an accelerator profile. */
  lemma ApProfileExact(ap: AcceleratorProfile, kind: string, counts: Counts, toleration: seq<string>)
    requires ap.spec.Some?
    ensures var p, spec := ApProfile(ap, kind, counts, toleration), ap.spec.value;
            && |p.identifiers| == 3
            && p.identifiers[0] == Identifier(spec.identifier, "Accelerator", "1", None)
            && p.identifiers[1].minCount == counts.minCpu && p.identifiers[2].minCount == counts.minMemory
            && (p.identifiers[1].maxCount ==
                if kind == "notebooks" && counts.maxCpu != "" then Some(counts.maxCpu) else None)
            && (p.identifiers[2].maxCount ==
                if kind == "notebooks" && counts.maxMemory != "" then Some(counts.maxMemory) else None)
            && (p.tolerations == if kind == "notebooks" then spec.tolerations + toleration else spec.tolerations)
            && (forall k :: k in ap.annotations ==> k in p.annotations && p.annotations[k] == ap.annotations[k])
  {
    assert ap.spec.value.tolerations + [] == ap.spec.value.tolerations;
  }

  lemma AnnotateExact(kind: string, displayName: string, description: string, disabled: bool)
    ensures var a := Annotate(kind, displayName, description, disabled);
            && Lookup(a, "opendatahub.io/display-name") == displayName
            && Lookup(a, "opendatahub.io/description") == description
            && Lookup(a, "opendatahub.io/disabled") == (if disabled then "true" else "false")
            && (Lookup(a, "opendatahub.io/dashboard-feature-visibility") ==
                if kind == "serving" then "[\"model-serving\"]" else "[\"workbench\"]")
  {
    assert |"opendatahub.io/dashboard-feature-visibility"| == 43 && |"opendatahub.io/display-name"| == 27;
    assert |"opendatahub.io/description"| == 26 && |"opendatahub.io/disabled"| == 23;
  }

  /** The serving profile asks for one processor and one gibibyte, without bounds, and is not managed. */
  lemma CustomServingExact()
    ensures var p := CustomServingProfile();
            && p.tolerations == [] && |p.identifiers| == 2
            && p.identifiers[0] == Identifier("cpu", "CPU", "1", None)
            && p.identifiers[1] == Identifier("memory", "Memory", "1Gi", None)
            && Lookup(p.annotations, "opendatahub.io/managed") == "false"
  {
  }

  /** The profile for serving is fixed, whatever the notebook sizes: one processor, one gibibyte, no bounds. */
  lemma ServingProfileExact(ap: AcceleratorProfile)
    requires ap.spec.Some?
    ensures var p := ApProfile(ap, SERVING, SERVING_COUNTS, []);
            && p.identifiers[1] == Identifier("cpu", "CPU", "1", None)
            && p.identifiers[2] == Identifier("memory", "Memory", "1Gi", None)
            && p.tolerations == ap.spec.value.tolerations
  {
    assert ap.spec.value.tolerations + [] == ap.spec.value.tolerations;
  }
}
