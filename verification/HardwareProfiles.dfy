/**
 Hardware-profile migration (pkg/upgrade/upgrade.go, pkg/upgrade/upgrade_utils.go): four phases that
 rerun at every operator start. Profiles are only ever created; notebooks get an annotation that
 names a profile. `Run` says what one run does to the cluster, whatever calls fail.
 */
module HardwareProfiles {
  import opened Common

  // ---------------------------------------------------------------- names

  /** Lower case and dashes for spaces, over ASCII letters. */
  function CrdChar(c: char): char {
    if c == ' ' then '-' else LowerChar(c)
  }

  function CrdName(s: string): string {
    seq(|s|, i requires 0 <= i < |s| => CrdChar(s[i]))
  }

  const NOTEBOOKS := "notebooks"
  const SERVING := "serving"
  const CUSTOM_SERVING := "custom-serving"
  const SIZE_PREFIX := "containersize-"
  const ACCELERATOR_NAME := "opendatahub.io/accelerator-name"
  const ACCELERATOR_NAMESPACE := "opendatahub.io/accelerator-profile-namespace"
  const LAST_SIZE := "notebooks.opendatahub.io/last-size-selection"
  const PROFILE_NAME := "opendatahub.io/hardware-profile-name"
  const PROFILE_NAMESPACE := "opendatahub.io/hardware-profile-namespace"

  function SizeProfileName(size: string, kind: string): string {
    SIZE_PREFIX + CrdName(size) + "-" + kind
  }

  // ---------------------------------------------------------------- objects

  datatype Name = Name(namespace: string, name: string)

  datatype Identifier = Identifier(identifier: string, resourceType: string, minCount: string, maxCount: Option<string>)

  /** `annotations` leaves out the modification date. */
  datatype Profile = Profile(annotations: map<string, string>, identifiers: seq<Identifier>, tolerations: seq<string>)

  datatype ApSpec = ApSpec(identifier: string, displayName: string, description: string, enabled: bool,
                           tolerations: seq<string>)

  datatype AcceleratorProfile = AcceleratorProfile(id: Name, annotations: map<string, string>, spec: Option<ApSpec>)

  datatype Size = Size(name: string, requestCpu: string, requestMemory: string, limitCpu: string, limitMemory: string)

  datatype Counts = Counts(minCpu: string, minMemory: string, maxCpu: string, maxMemory: string)

  /** The dashboard configuration, section by section; a malformed section is an error. */
  datatype Config = Config(
    notebookSizes: Result<seq<Size>, ()>,
    modelServerSizes: Result<seq<Size>, ()>,
    toleration: Result<seq<string>, ()>,
    notebookCounts: Result<Counts, ()>)

  datatype Notebook = Notebook(annotations: map<string, string>, queueName: string)

  type Profiles = map<Name, Profile>
  type Notebooks = map<Name, Notebook>

  datatype Cluster = Cluster(profiles: Profiles, notebooks: Notebooks)

  datatype Admission = Accepted | KueueRejected | Rejected

  /**
   What does not change between runs: whether a namespace carries a Kueue label and the admission
   webhook's answer to an updated notebook.
   */
  datatype Policy = Policy(kueue: string -> bool, admit: (Name, Notebook) -> Admission)

  /** The calls that may fail for reasons of their own. */
  datatype Call =
    | ListAccelerators
    | CreateProfile(id: Name)
    | ListNotebooks
    | ReadLabels(notebook: Name)
    | FindProfile(notebook: Name, namespace: string)
    | RecordEvent(notebook: Name)
    | UpdateNotebook(notebook: Name)
    | CheckCustomServing

  type Faults = Call -> bool

  // ---------------------------------------------------------------- generated profiles

  function Annotate(kind: string, displayName: string, description: string, disabled: bool): map<string, string> {
    map[
      "opendatahub.io/dashboard-feature-visibility" :=
        if kind == SERVING then "[\"model-serving\"]" else "[\"workbench\"]",
      "opendatahub.io/display-name" := displayName,
      "opendatahub.io/description" := description,
      "opendatahub.io/disabled" := if disabled then "true" else "false"
    ]
  }

  function Limit(kind: string, value: string): Option<string> {
    if kind == NOTEBOOKS && value != "" then Some(value) else None
  }

  function ApProfile(ap: AcceleratorProfile, kind: string, counts: Counts, toleration: seq<string>): Profile
    requires ap.spec.Some?
  {
    var spec := ap.spec.value;
    Profile(
      Annotate(kind, spec.displayName, spec.description, !spec.enabled) + ap.annotations,
      [ Identifier(spec.identifier, "Accelerator", "1", None),
        Identifier("cpu", "CPU", counts.minCpu, Limit(kind, counts.maxCpu)),
        Identifier("memory", "Memory", counts.minMemory, Limit(kind, counts.maxMemory)) ],
      spec.tolerations + if kind == NOTEBOOKS then toleration else [])
  }

  function SizeProfile(size: Size, kind: string, toleration: seq<string>): Profile {
    Profile(
      Annotate(kind, size.name, "", false),
      [ Identifier("cpu", "CPU", size.requestCpu, Some(size.limitCpu)),
        Identifier("memory", "Memory", size.requestMemory, Some(size.limitMemory)) ],
      toleration)
  }

  function CustomServingProfile(): Profile {
    Profile(
      Annotate(SERVING, CUSTOM_SERVING, "", false)["opendatahub.io/managed" := "false"],
      [Identifier("cpu", "CPU", "1", None), Identifier("memory", "Memory", "1Gi", None)],
      [])
  }

  const SERVING_COUNTS := Counts("1", "1Gi", "", "")

  function ApName(ap: AcceleratorProfile, kind: string): Name {
    Name(ap.id.namespace, ap.id.name + "-" + kind)
  }

  // ---------------------------------------------------------------- phases 1, 2 and 4: create only

  /** Profiles after a step, and whether the step reported no error. */
  datatype Made = Made(profiles: Profiles, ok: bool)

  function Create(faults: Faults, profiles: Profiles, id: Name, p: Profile): Made {
    if faults(CreateProfile(id)) then Made(profiles, false)
    else Made(if id in profiles then profiles else profiles[id := p], true)
  }

  /** Two profiles per accelerator profile; the second is not tried when the first fails. */
  function MakeForAp(faults: Faults, profiles: Profiles, ap: AcceleratorProfile, counts: Counts,
                     toleration: seq<string>): Made
  {
    if ap.spec.None? then Made(profiles, false) else
      var first := Create(faults, profiles, ApName(ap, NOTEBOOKS), ApProfile(ap, NOTEBOOKS, counts, toleration));
      if !first.ok then first
      else Create(faults, first.profiles, ApName(ap, SERVING), ApProfile(ap, SERVING, SERVING_COUNTS, []))
  }

  function MakeForAps(faults: Faults, profiles: Profiles, aps: seq<AcceleratorProfile>, counts: Counts,
                      toleration: seq<string>): Made {
    if aps == [] then Made(profiles, true) else
      var before := MakeForAps(faults, profiles, aps[..|aps| - 1], counts, toleration);
      var last := MakeForAp(faults, before.profiles, aps[|aps| - 1], counts, toleration);
      Made(last.profiles, before.ok && last.ok)
  }

  function ApPhase(faults: Faults, profiles: Profiles, aps: seq<AcceleratorProfile>, config: Config): Made {
    if faults(ListAccelerators) then Made(profiles, false)
    else if aps == [] then Made(profiles, true)
    else if config.toleration.Err? || config.notebookCounts.Err? then Made(profiles, false)
    else MakeForAps(faults, profiles, aps, config.notebookCounts.value, config.toleration.value)
  }

  function MakeForSizes(faults: Faults, profiles: Profiles, sizes: seq<Size>, kind: string, toleration: seq<string>,
                        appNs: string): Made {
    if sizes == [] then Made(profiles, true) else
      var before := MakeForSizes(faults, profiles, sizes[..|sizes| - 1], kind, toleration, appNs);
      var size := sizes[|sizes| - 1];
      var last := Create(faults, before.profiles, Name(appNs, SizeProfileName(size.name, kind)),
                         SizeProfile(size, kind, toleration));
      Made(last.profiles, before.ok && last.ok)
  }

  /** A malformed size list is an error but does not stop the other list. */
  function SizePhase(faults: Faults, profiles: Profiles, config: Config, appNs: string): Made {
    if config.toleration.Err? then Made(profiles, false) else
      var first := if config.notebookSizes.Err? then Made(profiles, false)
                   else MakeForSizes(faults, profiles, config.notebookSizes.value, NOTEBOOKS, config.toleration.value,
                                     appNs);
      var second := if config.modelServerSizes.Err? then Made(first.profiles, false)
                    else MakeForSizes(faults, first.profiles, config.modelServerSizes.value, SERVING, [], appNs);
      Made(second.profiles, first.ok && second.ok)
  }

  function CustomPhase(faults: Faults, profiles: Profiles, appNs: string): Made {
    var id := Name(appNs, CUSTOM_SERVING);
    if faults(CheckCustomServing) then Made(profiles, false)
    else if id in profiles then Made(profiles, true)
    else Create(faults, profiles, id, CustomServingProfile())
  }

  // ---------------------------------------------------------------- phase 3: annotate notebooks

  predicate SizeExists(sizes: seq<Size>, name: string) {
    exists i :: 0 <= i < |sizes| && sizes[i].name == name
  }

  /** The profile a notebook asks for and the namespace hint that goes with it. */
  datatype Target = Target(profile: string, apNamespace: string)

  function TargetOf(nb: Notebook, sizes: seq<Size>): Option<Target> {
    var ap, size := Lookup(nb.annotations, ACCELERATOR_NAME), Lookup(nb.annotations, LAST_SIZE);
    if ap != "" then Some(Target(CrdName(ap) + "-notebooks", Lookup(nb.annotations, ACCELERATOR_NAMESPACE)))
    else if size != "" && SizeExists(sizes, size) then Some(Target(SizeProfileName(size, NOTEBOOKS), ""))
    else None
  }

  /** A notebook whose namespace cannot be read is not skipped. */
  predicate KueueSkipped(policy: Policy, faults: Faults, id: Name, nb: Notebook) {
    id.namespace != "" && !faults(ReadLabels(id)) && policy.kueue(id.namespace) && nb.queueName == ""
  }

  /** Where to look: the hint, the notebook's own namespace, the application namespace. */
  function Candidates(apNs: string, ownNs: string, appNs: string): seq<string> {
    (if apNs != "" then [apNs] else []) +
    (if ownNs != "" && ownNs != apNs then [ownNs] else []) +
    (if appNs != apNs && appNs != ownNs then [appNs] else [])
  }

  datatype Search = Found(namespace: string) | NotThere | Broken

  function SearchIn(faults: Faults, profiles: Profiles, notebook: Name, profile: string, namespaces: seq<string>)
    : Search
  {
    if namespaces == [] then NotThere
    else if faults(FindProfile(notebook, namespaces[0])) then Broken
    else if Name(namespaces[0], profile) in profiles then Found(namespaces[0])
    else SearchIn(faults, profiles, notebook, profile, namespaces[1..])
  }

  datatype Attached = Attached(notebook: Notebook, ok: bool)

  function Update(policy: Policy, faults: Faults, id: Name, nb: Notebook, changed: Notebook): Attached {
    if faults(UpdateNotebook(id)) then Attached(nb, false)
    else match policy.admit(id, changed)
      case Accepted => Attached(changed, true)
      case KueueRejected => Attached(nb, true)
      case Rejected => Attached(nb, false)
  }

  function WithProfile(nb: Notebook, profile: string, namespace: string): Notebook {
    nb.(annotations := nb.annotations[PROFILE_NAME := profile][PROFILE_NAMESPACE := namespace])
  }

  function Attach(policy: Policy, faults: Faults, profiles: Profiles, appNs: string, sizes: seq<Size>, id: Name,
                  nb: Notebook): Attached {
    var target := TargetOf(nb, sizes);
    if Lookup(nb.annotations, PROFILE_NAME) != "" || target.None? || KueueSkipped(policy, faults, id, nb)
    then Attached(nb, true)
    else
      var t := target.value;
      match SearchIn(faults, profiles, id, t.profile, Candidates(t.apNamespace, id.namespace, appNs))
      case Broken => Attached(nb, false)
      case NotThere => if faults(RecordEvent(id)) then Attached(nb, false) else Update(policy, faults, id, nb, nb)
      case Found(namespace) => Update(policy, faults, id, nb, WithProfile(nb, t.profile, namespace))
  }

  datatype AttachedAll = AttachedAll(notebooks: Notebooks, ok: bool)

  /** Notebooks are treated independently of each other. */
  function AttachPhase(policy: Policy, faults: Faults, profiles: Profiles, notebooks: Notebooks, config: Config,
                       appNs: string): AttachedAll {
    if faults(ListNotebooks) then AttachedAll(notebooks, false)
    else if notebooks == map[] then AttachedAll(notebooks, true)
    else if config.notebookSizes.Err? then AttachedAll(notebooks, false)
    else
      var sizes := config.notebookSizes.value;
      AttachedAll(
        map id | id in notebooks :: Attach(policy, faults, profiles, appNs, sizes, id, notebooks[id]).notebook,
        forall id :: id in notebooks ==> Attach(policy, faults, profiles, appNs, sizes, id, notebooks[id]).ok)
  }

  // ---------------------------------------------------------------- a run

  datatype Outcome = Outcome(cluster: Cluster, ok: bool)

  /** `config` is None when there is no dashboard configuration, an error when it cannot be read. */
  function Run(policy: Policy, faults: Faults, appNs: string, config: Result<Option<Config>, ()>,
               aps: seq<AcceleratorProfile>, c: Cluster): Outcome
  {
    if appNs == "" then Outcome(c, true)
    else if config.Err? then Outcome(c, false)
    else if config.value.None? then Outcome(c, true)
    else
      var cfg := config.value.value;
      var one := ApPhase(faults, c.profiles, aps, cfg);
      var two := SizePhase(faults, one.profiles, cfg, appNs);
      var three := AttachPhase(policy, faults, two.profiles, c.notebooks, cfg, appNs);
      var four := CustomPhase(faults, two.profiles, appNs);
      Outcome(Cluster(four.profiles, three.notebooks), one.ok && two.ok && three.ok && four.ok)
  }

  // ---------------------------------------------------------------- creation laws

  ghost predicate Grows(before: Profiles, after: Profiles) {
    forall id :: id in before ==> id in after && after[id] == before[id]
  }

  lemma ApLaw(faults: Faults, profiles: Profiles, ap: AcceleratorProfile, counts: Counts, toleration: seq<string>)
    ensures var made := MakeForAp(faults, profiles, ap, counts, toleration);
            && Grows(profiles, made.profiles)
            && (made.ok ==> ApName(ap, NOTEBOOKS) in made.profiles && ApName(ap, SERVING) in made.profiles)
  {
  }

  lemma {:induction false} ApsLaw(faults: Faults, profiles: Profiles, aps: seq<AcceleratorProfile>, counts: Counts,
                                  toleration: seq<string>)
    ensures var made := MakeForAps(faults, profiles, aps, counts, toleration);
            && Grows(profiles, made.profiles)
            && (made.ok ==> forall ap :: ap in aps ==>
                  ApName(ap, NOTEBOOKS) in made.profiles && ApName(ap, SERVING) in made.profiles)
    decreases |aps|
  {
    if aps != [] {
      var others, last := aps[..|aps| - 1], aps[|aps| - 1];
      ApsLaw(faults, profiles, others, counts, toleration);
      var before := MakeForAps(faults, profiles, others, counts, toleration);
      ApLaw(faults, before.profiles, last, counts, toleration);
      forall ap | ap in aps ensures ap in others || ap == last {
        assert aps == others + [last];
      }
    }
  }

  lemma {:induction false} ApsAgain(faults: Faults, profiles: Profiles, aps: seq<AcceleratorProfile>, counts: Counts,
                                    toleration: seq<string>)
    requires forall ap :: ap in aps ==> ApName(ap, NOTEBOOKS) in profiles && ApName(ap, SERVING) in profiles
    ensures MakeForAps(faults, profiles, aps, counts, toleration).profiles == profiles
    decreases |aps|
  {
    if aps != [] {
      ApsAgain(faults, profiles, aps[..|aps| - 1], counts, toleration);
    }
  }

  lemma {:induction false} SizesLaw(faults: Faults, profiles: Profiles, sizes: seq<Size>, kind: string,
                                    toleration: seq<string>, appNs: string)
    ensures var made := MakeForSizes(faults, profiles, sizes, kind, toleration, appNs);
            && Grows(profiles, made.profiles)
            && (made.ok ==> forall size :: size in sizes ==>
                  Name(appNs, SizeProfileName(size.name, kind)) in made.profiles)
    decreases |sizes|
  {
    if sizes != [] {
      SizesLaw(faults, profiles, sizes[..|sizes| - 1], kind, toleration, appNs);
      assert sizes == sizes[..|sizes| - 1] + [sizes[|sizes| - 1]];
    }
  }

  lemma {:induction false} SizesAgain(faults: Faults, profiles: Profiles, sizes: seq<Size>, kind: string,
                                      toleration: seq<string>, appNs: string)
    requires forall size :: size in sizes ==> Name(appNs, SizeProfileName(size.name, kind)) in profiles
    ensures MakeForSizes(faults, profiles, sizes, kind, toleration, appNs).profiles == profiles
    decreases |sizes|
  {
    if sizes != [] {
      SizesAgain(faults, profiles, sizes[..|sizes| - 1], kind, toleration, appNs);
    }
  }

  /** Everything the create phases would create is there. */
  ghost predicate Complete(profiles: Profiles, aps: seq<AcceleratorProfile>, config: Config, appNs: string) {
    && (forall ap :: ap in aps ==> ApName(ap, NOTEBOOKS) in profiles && ApName(ap, SERVING) in profiles)
    && (config.notebookSizes.Ok? ==>
          forall size :: size in config.notebookSizes.value ==>
                 Name(appNs, SizeProfileName(size.name, NOTEBOOKS)) in profiles)
    && (config.modelServerSizes.Ok? ==>
          forall size :: size in config.modelServerSizes.value ==>
                 Name(appNs, SizeProfileName(size.name, SERVING)) in profiles)
  }

  lemma SizePhaseLaw(faults: Faults, profiles: Profiles, config: Config, appNs: string)
    ensures var made := SizePhase(faults, profiles, config, appNs);
            Grows(profiles, made.profiles) && (made.ok ==> Complete(made.profiles, [], config, appNs))
  {
    if config.toleration.Ok? {
      var first := profiles;
      if config.notebookSizes.Ok? {
        SizesLaw(faults, profiles, config.notebookSizes.value, NOTEBOOKS, config.toleration.value, appNs);
        first := MakeForSizes(faults, profiles, config.notebookSizes.value, NOTEBOOKS, config.toleration.value,
                              appNs).profiles;
      }
      if config.modelServerSizes.Ok? {
        SizesLaw(faults, first, config.modelServerSizes.value, SERVING, [], appNs);
      }
    }
  }

  lemma CreatePhases(faults: Faults, profiles: Profiles, aps: seq<AcceleratorProfile>, config: Config, appNs: string)
    ensures var one := ApPhase(faults, profiles, aps, config);
            var two := SizePhase(faults, one.profiles, config, appNs);
            Grows(profiles, two.profiles) && (one.ok && two.ok ==> Complete(two.profiles, aps, config, appNs))
  {
    var one := ApPhase(faults, profiles, aps, config);
    if config.toleration.Ok? && config.notebookCounts.Ok? {
      ApsLaw(faults, profiles, aps, config.notebookCounts.value, config.toleration.value);
    }
    SizePhaseLaw(faults, one.profiles, config, appNs);
  }

  lemma CreatePhasesAgain(faults: Faults, profiles: Profiles, aps: seq<AcceleratorProfile>, config: Config,
                          appNs: string)
    requires Complete(profiles, aps, config, appNs)
    ensures ApPhase(faults, profiles, aps, config).profiles == profiles
    ensures SizePhase(faults, profiles, config, appNs).profiles == profiles
  {
    if config.toleration.Ok? && config.notebookCounts.Ok? {
      ApsAgain(faults, profiles, aps, config.notebookCounts.value, config.toleration.value);
    }
    if config.toleration.Ok? && config.notebookSizes.Ok? {
      SizesAgain(faults, profiles, config.notebookSizes.value, NOTEBOOKS, config.toleration.value, appNs);
    }
    if config.toleration.Ok? && config.modelServerSizes.Ok? {
      SizesAgain(faults, profiles, config.modelServerSizes.value, SERVING, [], appNs);
    }
  }

  // ---------------------------------------------------------------- lookup laws

  predicate EndsIn(s: string, suffix: string) {
    |s| >= |suffix| && s[|s| - |suffix|..] == suffix
  }

  /** Every looked-up name ends in "-notebooks", so it is neither empty nor "custom-serving". */
  lemma TargetNames(nb: Notebook, sizes: seq<Size>)
    requires TargetOf(nb, sizes).Some?
    ensures TargetOf(nb, sizes).value.profile != "" && TargetOf(nb, sizes).value.profile != CUSTOM_SERVING
  {
    var profile := TargetOf(nb, sizes).value.profile;
    assert EndsIn(profile, "notebooks");
    assert profile[|profile| - 1] == 's';
    assert CUSTOM_SERVING[|CUSTOM_SERVING| - 1] == 'g';
  }

  /** The two maps agree on `profile` in every namespace. */
  ghost predicate AgreeOn(a: Profiles, b: Profiles, profile: string) {
    forall ns: string :: Name(ns, profile) in a <==> Name(ns, profile) in b
  }

  /** `ns` is the first of the namespaces that holds the profile. */
  ghost predicate FirstHolder(profiles: Profiles, profile: string, namespaces: seq<string>, ns: string) {
    exists i :: 0 <= i < |namespaces| && namespaces[i] == ns && Name(ns, profile) in profiles &&
      forall j :: 0 <= j < i ==> Name(namespaces[j], profile) !in profiles
  }

  lemma {:induction false} SearchLaw(faults: Faults, profiles: Profiles, notebook: Name, profile: string,
                                     namespaces: seq<string>)
    ensures match SearchIn(faults, profiles, notebook, profile, namespaces)
            case Found(ns) => FirstHolder(profiles, profile, namespaces, ns)
            case NotThere => forall i :: 0 <= i < |namespaces| ==> Name(namespaces[i], profile) !in profiles
            case Broken => true
    decreases |namespaces|
  {
    if namespaces != [] {
      SearchLaw(faults, profiles, notebook, profile, namespaces[1..]);
      var rest := SearchIn(faults, profiles, notebook, profile, namespaces[1..]);
      if Name(namespaces[0], profile) in profiles {
        assert FirstHolder(profiles, profile, namespaces, namespaces[0]);
      } else if rest.Found? {
        var i :| 0 <= i < |namespaces[1..]| && namespaces[1..][i] == rest.namespace &&
          forall j :: 0 <= j < i ==> Name(namespaces[1..][j], profile) !in profiles;
        forall j | 0 <= j < i + 1 ensures Name(namespaces[j], profile) !in profiles {
          assert j > 0 ==> namespaces[j] == namespaces[1..][j - 1];
        }
        assert namespaces[i + 1] == rest.namespace;
      } else {
        assert namespaces == [namespaces[0]] + namespaces[1..];
      }
    }
  }

  /** On profile maps that agree, two searches without faults on the way give the same answer. */
  lemma {:induction false} SearchAgain(f: Faults, g: Faults, a: Profiles, b: Profiles, notebook: Name, profile: string,
                                       namespaces: seq<string>)
    requires AgreeOn(a, b, profile)
    requires !SearchIn(f, a, notebook, profile, namespaces).Broken?
    ensures SearchIn(g, b, notebook, profile, namespaces).Broken? ||
            SearchIn(g, b, notebook, profile, namespaces) == SearchIn(f, a, notebook, profile, namespaces)
    decreases |namespaces|
  {
    if namespaces != [] && !g(FindProfile(notebook, namespaces[0])) && Name(namespaces[0], profile) !in a {
      SearchAgain(f, g, a, b, notebook, profile, namespaces[1..]);
    }
  }

  // ---------------------------------------------------------------- idempotence

  /** An attempt under `f` skips this notebook for Kueue's sake although it has a target. */
  ghost predicate Skipped(policy: Policy, f: Faults, sizes: seq<Size>, id: Name, nb: Notebook) {
    Lookup(nb.annotations, PROFILE_NAME) == "" && TargetOf(nb, sizes).Some? && KueueSkipped(policy, f, id, nb)
  }

  /**
   The search written out: the hinted namespace if there is a hint, then the notebook's own, then the
   application namespace, each at most once; a failing lookup ends it.
   */
  ghost function TargetSearch(faults: Faults, profiles: Profiles, appNs: string, id: Name, t: Target): Search {
    var hint, own := t.apNamespace, id.namespace;
    if hint != "" && faults(FindProfile(id, hint)) then Broken
    else if hint != "" && Name(hint, t.profile) in profiles then Found(hint)
    else if own != "" && own != hint && faults(FindProfile(id, own)) then Broken
    else if own != "" && Name(own, t.profile) in profiles then Found(own)
    else if appNs != hint && appNs != own && faults(FindProfile(id, appNs)) then Broken
    else if appNs != hint && appNs != own && Name(appNs, t.profile) in profiles then Found(appNs)
    else NotThere
  }

  /** The list of namespaces and the loop over it are that search. */
  lemma TargetSearchIsSearch(faults: Faults, profiles: Profiles, appNs: string, id: Name, t: Target)
    ensures SearchIn(faults, profiles, id, t.profile, Candidates(t.apNamespace, id.namespace, appNs)) ==
            TargetSearch(faults, profiles, appNs, id, t)
  {
    var hint, own := t.apNamespace, id.namespace;
    var first := if hint != "" then [hint] else [];
    var second := if own != "" && own != hint then [own] else [];
    var third := if appNs != hint && appNs != own then [appNs] else [];
    SearchAppend(faults, profiles, id, t.profile, first + second, third);
    SearchAppend(faults, profiles, id, t.profile, first, second);
    SearchOne(faults, profiles, id, t.profile, hint);
    SearchOne(faults, profiles, id, t.profile, own);
    SearchOne(faults, profiles, id, t.profile, appNs);
  }

  lemma SearchOne(faults: Faults, profiles: Profiles, notebook: Name, profile: string, ns: string)
    ensures SearchIn(faults, profiles, notebook, profile, [ns]) ==
            if faults(FindProfile(notebook, ns)) then Broken
            else if Name(ns, profile) in profiles then Found(ns) else NotThere
  {
    assert [ns][1..] == [];
  }

  lemma {:induction false} SearchAppend(faults: Faults, profiles: Profiles, notebook: Name, profile: string,
                                        a: seq<string>, b: seq<string>)
    ensures SearchIn(faults, profiles, notebook, profile, a + b) ==
            if SearchIn(faults, profiles, notebook, profile, a).NotThere?
            then SearchIn(faults, profiles, notebook, profile, b)
            else SearchIn(faults, profiles, notebook, profile, a)
    decreases |a|
  {
    if a == [] {
      assert a + b == b;
    } else {
      assert (a + b)[1..] == a[1..] + b;
      SearchAppend(faults, profiles, notebook, profile, a[1..], b);
    }
  }

  /** The namespace whose profile counts: hinted before own before application. */
  ghost predicate Wins(profiles: Profiles, profile: string, hint: string, own: string, app: string, ns: string) {
    if hint != "" && Name(hint, profile) in profiles then ns == hint
    else if own != "" && Name(own, profile) in profiles then ns == own
    else app != hint && app != own && Name(app, profile) in profiles && ns == app
  }

  /** The first holder in the list is the winner. */
  lemma WinnerIsFirstHolder(profiles: Profiles, t: Target, id: Name, appNs: string, ns: string)
    ensures FirstHolder(profiles, t.profile, Candidates(t.apNamespace, id.namespace, appNs), ns) <==>
            Wins(profiles, t.profile, t.apNamespace, id.namespace, appNs, ns)
  {
    var f: Faults := (call: Call) => false;
    var namespaces := Candidates(t.apNamespace, id.namespace, appNs);
    TargetSearchIsSearch(f, profiles, appNs, id, t);
    SearchLaw(f, profiles, id, t.profile, namespaces);
    if FirstHolder(profiles, t.profile, namespaces, ns) {
      SearchFinds(f, profiles, id, t.profile, namespaces, ns);
    }
  }

  /** Under `g` the labels cannot be read, the profile is found and the update goes through. */
  ghost predicate LetThrough(policy: Policy, g: Faults, profiles: Profiles, appNs: string, id: Name, nb: Notebook,
                             t: Target) {
    && g(ReadLabels(id)) && !g(UpdateNotebook(id))
    && TargetSearch(g, profiles, appNs, id, t).Found?
    && policy.admit(id, WithProfile(nb, t.profile, TargetSearch(g, profiles, appNs, id, t).namespace)) == Accepted
  }

  /** A later attempt changes a notebook exactly when it was skipped and is now let through. */
  lemma AttachAgain(policy: Policy, f: Faults, g: Faults, a: Profiles, b: Profiles, appNs: string, sizes: seq<Size>,
                    id: Name, nb: Notebook)
    requires forall profile: string :: profile != CUSTOM_SERVING ==> AgreeOn(a, b, profile)
    requires Attach(policy, f, a, appNs, sizes, id, nb).ok
    ensures var once := Attach(policy, f, a, appNs, sizes, id, nb).notebook;
            Attach(policy, g, b, appNs, sizes, id, once).notebook != once <==>
            Skipped(policy, f, sizes, id, nb) && LetThrough(policy, g, b, appNs, id, nb, TargetOf(nb, sizes).value)
  {
    var once := Attach(policy, f, a, appNs, sizes, id, nb).notebook;
    var target := TargetOf(nb, sizes);
    if Lookup(nb.annotations, PROFILE_NAME) == "" && target.Some? {
      TargetNames(nb, sizes);
      ProfileIsNews(nb, target.value.profile);
      TargetSearchIsSearch(g, b, appNs, id, target.value);
      if !KueueSkipped(policy, f, id, nb) && once == nb {
        SearchAgain(f, g, a, b, id, target.value.profile, Candidates(target.value.apNamespace, id.namespace, appNs));
      }
    }
  }

  lemma ProfileIsNews(nb: Notebook, profile: string)
    requires Lookup(nb.annotations, PROFILE_NAME) == "" && profile != ""
    ensures forall ns: string ::
              Lookup(WithProfile(nb, profile, ns).annotations, PROFILE_NAME) == profile &&
                WithProfile(nb, profile, ns) != nb
  {
    assert |PROFILE_NAME| == 36 && |PROFILE_NAMESPACE| == 41;
    forall ns: string ensures Lookup(WithProfile(nb, profile, ns).annotations, PROFILE_NAME) == profile {
      assert PROFILE_NAME in WithProfile(nb, profile, ns).annotations;
    }
  }

  /** The configuration is one on which a run does something. */
  predicate Effective(appNs: string, config: Result<Option<Config>, ()>) {
    appNs != "" && config.Ok? && config.value.Some?
  }

  /** The run under `f` from `c` skipped notebook `id`. */
  ghost predicate SkippedIn(policy: Policy, f: Faults, config: Config, c: Cluster, id: Name) {
    id in c.notebooks && config.notebookSizes.Ok? && Skipped(policy, f, config.notebookSizes.value, id, c.notebooks[id])
  }

  ghost predicate LetThroughIn(policy: Policy, g: Faults, config: Config, appNs: string, c: Cluster, profiles: Profiles,
                               id: Name)
    requires id in c.notebooks && config.notebookSizes.Ok? &&
             TargetOf(c.notebooks[id], config.notebookSizes.value).Some?
  {
    !g(ListNotebooks) && LetThrough(policy, g, profiles, appNs, id, c.notebooks[id],
                                    TargetOf(c.notebooks[id], config.notebookSizes.value).value)
  }

  /**
   Idempotence, exactly. After an error-free run a second one with the same configuration, accelerator
   profiles, labels and webhook never changes a profile, whichever of its calls fail. It changes some
   notebook exactly when the first run skipped one whose labels the second fails to read and whose
   profile it finds and may write.
   */
  lemma SecondRunChangesNothing(policy: Policy, f: Faults, g: Faults, appNs: string, config: Result<Option<Config>, ()>,
                                aps: seq<AcceleratorProfile>, c: Cluster)
    requires Run(policy, f, appNs, config, aps, c).ok
    ensures var once := Run(policy, f, appNs, config, aps, c).cluster;
            var twice := Run(policy, g, appNs, config, aps, once).cluster;
            && twice.profiles == once.profiles
            && (twice == once <==>
                  !(Effective(appNs, config) &&
                    exists id :: SkippedIn(policy, f, config.value.value, c, id) &&
                                 LetThroughIn(policy, g, config.value.value, appNs, c, once.profiles, id)))
  {
    var once := Run(policy, f, appNs, config, aps, c).cluster;
    if Effective(appNs, config) {
      var cfg := config.value.value;
      var one := ApPhase(f, c.profiles, aps, cfg);
      var made := SizePhase(f, one.profiles, cfg, appNs).profiles;
      CreatePhases(f, c.profiles, aps, cfg, appNs);
      assert Grows(made, once.profiles);
      assert Complete(once.profiles, aps, cfg, appNs);
      CreatePhasesAgain(g, once.profiles, aps, cfg, appNs);
      assert CustomPhase(g, once.profiles, appNs).profiles == once.profiles;
      AttachPhaseAgain(policy, f, g, made, once.profiles, c, cfg, appNs);
    }
  }

  lemma AttachPhaseAgain(policy: Policy, f: Faults, g: Faults, a: Profiles, b: Profiles, c: Cluster, config: Config,
                         appNs: string)
    requires forall profile: string :: profile != CUSTOM_SERVING ==> AgreeOn(a, b, profile)
    requires AttachPhase(policy, f, a, c.notebooks, config, appNs).ok
    ensures var once := AttachPhase(policy, f, a, c.notebooks, config, appNs).notebooks;
            AttachPhase(policy, g, b, once, config, appNs).notebooks == once <==>
            !exists id :: SkippedIn(policy, f, config, c, id) && LetThroughIn(policy, g, config, appNs, c, b, id)
  {
    var once := AttachPhase(policy, f, a, c.notebooks, config, appNs).notebooks;
    var twice := AttachPhase(policy, g, b, once, config, appNs).notebooks;
    if c.notebooks != map[] {
      var sizes := config.notebookSizes.value;
      assert once.Keys == c.notebooks.Keys;
      forall id | id in once
        ensures twice[id] == once[id] <==>
                !(SkippedIn(policy, f, config, c, id) && LetThroughIn(policy, g, config, appNs, c, b, id))
      {
        AttachAgain(policy, f, g, a, b, appNs, sizes, id, c.notebooks[id]);
      }
      assert twice.Keys == once.Keys;
      assert twice == once <==> forall id :: id in once ==> twice[id] == once[id];
    }
  }

  /** Some holder of the notebook's profile would be accepted by the webhook. */
  ghost predicate Reachable(policy: Policy, config: Config, appNs: string, c: Cluster, profiles: Profiles, id: Name)
    requires id in c.notebooks && config.notebookSizes.Ok? &&
             TargetOf(c.notebooks[id], config.notebookSizes.value).Some?
  {
    var t := TargetOf(c.notebooks[id], config.notebookSizes.value).value;
    exists ns: string :: Wins(profiles, t.profile, t.apNamespace, id.namespace, appNs, ns) &&
                         policy.admit(id, WithProfile(c.notebooks[id], t.profile, ns)) == Accepted
  }

  /** The run under `f` skipped a notebook that a run without its labels would annotate. */
  ghost predicate Exposed(policy: Policy, f: Faults, appNs: string, config: Result<Option<Config>, ()>, c: Cluster,
                          profiles: Profiles) {
    Effective(appNs, config) &&
    exists id :: SkippedIn(policy, f, config.value.value, c, id) &&
      Reachable(policy, config.value.value, appNs, c, profiles, id)
  }

  /**
   Later runs change nothing under any faults exactly when the first run skipped no notebook for
   Kueue whose profile exists and whose annotation the webhook accepts.
   */
  lemma LaterRunsChangeNothingExact(policy: Policy, f: Faults, appNs: string, config: Result<Option<Config>, ()>,
                                    aps: seq<AcceleratorProfile>, c: Cluster)
    requires Run(policy, f, appNs, config, aps, c).ok
    ensures var once := Run(policy, f, appNs, config, aps, c).cluster;
            (forall g: Faults :: Run(policy, g, appNs, config, aps, once).cluster == once) <==>
            !Exposed(policy, f, appNs, config, c, once.profiles)
  {
    var once := Run(policy, f, appNs, config, aps, c).cluster;
    if Exposed(policy, f, appNs, config, c, once.profiles) {
      var g := ExposedChanges(policy, f, appNs, config, aps, c, once);
    } else {
      forall g: Faults ensures Run(policy, g, appNs, config, aps, once).cluster == once {
        UnexposedStays(policy, f, g, appNs, config, aps, c, once);
      }
    }
  }

  lemma ExposedChanges(policy: Policy, f: Faults, appNs: string, config: Result<Option<Config>, ()>,
                       aps: seq<AcceleratorProfile>, c: Cluster, once: Cluster) returns (g: Faults)
    requires Run(policy, f, appNs, config, aps, c) == Outcome(once, true) &&
             Exposed(policy, f, appNs, config, c, once.profiles)
    ensures Run(policy, g, appNs, config, aps, once).cluster != once && forall call :: g(call) ==> call.ReadLabels?
  {
    var cfg := config.value.value;
    var id :| SkippedIn(policy, f, cfg, c, id) && Reachable(policy, cfg, appNs, c, once.profiles, id);
    g := (call: Call) => call == ReadLabels(id);
    ReachableIsLetThrough(policy, cfg, appNs, c, once.profiles, id, g);
    SecondRunChangesNothing(policy, f, g, appNs, config, aps, c);
  }

  lemma UnexposedStays(policy: Policy, f: Faults, g: Faults, appNs: string, config: Result<Option<Config>, ()>,
                       aps: seq<AcceleratorProfile>, c: Cluster, once: Cluster)
    requires Run(policy, f, appNs, config, aps, c) == Outcome(once, true) &&
             !Exposed(policy, f, appNs, config, c, once.profiles)
    ensures Run(policy, g, appNs, config, aps, once).cluster == once
  {
    SecondRunChangesNothing(policy, f, g, appNs, config, aps, c);
    if Effective(appNs, config) {
      var cfg := config.value.value;
      forall id | SkippedIn(policy, f, cfg, c, id) ensures !LetThroughIn(policy, g, cfg, appNs, c, once.profiles, id) {
        LetThroughIsReachable(policy, cfg, appNs, c, once.profiles, id, g);
      }
    }
  }

  lemma LetThroughIsReachable(policy: Policy, config: Config, appNs: string, c: Cluster, profiles: Profiles, id: Name,
                              g: Faults)
    requires id in c.notebooks && config.notebookSizes.Ok? &&
             TargetOf(c.notebooks[id], config.notebookSizes.value).Some?
    ensures LetThroughIn(policy, g, config, appNs, c, profiles, id) ==>
              Reachable(policy, config, appNs, c, profiles, id)
  {
    var t := TargetOf(c.notebooks[id], config.notebookSizes.value).value;
    SearchLaw(g, profiles, id, t.profile, Candidates(t.apNamespace, id.namespace, appNs));
    TargetSearchIsSearch(g, profiles, appNs, id, t);
    if TargetSearch(g, profiles, appNs, id, t).Found? {
      WinnerIsFirstHolder(profiles, t, id, appNs, TargetSearch(g, profiles, appNs, id, t).namespace);
    }
  }

  lemma ReachableIsLetThrough(policy: Policy, config: Config, appNs: string, c: Cluster, profiles: Profiles, id: Name,
                              g: Faults)
    requires id in c.notebooks && config.notebookSizes.Ok? &&
             TargetOf(c.notebooks[id], config.notebookSizes.value).Some?
    requires Reachable(policy, config, appNs, c, profiles, id) && forall call :: g(call) <==> call == ReadLabels(id)
    ensures LetThroughIn(policy, g, config, appNs, c, profiles, id)
  {
    var t := TargetOf(c.notebooks[id], config.notebookSizes.value).value;
    var namespaces := Candidates(t.apNamespace, id.namespace, appNs);
    var ns: string :| Wins(profiles, t.profile, t.apNamespace, id.namespace, appNs, ns) &&
      policy.admit(id, WithProfile(c.notebooks[id], t.profile, ns)) == Accepted;
    WinnerIsFirstHolder(profiles, t, id, appNs, ns);
    SearchFinds(g, profiles, id, t.profile, namespaces, ns);
    TargetSearchIsSearch(g, profiles, appNs, id, t);
  }

  /** A search with no fault finds the first holder. */
  lemma {:induction false} SearchFinds(faults: Faults, profiles: Profiles, notebook: Name, profile: string,
                                       namespaces: seq<string>, ns: string)
    requires FirstHolder(profiles, profile, namespaces, ns) && forall x :: !faults(FindProfile(notebook, x))
    ensures SearchIn(faults, profiles, notebook, profile, namespaces) == Found(ns)
    decreases |namespaces|
  {
    var i :| 0 <= i < |namespaces| && namespaces[i] == ns && Name(ns, profile) in profiles &&
      forall j :: 0 <= j < i ==> Name(namespaces[j], profile) !in profiles;
    if i > 0 {
      var rest := namespaces[1..];
      assert rest[i - 1] == ns;
      assert forall j :: 0 <= j < i - 1 ==> rest[j] == namespaces[j + 1];
      SearchFinds(faults, profiles, notebook, profile, rest, ns);
    }
  }

  /** No run alters or removes an existing profile. */
  lemma ProfilesAreNeverAltered(policy: Policy, faults: Faults, appNs: string, config: Result<Option<Config>, ()>,
                                aps: seq<AcceleratorProfile>, c: Cluster)
    ensures Grows(c.profiles, Run(policy, faults, appNs, config, aps, c).cluster.profiles)
  {
    if appNs != "" && config.Ok? && config.value.Some? {
      CreatePhases(faults, c.profiles, aps, config.value.value, appNs);
    }
  }

  /**
   Such a notebook exists: its Kueue namespace can be read in the first run, which skips it without an
   error, but not in the second, which annotates it.
   */
  lemma LabelsMustStayReadable() returns (policy: Policy, f: Faults, g: Faults, config: Config, c: Cluster)
    ensures (forall call :: !f(call)) && forall call :: g(call) ==> call.ReadLabels?
    ensures Run(policy, f, "apps", Ok(Some(config)), [], c).ok
    ensures var once := Run(policy, f, "apps", Ok(Some(config)), [], c).cluster;
            Run(policy, g, "apps", Ok(Some(config)), [], once).cluster.notebooks != once.notebooks
  {
    policy := Policy((ns: string) => true, (id: Name, nb: Notebook) => Accepted);
    f := (call: Call) => false;
    var size := Size("s", "1", "1", "1", "1");
    config := Config(Ok([size]), Ok([]), Ok([]), Ok(SERVING_COUNTS));
    var id, nb := Name("apps", "nb"), Notebook(map[LAST_SIZE := "s"], "");
    c := Cluster(map[], map[id := nb]);
    SelectsSize(nb, size);
    g := SkippedThenAnnotated(policy, f, config, c, id, size);
  }

  lemma SkippedThenAnnotated(policy: Policy, f: Faults, config: Config, c: Cluster, id: Name, size: Size)
    returns (g: Faults)
    requires (forall call :: !f(call)) && (forall x, y :: policy.admit(x, y) == Accepted) && config.toleration.Ok? &&
             config.modelServerSizes.Ok?
    requires id.namespace == "apps" && c.notebooks.Keys == {id} && SkippedIn(policy, f, config, c, id) &&
             config.notebookSizes == Ok([size])
    requires TargetOf(c.notebooks[id], [size]) == Some(Target(SizeProfileName(size.name, NOTEBOOKS), ""))
    ensures forall call :: g(call) ==> call.ReadLabels?
    ensures Run(policy, f, "apps", Ok(Some(config)), [], c).ok
    ensures var once := Run(policy, f, "apps", Ok(Some(config)), [], c).cluster;
            Run(policy, g, "apps", Ok(Some(config)), [], once).cluster.notebooks != once.notebooks
  {
    SkippingRun(policy, f, config, c, id);
    var once := Run(policy, f, "apps", Ok(Some(config)), [], c).cluster;
    assert size in [size];
    assert Wins(once.profiles, SizeProfileName(size.name, NOTEBOOKS), "", "apps", "apps", "apps");
    assert Reachable(policy, config, "apps", c, once.profiles, id);
    g := ExposedChanges(policy, f, "apps", Ok(Some(config)), [], c, once);
    SecondRunChangesNothing(policy, f, g, "apps", Ok(Some(config)), [], c);
  }

  lemma SelectsSize(nb: Notebook, size: Size)
    requires nb == Notebook(map[LAST_SIZE := size.name], "") && size.name != ""
    ensures Lookup(nb.annotations, PROFILE_NAME) == "" &&
            TargetOf(nb, [size]) == Some(Target(SizeProfileName(size.name, NOTEBOOKS), ""))
  {
    assert |LAST_SIZE| == 44 && |ACCELERATOR_NAME| == 31 && |PROFILE_NAME| == 36;
    assert [size][0].name == size.name;
  }

  /** A run without faults over one notebook that it skips creates the profiles of the sizes and reports no error. */
  lemma SkippingRun(policy: Policy, f: Faults, config: Config, c: Cluster, id: Name)
    requires (forall call :: !f(call)) && config.toleration.Ok? && config.modelServerSizes.Ok?
    requires c.notebooks.Keys == {id} && SkippedIn(policy, f, config, c, id)
    ensures var end := Run(policy, f, "apps", Ok(Some(config)), [], c);
            && end.ok
            && forall size :: size in config.notebookSizes.value ==>
                 Name("apps", SizeProfileName(size.name, NOTEBOOKS)) in end.cluster.profiles
  {
    var sizes, toleration := config.notebookSizes.value, config.toleration.value;
    var first := MakeForSizes(f, c.profiles, sizes, NOTEBOOKS, toleration, "apps");
    NoFaultsNoErrors(f, c.profiles, sizes, NOTEBOOKS, toleration, "apps");
    NoFaultsNoErrors(f, first.profiles, config.modelServerSizes.value, SERVING, [], "apps");
    CreatePhases(f, c.profiles, [], config, "apps");
    var made := SizePhase(f, c.profiles, config, "apps");
    assert made.ok;
    assert Attach(policy, f, made.profiles, "apps", sizes, id, c.notebooks[id]).ok;
  }

  lemma {:induction false} NoFaultsNoErrors(f: Faults, profiles: Profiles, sizes: seq<Size>, kind: string,
                                            toleration: seq<string>, appNs: string)
    requires forall call :: !f(call)
    ensures MakeForSizes(f, profiles, sizes, kind, toleration, appNs).ok
    decreases |sizes|
  {
    if sizes != [] {
      NoFaultsNoErrors(f, profiles, sizes[..|sizes| - 1], kind, toleration, appNs);
    }
  }

  // ---------------------------------------------------------------- referential integrity

  /** The notebook names a profile that exists, in the first namespace that has it. */
  ghost predicate Refers(profiles: Profiles, appNs: string, sizes: seq<Size>, id: Name, nb: Notebook, changed: Notebook)
  {
    exists ns: string ::
      && TargetOf(nb, sizes).Some?
      && var t := TargetOf(nb, sizes).value;
         changed == WithProfile(nb, t.profile, ns) &&
         Wins(profiles, t.profile, t.apNamespace, id.namespace, appNs, ns)
  }

  /** Whatever failed: a notebook that a run changed refers to an existing profile, by the documented priority. */
  lemma ChangedNotebooksReferToProfiles(policy: Policy, faults: Faults, appNs: string, config: Config,
                                        aps: seq<AcceleratorProfile>, c: Cluster, id: Name)
    requires id in c.notebooks && config.notebookSizes.Ok?
    ensures var end := Run(policy, faults, appNs, Ok(Some(config)), aps, c).cluster;
            && end.notebooks.Keys == c.notebooks.Keys
            && (end.notebooks[id] != c.notebooks[id] ==>
                  Refers(end.profiles, appNs, config.notebookSizes.value, id, c.notebooks[id], end.notebooks[id]))
  {
    var end := Run(policy, faults, appNs, Ok(Some(config)), aps, c).cluster;
    var nb, sizes := c.notebooks[id], config.notebookSizes.value;
    if appNs != "" && end.notebooks[id] != nb {
      var made := SizePhase(faults, ApPhase(faults, c.profiles, aps, config).profiles, config, appNs).profiles;
      assert end.notebooks[id] == Attach(policy, faults, made, appNs, sizes, id, nb).notebook;
      var t := TargetOf(nb, sizes).value;
      var namespaces := Candidates(t.apNamespace, id.namespace, appNs);
      TargetNames(nb, sizes);
      SearchLaw(faults, made, id, t.profile, namespaces);
      var ns := SearchIn(faults, made, id, t.profile, namespaces).namespace;
      assert end.notebooks[id] == WithProfile(nb, t.profile, ns);
      assert AgreeOn(made, end.profiles, t.profile);
      SameHolder(made, end.profiles, t.profile, namespaces, ns);
      WinnerIsFirstHolder(end.profiles, t, id, appNs, ns);
    }
  }

  /** A notebook that selects a configured size and nothing else, and that is not skipped for Kueue. */
  ghost predicate WaitsForSizeProfile(policy: Policy, faults: Faults, sizes: seq<Size>, id: Name, nb: Notebook) {
    && Lookup(nb.annotations, PROFILE_NAME) == "" && Lookup(nb.annotations, ACCELERATOR_NAME) == ""
    && Lookup(nb.annotations, LAST_SIZE) != "" && SizeExists(sizes, Lookup(nb.annotations, LAST_SIZE))
    && !KueueSkipped(policy, faults, id, nb)
  }

  /** The profile of the size that a notebook selects. */
  function SelectedProfile(nb: Notebook): string {
    SizeProfileName(Lookup(nb.annotations, LAST_SIZE), NOTEBOOKS)
  }

  /** An unannotated notebook that asks for a profile and is not skipped for Kueue. */
  ghost predicate Waits(policy: Policy, faults: Faults, sizes: seq<Size>, id: Name, nb: Notebook) {
    && Lookup(nb.annotations, PROFILE_NAME) == "" && TargetOf(nb, sizes).Some?
    && !KueueSkipped(policy, faults, id, nb)
  }

  /**
   Annotated with the namespace that wins exactly when there is one and the webhook does not reject that
   update for Kueue's sake; as it was otherwise.
   */
  ghost predicate Settled(policy: Policy, end: Cluster, appNs: string, id: Name, nb: Notebook, t: Target)
    requires id in end.notebooks
  {
    if Findable(end.profiles, t, id.namespace, appNs) then
      exists ns: string ::
        && Wins(end.profiles, t.profile, t.apNamespace, id.namespace, appNs, ns)
        && (Lookup(end.notebooks[id].annotations, PROFILE_NAME) == t.profile <==>
              policy.admit(id, WithProfile(nb, t.profile, ns)) != KueueRejected)
        && end.notebooks[id] == if policy.admit(id, WithProfile(nb, t.profile, ns)) == KueueRejected then nb
                                else WithProfile(nb, t.profile, ns)
    else end.notebooks[id] == nb
  }

  /** One of the three namespaces holds the profile. */
  ghost predicate Findable(profiles: Profiles, t: Target, own: string, app: string) {
    exists ns: string :: Wins(profiles, t.profile, t.apNamespace, own, app, ns)
  }

  /** What an error-free run does to every notebook that waits for a profile, by accelerator or by size. */
  lemma WaitingNotebooksSettle(policy: Policy, faults: Faults, appNs: string, config: Config,
                               aps: seq<AcceleratorProfile>, c: Cluster, id: Name)
    requires appNs != "" && id in c.notebooks && config.notebookSizes.Ok?
    requires Run(policy, faults, appNs, Ok(Some(config)), aps, c).ok
    requires Waits(policy, faults, config.notebookSizes.value, id, c.notebooks[id])
    ensures var end := Run(policy, faults, appNs, Ok(Some(config)), aps, c).cluster;
            && id in end.notebooks && Complete(end.profiles, aps, config, appNs)
            && Settled(policy, end, appNs, id, c.notebooks[id],
                       TargetOf(c.notebooks[id], config.notebookSizes.value).value)
  {
    var sizes, nb := config.notebookSizes.value, c.notebooks[id];
    var t := TargetOf(nb, sizes).value;
    var end := Run(policy, faults, appNs, Ok(Some(config)), aps, c).cluster;
    var made := RunAttaches(policy, faults, appNs, config, aps, c, id);
    TargetNames(nb, sizes);
    CompleteGrows(made, end.profiles, aps, config, appNs);
    AttachSettles(policy, faults, made, end, appNs, sizes, id, nb);
  }

  lemma CompleteGrows(a: Profiles, b: Profiles, aps: seq<AcceleratorProfile>, config: Config, appNs: string)
    requires Complete(a, aps, config, appNs) && Grows(a, b)
    ensures Complete(b, aps, config, appNs)
  {
  }

  lemma AttachSettles(policy: Policy, faults: Faults, made: Profiles, end: Cluster, appNs: string, sizes: seq<Size>,
                      id: Name, nb: Notebook)
    requires Waits(policy, faults, sizes, id, nb) && id in end.notebooks
    requires AgreeOn(made, end.profiles, TargetOf(nb, sizes).value.profile)
    requires Attach(policy, faults, made, appNs, sizes, id, nb) == Attached(end.notebooks[id], true)
    ensures Settled(policy, end, appNs, id, nb, TargetOf(nb, sizes).value)
  {
    var t := TargetOf(nb, sizes).value;
    var namespaces := Candidates(t.apNamespace, id.namespace, appNs);
    var search := SearchIn(faults, made, id, t.profile, namespaces);
    SearchLaw(faults, made, id, t.profile, namespaces);
    TargetNames(nb, sizes);
    ProfileIsNews(nb, t.profile);
    if search.Found? {
      SameHolder(made, end.profiles, t.profile, namespaces, search.namespace);
      WinnerIsFirstHolder(end.profiles, t, id, appNs, search.namespace);
    } else {
      forall ns: string ensures !Wins(end.profiles, t.profile, t.apNamespace, id.namespace, appNs, ns) {
        WinnerIsFirstHolder(end.profiles, t, id, appNs, ns);
        NoHolder(made, end.profiles, t.profile, namespaces, ns);
      }
    }
  }

  lemma NoHolder(a: Profiles, b: Profiles, profile: string, namespaces: seq<string>, ns: string)
    requires AgreeOn(a, b, profile) && forall i :: 0 <= i < |namespaces| ==> Name(namespaces[i], profile) !in a
    ensures !FirstHolder(b, profile, namespaces, ns)
  {
  }

  /**
   The create phase and the attach phase agree on the names of size profiles: a notebook that selects a
   configured size finds its profile, at the latest in the application namespace.
   */
  lemma WaitingNotebooksAreAnnotated(policy: Policy, faults: Faults, appNs: string, config: Config,
                                     aps: seq<AcceleratorProfile>, c: Cluster, id: Name)
    requires appNs != "" && id in c.notebooks && config.notebookSizes.Ok?
    requires Run(policy, faults, appNs, Ok(Some(config)), aps, c).ok
    requires WaitsForSizeProfile(policy, faults, config.notebookSizes.value, id, c.notebooks[id])
    ensures var end, nb := Run(policy, faults, appNs, Ok(Some(config)), aps, c).cluster, c.notebooks[id];
            && id in end.notebooks
            && Findable(end.profiles, Target(SelectedProfile(nb), ""), id.namespace, appNs)
            && Settled(policy, end, appNs, id, nb, Target(SelectedProfile(nb), ""))
  {
    var sizes, nb := config.notebookSizes.value, c.notebooks[id];
    assert TargetOf(nb, sizes) == Some(Target(SelectedProfile(nb), ""));
    WaitingNotebooksSettle(policy, faults, appNs, config, aps, c, id);
    var i :| 0 <= i < |sizes| && sizes[i].name == Lookup(nb.annotations, LAST_SIZE);
    assert sizes[i] in sizes;
    var end := Run(policy, faults, appNs, Ok(Some(config)), aps, c).cluster;
    HeldIsFindable(end.profiles, Target(SelectedProfile(nb), ""), id.namespace, appNs, appNs);
  }

  lemma HeldIsFindable(profiles: Profiles, t: Target, own: string, app: string, ns: string)
    requires Name(ns, t.profile) in profiles && ns != "" && ns in {t.apNamespace, own, app}
    ensures Findable(profiles, t, own, app)
  {
    if t.apNamespace != "" && Name(t.apNamespace, t.profile) in profiles {
      assert Wins(profiles, t.profile, t.apNamespace, own, app, t.apNamespace);
    } else if own != "" && Name(own, t.profile) in profiles {
      assert Wins(profiles, t.profile, t.apNamespace, own, app, own);
    } else {
      assert Wins(profiles, t.profile, t.apNamespace, own, app, app);
    }
  }

  /**
   A notebook that names an accelerator looks for the profile created from an accelerator profile exactly
   when the resource name of that one is the lower-cased name with dashes.
   */
  lemma AcceleratorNamesAgree(nb: Notebook, sizes: seq<Size>, ap: AcceleratorProfile)
    requires Lookup(nb.annotations, ACCELERATOR_NAME) != ""
    ensures TargetOf(nb, sizes).Some?
    ensures TargetOf(nb, sizes).value.profile == ApName(ap, NOTEBOOKS).name <==>
            ap.id.name == CrdName(Lookup(nb.annotations, ACCELERATOR_NAME))
  {
    var wanted := CrdName(Lookup(nb.annotations, ACCELERATOR_NAME));
    assert "-" + NOTEBOOKS == "-notebooks";
    assert ap.id.name + "-" + NOTEBOOKS == ap.id.name + "-notebooks";
    assert (ap.id.name + "-notebooks")[..|ap.id.name|] == ap.id.name;
    if wanted + "-notebooks" == ap.id.name + "-notebooks" {
      assert |wanted| == |ap.id.name|;
      assert (wanted + "-notebooks")[..|wanted|] == wanted;
    }
  }

  /**
   Such a notebook is annotated, unless Kueue's webhook rejects it, whenever an accelerator profile of that
   name is in its hinted, own or the application namespace; the first of these that holds the profile wins.
   */
  lemma AcceleratorNotebooksAreAnnotated(policy: Policy, faults: Faults, appNs: string, config: Config,
                                         aps: seq<AcceleratorProfile>, c: Cluster, id: Name, ap: AcceleratorProfile)
    requires appNs != "" && id in c.notebooks && config.notebookSizes.Ok?
    requires Run(policy, faults, appNs, Ok(Some(config)), aps, c).ok
    requires Waits(policy, faults, config.notebookSizes.value, id, c.notebooks[id])
    requires var nb := c.notebooks[id];
             && Lookup(nb.annotations, ACCELERATOR_NAME) != "" && ap in aps
             && ap.id.name == CrdName(Lookup(nb.annotations, ACCELERATOR_NAME))
             && ap.id.namespace != ""
             && ap.id.namespace in {Lookup(nb.annotations, ACCELERATOR_NAMESPACE), id.namespace, appNs}
    ensures var end, nb := Run(policy, faults, appNs, Ok(Some(config)), aps, c).cluster, c.notebooks[id];
            var t := Target(ap.id.name + "-notebooks", Lookup(nb.annotations, ACCELERATOR_NAMESPACE));
            && id in end.notebooks
            && Findable(end.profiles, t, id.namespace, appNs)
            && Settled(policy, end, appNs, id, nb, t)
  {
    var nb := c.notebooks[id];
    AcceleratorNamesAgree(nb, config.notebookSizes.value, ap);
    WaitingNotebooksSettle(policy, faults, appNs, config, aps, c, id);
    assert ApName(ap, NOTEBOOKS).name == ap.id.name + "-notebooks";
    var end := Run(policy, faults, appNs, Ok(Some(config)), aps, c).cluster;
    var t := Target(ap.id.name + "-notebooks", Lookup(nb.annotations, ACCELERATOR_NAMESPACE));
    HeldIsFindable(end.profiles, t, id.namespace, appNs, ap.id.namespace);
  }

  /** The profiles the attach phase of an error-free run works with, and what it does to one notebook. */
  lemma RunAttaches(policy: Policy, faults: Faults, appNs: string, config: Config, aps: seq<AcceleratorProfile>,
                    c: Cluster, id: Name)
    returns (made: Profiles)
    requires appNs != "" && id in c.notebooks && config.notebookSizes.Ok?
    requires Run(policy, faults, appNs, Ok(Some(config)), aps, c).ok
    ensures Complete(made, aps, config, appNs)
    ensures var end := Run(policy, faults, appNs, Ok(Some(config)), aps, c).cluster;
            && id in end.notebooks
            && Attach(policy, faults, made, appNs, config.notebookSizes.value, id, c.notebooks[id]) ==
               Attached(end.notebooks[id], true)
            && Grows(made, end.profiles)
            && forall profile: string :: profile != CUSTOM_SERVING ==> AgreeOn(made, end.profiles, profile)
  {
    var one := ApPhase(faults, c.profiles, aps, config);
    made := SizePhase(faults, one.profiles, config, appNs).profiles;
    CreatePhases(faults, c.profiles, aps, config, appNs);
    assert Attach(policy, faults, made, appNs, config.notebookSizes.value, id, c.notebooks[id]).ok;
  }

  lemma SameHolder(a: Profiles, b: Profiles, profile: string, namespaces: seq<string>, ns: string)
    requires AgreeOn(a, b, profile) && FirstHolder(a, profile, namespaces, ns)
    ensures FirstHolder(b, profile, namespaces, ns)
  {
    var i :| 0 <= i < |namespaces| && namespaces[i] == ns && Name(ns, profile) in a &&
      forall j :: 0 <= j < i ==> Name(namespaces[j], profile) !in a;
    assert forall j :: 0 <= j < i ==> Name(namespaces[j], profile) !in b;
  }
}
