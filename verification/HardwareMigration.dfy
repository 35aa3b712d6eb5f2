/** The four phases as pkg/upgrade writes them: loops that create profiles and update notebooks in place. */
module HardwareMigration {
  import opened Common
  import opened HardwareProfiles

  class Upgrade {
    const policy: Policy
    const faults: Faults
    const appNs: string
    var profiles: Profiles
    var notebooks: Notebooks

    constructor (policy: Policy, faults: Faults, appNs: string, c: Cluster)
      ensures this.policy == policy && this.faults == faults && this.appNs == appNs && State() == c
    {
      this.policy, this.faults, this.appNs := policy, faults, appNs;
      this.profiles, this.notebooks := c.profiles, c.notebooks;
    }

    function State(): Cluster
      reads this
    {
      Cluster(profiles, notebooks)
    }

    /** cluster.CreateHardwareProfile: an existing profile is success and is left as it is. */
    method CreateHardwareProfile(id: Name, p: Profile) returns (ok: bool)
      modifies `profiles
      ensures Made(profiles, ok) == Create(faults, old(profiles), id, p)
    {
      if faults(CreateProfile(id)) {
        return false;
      }
      if id !in profiles {
        profiles := profiles[id := p];
      }
      return true;
    }

    method MigrateAcceleratorProfiles(aps: seq<AcceleratorProfile>, config: Config) returns (ok: bool)
      modifies `profiles
      ensures Made(profiles, ok) == ApPhase(faults, old(profiles), aps, config)
    {
      if faults(ListAccelerators) {
        return false;
      }
      if |aps| == 0 {
        return true;
      }
      if config.toleration.Err? || config.notebookCounts.Err? {
        return false;
      }
      var toleration, counts := config.toleration.value, config.notebookCounts.value;
      ok := true;
      for i := 0 to |aps|
        invariant Made(profiles, ok) == MakeForAps(faults, old(profiles), aps[..i], counts, toleration)
      {
        var ap := aps[i];
        assert aps[..i + 1][..i] == aps[..i];
        if ap.spec.None? {
          ok := false;
          continue;
        }
        var made := CreateHardwareProfile(ApName(ap, NOTEBOOKS), ApProfile(ap, NOTEBOOKS, counts, toleration));
        if !made {
          ok := false;
          continue;
        }
        made := CreateHardwareProfile(ApName(ap, SERVING), ApProfile(ap, SERVING, SERVING_COUNTS, []));
        if !made {
          ok := false;
        }
      }
      assert aps[..|aps|] == aps;
    }

    method CreateForSizes(sizes: seq<Size>, kind: string, toleration: seq<string>) returns (ok: bool)
      modifies `profiles
      ensures Made(profiles, ok) == MakeForSizes(faults, old(profiles), sizes, kind, toleration, appNs)
    {
      ok := true;
      for i := 0 to |sizes|
        invariant Made(profiles, ok) == MakeForSizes(faults, old(profiles), sizes[..i], kind, toleration, appNs)
      {
        assert sizes[..i + 1][..i] == sizes[..i];
        var made := CreateHardwareProfile(Name(appNs, SizeProfileName(sizes[i].name, kind)),
                                          SizeProfile(sizes[i], kind, toleration));
        if !made {
          ok := false;
        }
      }
      assert sizes[..|sizes|] == sizes;
    }

    method MigrateContainerSizes(config: Config) returns (ok: bool)
      modifies `profiles
      ensures Made(profiles, ok) == SizePhase(faults, old(profiles), config, appNs)
    {
      if config.toleration.Err? {
        return false;
      }
      ok := config.notebookSizes.Ok?;
      if config.notebookSizes.Ok? {
        ok := CreateForSizes(config.notebookSizes.value, NOTEBOOKS, config.toleration.value);
      }
      if config.modelServerSizes.Err? {
        return false;
      }
      var made := CreateForSizes(config.modelServerSizes.value, SERVING, []);
      ok := ok && made;
    }

    /** setHardwareProfileAnnotation: search in priority order, then update the notebook. */
    method SetHardwareProfileAnnotation(id: Name, t: Target) returns (error: Option<Admission>)
      requires id in notebooks
      modifies `notebooks
      ensures var nb := old(notebooks)[id];
              match TargetSearch(faults, profiles, appNs, id, t)
              case Broken => error == Some(Rejected) && notebooks == old(notebooks)
              case NotThere =>
                if faults(RecordEvent(id)) then error == Some(Rejected) && notebooks == old(notebooks)
                else Settles(old(notebooks), id, nb, error)
              case Found(ns) => Settles(old(notebooks), id, WithProfile(nb, t.profile, ns), error)
    {
      var changed := notebooks[id];
      TargetSearchIsSearch(faults, profiles, appNs, id, t);
      var namespaces := Candidates(t.apNamespace, id.namespace, appNs);
      var found: Option<string> := None;
      var i := 0;
      while i < |namespaces| && found.None?
        invariant 0 <= i <= |namespaces|
        invariant found.Some? ==> SearchIn(faults, profiles, id, t.profile, namespaces) == Found(found.value)
        invariant found.None? ==>
          SearchIn(faults, profiles, id, t.profile, namespaces) ==
            SearchIn(faults, profiles, id, t.profile, namespaces[i..])
        decreases |namespaces| - i, found.None?
      {
        assert namespaces[i..][1..] == namespaces[i + 1..];
        if faults(FindProfile(id, namespaces[i])) {
          return Some(Rejected);
        }
        if Name(namespaces[i], t.profile) in profiles {
          found := Some(namespaces[i]);
        }
        i := i + 1;
      }
      if found.Some? {
        changed := WithProfile(changed, t.profile, found.value);
      } else {
        assert namespaces[i..] == [];
        if faults(RecordEvent(id)) {
          return Some(Rejected);
        }
      }
      if faults(UpdateNotebook(id)) {
        return Some(Rejected);
      }
      match policy.admit(id, changed) {
        case Accepted =>
          notebooks := notebooks[id := changed];
          return None;
        case KueueRejected => return Some(KueueRejected);
        case Rejected => return Some(Rejected);
      }
    }

    /** The update went through or left the notebooks as they were. */
    ghost predicate Settles(before: Notebooks, id: Name, changed: Notebook, error: Option<Admission>)
      requires id in before
      reads this
    {
      if faults(UpdateNotebook(id)) then error == Some(Rejected) && notebooks == before
      else match policy.admit(id, changed)
        case Accepted => error == None && notebooks == before[id := changed]
        case KueueRejected => error == Some(KueueRejected) && notebooks == before
        case Rejected => error == Some(Rejected) && notebooks == before
    }

    /** One notebook of the attach loop; a rejection by the Kueue webhook is not an error. */
    method AttachOne(id: Name, sizes: seq<Size>) returns (ok: bool)
      requires id in notebooks
      modifies `notebooks
      ensures var done := Attach(policy, faults, profiles, appNs, sizes, id, old(notebooks)[id]);
              notebooks == old(notebooks)[id := done.notebook] && ok == done.ok
    {
      var nb := notebooks[id];
      assert notebooks[id := nb] == notebooks;
      if Lookup(nb.annotations, PROFILE_NAME) != "" {
        return true;
      }
      var target := TargetOf(nb, sizes);
      if target.None? {
        return true;
      }
      if id.namespace != "" {
        var unreadable := faults(ReadLabels(id));
        if !unreadable && policy.kueue(id.namespace) && nb.queueName == "" {
          return true;
        }
      }
      TargetSearchIsSearch(faults, profiles, appNs, id, target.value);
      var error := SetHardwareProfileAnnotation(id, target.value);
      return error.None? || error == Some(KueueRejected);
    }

    /** `listed` is the order in which the API server lists the notebooks. */
    method AttachHardwareProfiles(config: Config, listed: seq<Name>) returns (ok: bool)
      requires forall id :: id in listed <==> id in notebooks
      requires forall i, j :: 0 <= i < j < |listed| ==> listed[i] != listed[j]
      modifies `notebooks
      ensures AttachedAll(notebooks, ok) == AttachPhase(policy, faults, profiles, old(notebooks), config, appNs)
    {
      if faults(ListNotebooks) {
        return false;
      }
      if |listed| == 0 {
        assert notebooks == map[] by {
          assert forall id :: id in notebooks ==> id in listed;
        }
        return true;
      }
      assert listed[0] in notebooks;
      if config.notebookSizes.Err? {
        return false;
      }
      var sizes := config.notebookSizes.value;
      ghost var before := notebooks;
      ok := true;
      for i := 0 to |listed|
        invariant notebooks.Keys == before.Keys
        invariant forall j :: 0 <= j < i ==>
          notebooks[listed[j]] == Attach(policy, faults, profiles, appNs, sizes, listed[j], before[listed[j]]).notebook
        invariant forall j :: i <= j < |listed| ==> notebooks[listed[j]] == before[listed[j]]
        invariant ok <==> forall j :: 0 <= j < i ==>
          Attach(policy, faults, profiles, appNs, sizes, listed[j], before[listed[j]]).ok
      {
        var done := AttachOne(listed[i], sizes);
        ok := ok && done;
      }
      assert notebooks == map id | id in before ::
               Attach(policy, faults, profiles, appNs, sizes, id, before[id]).notebook;
    }

    method CreateCustomServing() returns (ok: bool)
      modifies `profiles
      ensures Made(profiles, ok) == CustomPhase(faults, old(profiles), appNs)
    {
      if faults(CheckCustomServing) {
        return false;
      }
      if Name(appNs, CUSTOM_SERVING) in profiles {
        return true;
      }
      ok := CreateHardwareProfile(Name(appNs, CUSTOM_SERVING), CustomServingProfile());
    }

    /** MigrateToInfraHardwareProfiles: every phase runs, whatever the earlier ones reported. */
    method Migrate(config: Result<Option<Config>, ()>, aps: seq<AcceleratorProfile>, listed: seq<Name>)
      returns (ok: bool)
      requires forall id :: id in listed <==> id in notebooks
      requires forall i, j :: 0 <= i < j < |listed| ==> listed[i] != listed[j]
      modifies this
      ensures Outcome(State(), ok) == Run(policy, faults, appNs, config, aps, old(State()))
    {
      if appNs == "" {
        return true;
      }
      if config.Err? {
        return false;
      }
      if config.value.None? {
        return true;
      }
      var cfg := config.value.value;
      var one := MigrateAcceleratorProfiles(aps, cfg);
      var two := MigrateContainerSizes(cfg);
      var three := AttachHardwareProfiles(cfg, listed);
      var four := CreateCustomServing();
      return one && two && three && four;
    }
  }
}
