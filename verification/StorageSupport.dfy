/** Checks and constructors of pkg/storagemigration/migration_support.go. */
module StorageSupport {
  import opened Common
  import opened StorageTypes

  // ---------------------------------------------------------------- storageVersion

  function Flagged(versions: seq<CrdVersion>): seq<CrdVersion> {
    if versions == [] then [] else
      (if versions[0].storage then [versions[0]] else []) + Flagged(versions[1..])
  }

  predicate UsableIdentity(crd: Crd) {
    && crd.uid != "" && crd.resourceVersion != 0
    && !crd.deleting
    && crd.group != "" && crd.plural != "" && crd.name == crd.plural + "." + crd.group
  }

  predicate CleanHistory(history: seq<string>) {
    && (forall i :: 0 <= i < |history| ==> history[i] != "")
    && (forall i, j :: 0 <= i < j < |history| ==> history[i] != history[j])
  }

  /** The version objects are written at, for a CRD that migration may touch. */
  function StorageOf(crd: Crd): Option<string> {
    var flagged := Flagged(crd.versions);
    if UsableIdentity(crd)
       && |flagged| == 1 && flagged[0].name != "" && flagged[0].served
       && flagged[0].name in crd.storedVersions && CleanHistory(crd.storedVersions)
    then Some(flagged[0].name)
    else None
  }

  /** `version` is the one version flagged for storage; it is named and served. */
  ghost predicate SoleStorageVersion(versions: seq<CrdVersion>, version: string) {
    version != "" &&
    exists i :: 0 <= i < |versions| && versions[i] == CrdVersion(version, true, true) &&
      forall j :: 0 <= j < |versions| && versions[j].storage ==> j == i
  }

  lemma {:induction false} FlaggedElements(versions: seq<CrdVersion>, v: CrdVersion)
    ensures v in Flagged(versions) <==> v in versions && v.storage
  {
    if versions != [] {
      FlaggedElements(versions[1..], v);
      assert versions == [versions[0]] + versions[1..];
    }
  }

  lemma {:induction false} NoneFlagged(versions: seq<CrdVersion>)
    requires forall j :: 0 <= j < |versions| ==> !versions[j].storage
    ensures Flagged(versions) == []
  {
    if versions != [] {
      NoneFlagged(versions[1..]);
    }
  }

  lemma {:induction false} FlaggedSingle(versions: seq<CrdVersion>, i: int)
    requires 0 <= i < |versions| && versions[i].storage
    requires forall j :: 0 <= j < |versions| && versions[j].storage ==> j == i
    ensures Flagged(versions) == [versions[i]]
  {
    if i == 0 {
      NoneFlagged(versions[1..]);
    } else {
      assert !versions[0].storage;
      FlaggedSingle(versions[1..], i - 1);
    }
  }

  lemma {:induction false} FlaggedIndex(versions: seq<CrdVersion>) returns (i: int)
    requires |Flagged(versions)| == 1
    ensures 0 <= i < |versions| && versions[i] == Flagged(versions)[0] && versions[i].storage
    ensures forall j :: 0 <= j < |versions| && versions[j].storage ==> j == i
  {
    if versions[0].storage {
      i := 0;
      forall j | 0 < j < |versions| ensures !versions[j].storage {
        assert versions[j] in versions[1..] by { assert versions[1..][j - 1] == versions[j]; }
        FlaggedElements(versions[1..], versions[j]);
        assert Flagged(versions[1..]) == [];
      }
    } else {
      i := FlaggedIndex(versions[1..]);
      i := i + 1;
      forall j | 0 <= j < |versions| && versions[j].storage ensures j == i {
        assert versions[1..][j - 1] == versions[j];
      }
    }
  }

  /** Success is exactly: usable identity, one served storage version, clean history containing it. */
  lemma StorageOfExact(crd: Crd, version: string)
    ensures StorageOf(crd) == Some(version) <==>
            && crd.uid != "" && crd.resourceVersion != 0 && !crd.deleting
            && crd.group != "" && crd.plural != "" && crd.name == crd.plural + "." + crd.group
            && SoleStorageVersion(crd.versions, version)
            && version in crd.storedVersions && "" !in crd.storedVersions
            && (forall i, j :: 0 <= i < j < |crd.storedVersions| ==> crd.storedVersions[i] != crd.storedVersions[j])
  {
    assert "" !in crd.storedVersions <==>
           forall i :: 0 <= i < |crd.storedVersions| ==> crd.storedVersions[i] != "";
    if StorageOf(crd) == Some(version) {
      var i := FlaggedIndex(crd.versions);
      assert crd.versions[i] == CrdVersion(version, true, true);
    }
    if SoleStorageVersion(crd.versions, version) {
      var i :| 0 <= i < |crd.versions| && crd.versions[i] == CrdVersion(version, true, true) &&
        forall j :: 0 <= j < |crd.versions| && crd.versions[j].storage ==> j == i;
      FlaggedSingle(crd.versions, i);
    }
  }

  /** A CRD with two served versions and both in its history is one to migrate. */
  lemma StorageOfExample(crd: Crd)
    requires crd.uid == "u" && crd.resourceVersion == 7 && !crd.deleting
    requires crd.name == "dscs.odh.io" && crd.group == "odh.io" && crd.plural == "dscs"
    requires crd.versions == [CrdVersion("v2", true, false), CrdVersion("v3", true, true)]
    requires crd.storedVersions == ["v2", "v3"]
    ensures StorageOf(crd) == Some("v3")
  {
    assert "v2"[1] != "v3"[1];
    assert crd.name == crd.plural + "." + crd.group;
    TwoVersions(crd, "v2", "v3");
  }

  lemma TwoVersions(crd: Crd, a: string, b: string)
    requires crd.uid != "" && crd.resourceVersion != 0 && !crd.deleting && crd.group != "" && crd.plural != ""
    requires crd.name == crd.plural + "." + crd.group && a != "" && b != "" && a != b
    requires crd.versions == [CrdVersion(a, true, false), CrdVersion(b, true, true)] && crd.storedVersions == [a, b]
    ensures StorageOf(crd) == Some(b)
  {
    assert crd.versions[1] == CrdVersion(b, true, true);
    assert crd.storedVersions[1] == b;
    StorageOfExact(crd, b);
  }

  lemma {:induction false} FlaggedAppend(versions: seq<CrdVersion>, v: CrdVersion)
    ensures Flagged(versions + [v]) == Flagged(versions) + if v.storage then [v] else []
  {
    if versions == [] {
      assert [] + [v] == [v];
    } else {
      FlaggedAppend(versions[1..], v);
      assert (versions + [v])[1..] == versions[1..] + [v];
    }
  }

  /** storageVersion: two scans, one for the storage version and one for the history. */
  method StorageVersion(crd: Crd) returns (result: Option<string>)
    ensures result == StorageOf(crd)
  {
    if crd.uid == "" || crd.resourceVersion == 0 || crd.deleting {
      return None;
    }
    if crd.group == "" || crd.plural == "" || crd.name != crd.plural + "." + crd.group {
      return None;
    }
    var storage := "";
    for i := 0 to |crd.versions|
      invariant storage == "" ==> Flagged(crd.versions[..i]) == []
      invariant storage != "" ==> Flagged(crd.versions[..i]) == [CrdVersion(storage, true, true)]
    {
      var version := crd.versions[i];
      FlaggedAppend(crd.versions[..i], version);
      assert crd.versions[..i + 1] == crd.versions[..i] + [version];
      if version.storage {
        if storage != "" || version.name == "" || !version.served {
          FlaggedPrefix(crd.versions, i + 1);
          return None;
        }
        storage := version.name;
      }
    }
    assert crd.versions[..|crd.versions|] == crd.versions;
    if storage == "" || storage !in crd.storedVersions {
      return None;
    }
    var seen: set<string> := {};
    for i := 0 to |crd.storedVersions|
      invariant seen == set j | 0 <= j < i :: crd.storedVersions[j]
      invariant CleanHistory(crd.storedVersions[..i])
    {
      var version := crd.storedVersions[i];
      if version == "" || version in seen {
        assert !CleanHistory(crd.storedVersions);
        return None;
      }
      seen := seen + {version};
    }
    assert crd.storedVersions[..|crd.storedVersions|] == crd.storedVersions;
    return Some(storage);
  }

  /** A flagged prefix is a prefix of the flagged list. */
  lemma {:induction false} FlaggedPrefix(versions: seq<CrdVersion>, n: nat)
    requires n <= |versions|
    ensures Flagged(versions[..n]) <= Flagged(versions)
    decreases |versions| - n
  {
    if n == |versions| {
      assert versions[..n] == versions;
    } else {
      FlaggedAppend(versions[..n], versions[n]);
      assert versions[..n + 1] == versions[..n] + [versions[n]];
      FlaggedPrefix(versions, n + 1);
    }
  }

  // ---------------------------------------------------------------- requests

  function Identity(crd: Crd, storage: string): string {
    crd.name + "/" + crd.uid + "/" + Decimal(crd.generation) + "/" + storage
  }

  /** The annotations that tie a request to one generation of one CRD. */
  function Marks(crd: Crd, storage: string): map<string, string> {
    map[
      CRD_UID_ANNOTATION := crd.uid,
      CRD_GENERATION_ANNOTATION := Decimal(crd.generation),
      STORAGE_VERSION_ANNOTATION := storage
    ]
  }

  function RequestSpec(crd: Crd, storage: string, api: Api): ResourceRef {
    ResourceRef(crd.group, crd.plural, if api.version == "v1alpha1" then Some(storage) else None)
  }

  /**
   newRequest. The name is a truncated digest of the identity; `digest` is any function, so
   nothing below assumes that distinct identities get distinct names.
   */
  function NewRequest(digest: string -> string, crd: Crd, storage: string, api: Api): Request {
    Request(
      "odh-storage-" + digest(Identity(crd, storage)),
      "", false, REQUEST_KIND, api.GroupVersion(),
      map[MANAGED_BY_LABEL := OPERATOR_NAME],
      Marks(crd, storage),
      RequestSpec(crd, storage, api),
      Some([]), 0)
  }

  /** The request is named after the CRD state it is for, and only the alpha APIs are told the version. */
  lemma NewRequestExact(digest: string -> string, crd: Crd, storage: string, api: Api)
    ensures var r := NewRequest(digest, crd, storage, api);
            && r.name == "odh-storage-" +
                         digest(crd.name + "/" + crd.uid + "/" + Decimal(crd.generation) + "/" + storage)
            && r.kind == "StorageVersionMigration" && r.apiVersion == api.group + "/" + api.version
            && r.labels == map["app.kubernetes.io/managed-by" := "opendatahub-operator"]
            && r.spec.group == crd.group && r.spec.resource == crd.plural
            && (r.spec.version == Some(storage) <==> api.version == "v1alpha1")
            && (r.spec.version == None <==> api.version != "v1alpha1")
            && Verdict(r) == Ok(false)
  {
  }

  /** What makes a request acceptable for a CRD state, field by field; `uid` is that of an adopted request, if any. */
  lemma ValidRequestExact(digest: string -> string, crd: Crd, storage: string, api: Api, r: Request, uid: string)
    ensures ValidRequest(r, NewRequest(digest, crd, storage, api), uid) <==>
            && (uid == "" || r.uid == uid) && r.uid != "" && !r.deleting
            && r.name == NewRequest(digest, crd, storage, api).name
            && r.kind == "StorageVersionMigration" && r.apiVersion == api.group + "/" + api.version
            && Lookup(r.labels, "app.kubernetes.io/managed-by") == "opendatahub-operator"
            && Lookup(r.annotations, CRD_UID_ANNOTATION) == crd.uid
            && Lookup(r.annotations, CRD_GENERATION_ANNOTATION) == Decimal(crd.generation)
            && Lookup(r.annotations, STORAGE_VERSION_ANNOTATION) == storage
            && r.spec.group == crd.group && r.spec.resource == crd.plural
            && r.spec.version == if api.version == "v1alpha1" then Some(storage) else None
  {
    var marks := Marks(crd, storage);
    assert |CRD_UID_ANNOTATION| != |CRD_GENERATION_ANNOTATION|;
    assert CRD_UID_ANNOTATION in marks && CRD_GENERATION_ANNOTATION in marks && STORAGE_VERSION_ANNOTATION in marks;
  }

  predicate Managed(request: Request) {
    Lookup(request.labels, MANAGED_BY_LABEL) == OPERATOR_NAME
  }

  /** validateRequest; `uid` is empty until a request has been adopted. */
  predicate ValidRequest(request: Request, expected: Request, uid: string) {
    && (uid != "" ==> request.uid == uid)
    && request.uid != "" && !request.deleting
    && request.name == expected.name && request.kind == REQUEST_KIND
    && request.apiVersion == expected.apiVersion
    && Managed(request)
    && (forall key :: key in expected.annotations ==>
          Lookup(request.annotations, key) == expected.annotations[key])
    && request.spec == expected.spec
  }

  // ---------------------------------------------------------------- requestSucceeded

  predicate KnownStatus(status: string) {
    status == "True" || status == "False" || status == "Unknown"
  }

  predicate Reports(conditions: seq<RequestCondition>, kind: string) {
    RequestCondition(kind, "True") in conditions
  }

  /** The verdict on a request: an error, or whether it succeeded. Stated over the set of conditions. */
  function Verdict(request: Request): Result<bool, ()> {
    match request.conditions
    case None => Err(())
    case Some(cs) =>
      if (exists c :: c in cs && !KnownStatus(c.status)) || Reports(cs, "Failed")
      then Err(())
      else Ok(Reports(cs, "Succeeded"))
  }

  /** Success means that every status is known, some condition says Succeeded and none says Failed. */
  lemma VerdictExact(request: Request)
    requires request.conditions.Some?
    ensures var cs := request.conditions.value;
            var known := forall i :: 0 <= i < |cs| ==> cs[i].status in {"True", "False", "Unknown"};
            var failed := exists i :: 0 <= i < |cs| && cs[i].kind == "Failed" && cs[i].status == "True";
            var succeeded := exists i :: 0 <= i < |cs| && cs[i].kind == "Succeeded" && cs[i].status == "True";
            && (Verdict(request) == Ok(true) <==> known && succeeded && !failed)
            && (Verdict(request) == Ok(false) <==> known && !succeeded && !failed)
            && (Verdict(request).Err? <==> !known || failed)
  {
    var cs := request.conditions.value;
    assert forall i :: 0 <= i < |cs| ==> cs[i] in cs;
    forall kind: string
      ensures Reports(cs, kind) <==> exists i :: 0 <= i < |cs| && cs[i].kind == kind && cs[i].status == "True"
    {
      if i :| 0 <= i < |cs| && cs[i].kind == kind && cs[i].status == "True" {
        assert cs[i] == RequestCondition(kind, "True");
      }
    }
  }

  /** requestSucceeded: one scan that stops at the first bad condition. */
  method RequestSucceeded(request: Request) returns (result: Result<bool, ()>)
    ensures result == Verdict(request)
  {
    if request.conditions.None? {
      return Err(());
    }
    var cs := request.conditions.value;
    var complete := false;
    for i := 0 to |cs|
      invariant forall j :: 0 <= j < i ==>
        KnownStatus(cs[j].status) && cs[j] != RequestCondition("Failed", "True")
      invariant complete <==> Reports(cs[..i], "Succeeded")
    {
      var condition := cs[i];
      assert cs[..i + 1] == cs[..i] + [condition];
      if condition.status == "False" || condition.status == "Unknown" {
        continue;
      }
      if condition.status != "True" {
        assert condition in cs;
        return Err(());
      }
      if condition.kind == "Failed" {
        assert condition == RequestCondition("Failed", "True");
        return Err(());
      }
      if condition.kind == "Succeeded" {
        assert condition == RequestCondition("Succeeded", "True");
        complete := true;
      }
    }
    assert cs[..|cs|] == cs;
    return Ok(complete);
  }

  /** The order in which the controller lists conditions does not matter. */
  lemma VerdictIgnoresOrder(a: Request, b: Request)
    requires a.conditions.Some? && b.conditions.Some?
    requires multiset(a.conditions.value) == multiset(b.conditions.value)
    ensures Verdict(a) == Verdict(b)
  {
    var xs, ys := a.conditions.value, b.conditions.value;
    forall c ensures c in xs <==> c in ys {
      assert c in xs <==> c in multiset(xs);
      assert c in ys <==> c in multiset(ys);
    }
  }

  // ---------------------------------------------------------------- discoverMigrationAPI

  const MIGRATION_APIS: seq<Api> := [
    Api("storagemigration.k8s.io", "v1"),
    Api("storagemigration.k8s.io", "v1beta1"),
    Api("storagemigration.k8s.io", "v1alpha1"),
    Api("migration.k8s.io", "v1alpha1")
  ]

  /** The newest API of the built-in group is asked for first, that of the older group last. */
  lemma ApiPreference()
    ensures |MIGRATION_APIS| == 4
    ensures MIGRATION_APIS[0].GroupVersion() == "storagemigration.k8s.io/v1"
    ensures MIGRATION_APIS[1].GroupVersion() == "storagemigration.k8s.io/v1beta1"
    ensures MIGRATION_APIS[2].GroupVersion() == "storagemigration.k8s.io/v1alpha1"
    ensures MIGRATION_APIS[3].GroupVersion() == "migration.k8s.io/v1alpha1"
  {
  }

  /** `i` is the first listed resource with the migration resource's name. */
  ghost predicate FirstNamed(resources: seq<ApiResource>, i: int) {
    && 0 <= i < |resources| && resources[i].name == REQUEST_RESOURCE
    && forall j :: 0 <= j < i ==> resources[j].name != REQUEST_RESOURCE
  }

  /** The API is not offered: discovery may go on to the next one. */
  ghost predicate NotOffered(answer: Discovery) {
    answer.Missing? ||
    (answer.Resources? && forall j :: 0 <= j < |answer.resources| ==> answer.resources[j].name != REQUEST_RESOURCE)
  }

  ghost predicate Offered(answer: Discovery, api: Api) {
    answer.Resources? && answer.groupVersion == api.GroupVersion() &&
    exists i :: FirstNamed(answer.resources, i) &&
      !answer.resources[i].namespaced && answer.resources[i].kind == REQUEST_KIND
  }

  /** The first answer that ends discovery, one way or the other. */
  ghost predicate Decisive(answers: seq<Discovery>, k: int) {
    0 <= k < |answers| && !NotOffered(answers[k]) && forall j :: 0 <= j < k ==> NotOffered(answers[j])
  }

  /** `answers[k]` is the discovery answer for the k-th supported API. */
  method DiscoverMigrationApi(answers: seq<Discovery>) returns (result: Result<Api, CallError>)
    requires |answers| == |MIGRATION_APIS|
    ensures forall k :: 0 <= k < |answers| ==>
      (result == Ok(MIGRATION_APIS[k]) <==>
         Offered(answers[k], MIGRATION_APIS[k]) && forall j :: 0 <= j < k ==> NotOffered(answers[j]))
    ensures result.Ok? ==> result.value in MIGRATION_APIS
    ensures forall k :: Decisive(answers, k) && answers[k].Unreachable? ==> result == Err(answers[k].cause)
    ensures forall k :: Decisive(answers, k) && !answers[k].Unreachable? && !Offered(answers[k], MIGRATION_APIS[k]) ==>
              result == Err(Refused)
    ensures (forall k :: 0 <= k < |answers| ==> NotOffered(answers[k])) ==> result == Err(Refused)
  {
    for k := 0 to |MIGRATION_APIS|
      invariant forall j :: 0 <= j < k ==> NotOffered(answers[j])
    {
      var api := MIGRATION_APIS[k];
      match answers[k] {
        case Missing =>
        case Unreachable(cause) =>
          return Err(cause);
        case EmptyAnswer =>
          return Err(Refused);
        case Resources(groupVersion, resources) =>
          for i := 0 to |resources|
            invariant forall j :: 0 <= j < i ==> resources[j].name != REQUEST_RESOURCE
          {
            if resources[i].name == REQUEST_RESOURCE {
              assert FirstNamed(resources, i);
              if resources[i].namespaced || resources[i].kind != REQUEST_KIND || groupVersion != api.GroupVersion() {
                return Err(Refused);
              }
              assert Offered(answers[k], api);
              return Ok(api);
            }
          }
      }
    }
    return Err(Refused);
  }
}
