/**
 The API objects that storage-version migration reads and writes: CustomResourceDefinitions,
 StorageVersionMigration requests and discovery answers.
 */
module StorageTypes {
  import opened Common

  datatype CrdVersion = CrdVersion(name: string, served: bool, storage: bool)

  /** A CRD as the API server returns it. Resource version 0 stands for the empty string. */
  datatype Crd = Crd(
    name: string,
    uid: string,
    resourceVersion: nat,
    generation: nat,
    deleting: bool,
    group: string,
    plural: string,
    versions: seq<CrdVersion>,
    storedVersions: seq<string>)

  /** A migration API: the resource is always storageversionmigrations. */
  datatype Api = Api(group: string, version: string) {
    function GroupVersion(): string {
      group + "/" + version
    }
  }

  const REQUEST_KIND := "StorageVersionMigration"
  const REQUEST_RESOURCE := "storageversionmigrations"
  const MANAGED_BY_LABEL := "app.kubernetes.io/managed-by"
  const OPERATOR_NAME := "opendatahub-operator"
  const CRD_UID_ANNOTATION := "storage-migration.opendatahub.io/crd-uid"
  const CRD_GENERATION_ANNOTATION := "storage-migration.opendatahub.io/crd-generation"
  const STORAGE_VERSION_ANNOTATION := "storage-migration.opendatahub.io/storage-version"

  /** The resource a request asks to migrate; only the alpha APIs carry a version. */
  datatype ResourceRef = ResourceRef(group: string, resource: string, version: Option<string>)

  datatype RequestCondition = RequestCondition(kind: string, status: string)

  /**
   A StorageVersionMigration request. `conditions` is None when the status does not decode;
   `created` is the logical time at which the API server stored the request.
   */
  datatype Request = Request(
    name: string,
    uid: string,
    deleting: bool,
    kind: string,
    apiVersion: string,
    labels: map<string, string>,
    annotations: map<string, string>,
    spec: ResourceRef,
    conditions: Option<seq<RequestCondition>>,
    created: nat)

  /** What discovery answers for one group and version. */
  datatype ApiResource = ApiResource(name: string, namespaced: bool, kind: string)

  datatype Discovery =
    | Missing
    | Unreachable(cause: CallError)
    | EmptyAnswer
    | Resources(groupVersion: string, resources: seq<ApiResource>)

  /** Why a call or a whole attempt ended without success. */
  datatype CallError = Canceled | DeadlineExceeded | Refused
}
