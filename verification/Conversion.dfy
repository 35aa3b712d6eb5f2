/**
 DataScienceCluster v2/v3 conversion (api/datasciencecluster/v2/datasciencecluster_conversion.go).
 State that one version cannot express travels in conversion-owned annotations. Components that
 are copied unchanged are lumped into opaque fields, and a nil annotation map is the empty map.
 */
module Conversion {
  import opened Common
  import opened Conditions
  import opened MaasProvenance

  /** Content that conversion copies without looking at it. */
  type Opaque = string

  const MODEL_EXPRESS_MARKER := "conversion.opendatahub.io/modelexpress-v3-state"
  const MODEL_EXPRESS_MANAGED := "managed"
  const KSERVE_MARKER := "conversion.opendatahub.io/kserve-v3-state"
  const AUDIT_REMOVED := "Removed"
  const AUDIT_METADATA := "Metadata"
  const LUKS_MAX_LENGTH := 2048
  const INIT_DATA_MAX_LENGTH := 8192

  // ---------------------------------------------------------------- v3-only KServe settings

  datatype Confidential = Confidential(luksResourceId: string, initData: string)

  datatype KserveState = KserveState(confidential: Option<Confidential>, audit: string)

  function Split(s: string, separator: char): (parts: seq<string>)
    ensures parts != []
  {
    if s == [] then [[]] else
      var rest := Split(s[1..], separator);
      if s[0] == separator then [[]] + rest else [[s[0]] + rest[0]] + rest[1..]
  }

  predicate SegmentChar(c: char) {
    c != '/' && c != ' ' && c != '\t' && c != '\n' && c != '\U{c}' && c != '\r' && c != '?' && c != '#'
  }

  /** kbs:///repository/type/tag with three non-empty segments. */
  predicate LuksPattern(id: string) {
    && |id| >= 7 && id[..7] == "kbs:///"
    && var parts := Split(id[7..], '/');
       |parts| == 3 && forall i :: 0 <= i < 3 ==>
           parts[i] != [] && forall j :: 0 <= j < |parts[i]| ==> SegmentChar(parts[i][j])
  }

  predicate ValidConfidential(c: Confidential) {
    && |c.luksResourceId| <= LUKS_MAX_LENGTH && LuksPattern(c.luksResourceId)
    && (forall segment :: segment in Split(c.luksResourceId, '/') ==> segment != "." && segment != "..")
    && |c.initData| <= INIT_DATA_MAX_LENGTH
  }

  predicate ValidAudit(profile: string) {
    profile == "" || profile == AUDIT_REMOVED || profile == AUDIT_METADATA
  }

  /** kserveV3State.validate: an empty payload is refused as well. */
  predicate ValidState(s: KserveState) {
    && (s.confidential.Some? || s.audit != "")
    && ValidAudit(s.audit)
    && (s.confidential.Some? ==> ValidConfidential(s.confidential.value))
  }

  /** The annotation's encoding: any codec whose decoder undoes its encoder. */
  datatype Codec = Codec(encode: KserveState -> string, decode: string -> Option<KserveState>)

  ghost predicate Faithful(codec: Codec) {
    forall s: KserveState :: codec.decode(codec.encode(s)) == Some(s)
  }

  // ---------------------------------------------------------------- the two versions

  datatype Gateway = Gateway(state: ManagementState, maas: ManagementState, rest: Opaque)

  datatype Reported = Reported(state: ManagementState, detail: Option<(Opaque, Opaque)>)

  datatype StatusV2 = StatusV2(
    conditions: Option<seq<Condition>>,
    modelRegistry: Reported, feastOperator: Reported, maasConsumerPortal: Opaque,
    trainingOperator: ManagementState, llamaStackOperator: ManagementState,
    others: Opaque)

  datatype V2 = V2(
    meta: Opaque, annotations: Annotations,
    dashboard: ManagementState, maasConsumerPortal: ManagementState,
    kserve: ManagementState, kserveCommon: Opaque, wva: ManagementState, legacyMaas: ManagementState,
    modelRegistry: ManagementState, registriesNamespace: Opaque,
    feastOperator: ManagementState, dataRegistry: Opaque,
    gateway: Gateway,
    trainingOperator: ManagementState, llamaStackOperator: ManagementState,
    others: Opaque,
    status: StatusV2)

  datatype StatusV3 = StatusV3(
    conditions: Option<seq<Condition>>,
    aiHub: Reported, data: Reported, maasPortal: Opaque,
    others: Opaque)

  datatype V3 = V3(
    meta: Opaque, annotations: Annotations,
    dashboardStandard: ManagementState, dashboardMaasPortal: ManagementState,
    kserve: ManagementState, kserveCommon: Opaque,
    modelExpress: ManagementState, kserveState: KserveState,
    aiHub: ManagementState, instancesNamespace: Opaque,
    featureStore: ManagementState, dataRegistry: Opaque,
    gateway: Gateway,
    others: Opaque,
    status: StatusV3)

  const TO_V3: map<string, string> := map[
    "ModelRegistryReady" := "AIHubReady",
    "FeastOperatorReady" := "DataReady",
    "MaaSConsumerPortalAvailable" := "MaaSPortalAvailable"
  ]

  const TO_V2: map<string, string> := map[
    "AIHubReady" := "ModelRegistryReady",
    "DataReady" := "FeastOperatorReady",
    "MaaSPortalAvailable" := "MaaSConsumerPortalAvailable"
  ]

  lemma SixNames(a: string, b: string, c: string, x: string, y: string, z: string)
    requires a != b && a != c && b != c && x != y && x != z && y != z
    requires a != x && a != y && a != z && b != x && b != y && b != z && c != x && c != y && c != z
    ensures var m := map[a := x, b := y, c := z];
            var r := map[x := a, y := b, z := c];
            OneToOne(m) && Fresh(m) && Inverse(m, r)
  {
  }

  lemma NamesAreInverse()
    ensures OneToOne(TO_V3) && Fresh(TO_V3) && OneToOne(TO_V2) && Fresh(TO_V2)
    ensures Inverse(TO_V3, TO_V2) && Inverse(TO_V2, TO_V3)
  {
    var a, b, c := "ModelRegistryReady", "FeastOperatorReady", "MaaSConsumerPortalAvailable";
    var x, y, z := "AIHubReady", "DataReady", "MaaSPortalAvailable";
    assert |a| == 18 && |b| == 18 && |c| == 27 && |x| == 10 && |y| == 9 && |z| == 19 && a[0] != b[0];
    SixNames(a, b, c, x, y, z);
    SixNames(x, y, z, a, b, c);
  }

  lemma MarkersDiffer()
    ensures MAAS_MARKER != MODEL_EXPRESS_MARKER && MAAS_MARKER != KSERVE_MARKER && MODEL_EXPRESS_MARKER != KSERVE_MARKER
  {
    assert |MAAS_MARKER| == 39 && |MODEL_EXPRESS_MARKER| == 47 && |KSERVE_MARKER| == 41;
  }

  // ---------------------------------------------------------------- what the conversions compute

  /** Legacy enablement counts only under a managed KServe. */
  predicate LegacyEffective(src: V2) {
    src.kserve == Managed && src.legacyMaas == Managed
  }

  predicate MaasEnabledV2(src: V2) {
    src.gateway.maas == Managed || LegacyEffective(src)
  }

  function GatewayToV3(src: V2): Gateway {
    Gateway(
      if src.gateway.state == Unset && LegacyEffective(src) then Managed else src.gateway.state,
      if MaasEnabledV2(src) then Managed else Removed,
      src.gateway.rest)
  }

  function ReadModelExpress(annotations: Annotations): Result<ManagementState, ()> {
    if MODEL_EXPRESS_MARKER !in annotations then Ok(Unset)
    else if annotations[MODEL_EXPRESS_MARKER] == MODEL_EXPRESS_MANAGED then Ok(Managed)
    else Err(())
  }

  function ReadKserveState(codec: Codec, annotations: Annotations): Result<KserveState, ()> {
    if KSERVE_MARKER !in annotations then Ok(KserveState(None, ""))
    else
      var decoded := codec.decode(annotations[KSERVE_MARKER]);
      if decoded.Some? && ValidState(decoded.value) then Ok(decoded.value) else Err(())
  }

  function ToV3(codec: Codec, src: V2): Result<V3, ()> {
    match (ReadModelExpress(src.annotations), ReadKserveState(codec, src.annotations))
    case (Ok(modelExpress), Ok(kserveState)) =>
      Ok(V3(
        src.meta,
        Preserve(src.annotations - {MODEL_EXPRESS_MARKER, KSERVE_MARKER}, src.gateway.maas, src.legacyMaas),
        src.dashboard, src.maasConsumerPortal,
        src.kserve, src.kserveCommon, modelExpress, kserveState,
        src.modelRegistry, src.registriesNamespace,
        src.feastOperator, src.dataRegistry,
        GatewayToV3(src),
        src.others,
        StatusV3(Mapped(src.status.conditions, TO_V3), src.status.modelRegistry, src.status.feastOperator,
                 src.status.maasConsumerPortal, src.status.others)))
    case _ => Err(())
  }

  /** The settings worth carrying: defaults leave no marker. */
  function Carried(s: KserveState): KserveState {
    KserveState(s.confidential, if s.audit == AUDIT_REMOVED then "" else s.audit)
  }

  function AnnotationsToV2(codec: Codec, src: V3): Annotations {
    var carried := Carried(src.kserveState);
    var bare := src.annotations - {MAAS_MARKER, MODEL_EXPRESS_MARKER, KSERVE_MARKER};
    var express := if src.modelExpress == Managed then bare[MODEL_EXPRESS_MARKER := MODEL_EXPRESS_MANAGED] else bare;
    if carried != KserveState(None, "") then express[KSERVE_MARKER := codec.encode(carried)] else express
  }

  function FromV3(codec: Codec, src: V3): Result<V2, ()> {
    match Read(src.annotations)
    case Err(e) => Err(e)
    case Ok(legacy) =>
      Ok(V2(
        src.meta, AnnotationsToV2(codec, src),
        src.dashboardStandard, src.dashboardMaasPortal,
        src.kserve, src.kserveCommon, Removed, if legacy then Managed else Removed,
        src.aiHub, src.instancesNamespace,
        src.featureStore, src.dataRegistry,
        if legacy then src.gateway.(maas := Removed) else src.gateway,
        Removed, Removed,
        src.others,
        StatusV2(Mapped(src.status.conditions, TO_V2), src.status.aiHub, src.status.data, src.status.maasPortal,
                 Removed, Removed, src.status.others)))
  }

  // ---------------------------------------------------------------- the conversions as written

  /** The v3 object that ConvertTo fills and ConvertFrom reads. */
  class DataScienceCluster {
    var value: V3

    constructor (value: V3)
      ensures this.value == value
    {
      this.value := value;
    }

    /** PreserveMaaSV2State on this object. */
    method PreserveMaaSV2State(canonical: ManagementState, legacy: ManagementState)
      modifies this
      ensures value == old(value).(annotations := Preserve(old(value).annotations, canonical, legacy))
    {
      var stored := new StoredObject(value.annotations, value.gateway.maas);
      stored.PreserveMaaSV2State(canonical, legacy);
      value := value.(annotations := stored.annotations);
    }

    method Delete(key: string)
      modifies this
      ensures value == old(value).(annotations := old(value).annotations - {key})
    {
      value := value.(annotations := value.annotations - {key});
    }
  }

  /** The end of ConvertTo: the markers' content moves into the spec and the markers go. */
  method RestoreMarkers(codec: Codec, dst: DataScienceCluster) returns (ok: bool)
    modifies dst
    ensures ok <==>
            ReadModelExpress(old(dst.value).annotations).Ok? && ReadKserveState(codec, old(dst.value).annotations).Ok?
    ensures ok ==> dst.value == old(dst.value).(
      annotations := old(dst.value).annotations - {MODEL_EXPRESS_MARKER} - {KSERVE_MARKER},
      modelExpress := if MODEL_EXPRESS_MARKER in old(dst.value).annotations
                      then Managed else old(dst.value).modelExpress,
      kserveState := if KSERVE_MARKER in old(dst.value).annotations
                     then ReadKserveState(codec, old(dst.value).annotations).value else old(dst.value).kserveState)
  {
    MarkersDiffer();
    ghost var before := dst.value.annotations;
    if MODEL_EXPRESS_MARKER in dst.value.annotations {
      if dst.value.annotations[MODEL_EXPRESS_MARKER] != MODEL_EXPRESS_MANAGED {
        return false;
      }
      dst.value := dst.value.(modelExpress := Managed);
      dst.Delete(MODEL_EXPRESS_MARKER);
    }
    assert dst.value.annotations == before - {MODEL_EXPRESS_MARKER};
    if KSERVE_MARKER in dst.value.annotations {
      var state := codec.decode(dst.value.annotations[KSERVE_MARKER]);
      if state.None? || !ValidState(state.value) {
        return false;
      }
      dst.value := dst.value.(kserveState := state.value);
      dst.Delete(KSERVE_MARKER);
    }
    assert dst.value.annotations == before - {MODEL_EXPRESS_MARKER} - {KSERVE_MARKER};
    return true;
  }

  /** ConvertTo: copy, settle the gateway, restore the markers' content, drop the markers. */
  method ConvertTo(codec: Codec, src: V2, dst: DataScienceCluster) returns (ok: bool)
    modifies dst
    ensures ok <==> ToV3(codec, src).Ok?
    ensures ok ==> Ok(dst.value) == ToV3(codec, src)
  {
    MarkersDiffer();
    var conditions := MapConditions(src.status.conditions, TO_V3);
    dst.value := V3(
      src.meta, src.annotations,
      src.dashboard, src.maasConsumerPortal,
      src.kserve, src.kserveCommon, Unset, KserveState(None, ""),
      src.modelRegistry, src.registriesNamespace,
      src.feastOperator, src.dataRegistry,
      src.gateway, src.others,
      StatusV3(conditions, src.status.modelRegistry, src.status.feastOperator, src.status.maasConsumerPortal,
               src.status.others));
    var canonical, legacy := src.gateway.maas, src.legacyMaas;
    if canonical == Managed || (src.kserve == Managed && legacy == Managed) {
      dst.value := dst.value.(gateway := dst.value.gateway.(maas := Managed));
    } else {
      dst.value := dst.value.(gateway := dst.value.gateway.(maas := Removed));
    }
    if src.gateway.state != Unset {
      dst.value := dst.value.(gateway := dst.value.gateway.(state := src.gateway.state));
    } else if src.kserve == Managed && legacy == Managed {
      dst.value := dst.value.(gateway := dst.value.gateway.(state := Managed));
    }
    assert dst.value.gateway == GatewayToV3(src);
    dst.PreserveMaaSV2State(canonical, legacy);
    ok := RestoreMarkers(codec, dst);
    PreserveCommutes(src.annotations, canonical, legacy);
  }

  lemma PreserveCommutes(annotations: Annotations, canonical: ManagementState, legacy: ManagementState)
    ensures Preserve(annotations, canonical, legacy) - {MODEL_EXPRESS_MARKER} - {KSERVE_MARKER} ==
            Preserve(annotations - {MODEL_EXPRESS_MARKER, KSERVE_MARKER}, canonical, legacy)
  {
    MarkersDiffer();
  }

  /** ConvertFrom: copy, restore the legacy view, move v3-only settings into markers. */
  method ConvertFrom(codec: Codec, src: DataScienceCluster) returns (result: Result<V2, ()>)
    ensures result == FromV3(codec, src.value)
  {
    MarkersDiffer();
    var x := src.value;
    var conditions := MapConditions(x.status.conditions, TO_V2);
    var dst := V2(
      x.meta, x.annotations,
      x.dashboardStandard, x.dashboardMaasPortal,
      x.kserve, x.kserveCommon, Removed, Removed,
      x.aiHub, x.instancesNamespace,
      x.featureStore, x.dataRegistry,
      x.gateway, Unset, Unset, x.others,
      StatusV2(conditions, x.status.aiHub, x.status.data, x.status.maasPortal, Unset, Unset, x.status.others));
    dst := dst.(trainingOperator := Removed, llamaStackOperator := Removed);
    dst := dst.(status := dst.status.(trainingOperator := Removed, llamaStackOperator := Removed));
    var stored := new StoredObject(x.annotations, x.gateway.maas);
    var legacyManaged := stored.ReadMaaSV2State();
    if legacyManaged.Err? {
      return Err(());
    }
    if legacyManaged.value {
      dst := dst.(legacyMaas := Managed, gateway := dst.gateway.(maas := Removed));
    }
    var annotations := dst.annotations - {MAAS_MARKER};
    annotations := annotations - {MODEL_EXPRESS_MARKER};
    if x.modelExpress == Managed {
      annotations := annotations[MODEL_EXPRESS_MARKER := MODEL_EXPRESS_MANAGED];
    }
    annotations := annotations - {KSERVE_MARKER};
    var kserveState := KserveState(None, "");
    if x.kserveState.confidential.Some? {
      kserveState := kserveState.(confidential := x.kserveState.confidential);
    }
    if x.kserveState.audit != "" && x.kserveState.audit != AUDIT_REMOVED {
      kserveState := kserveState.(audit := x.kserveState.audit);
    }
    if kserveState.confidential.Some? || kserveState.audit != "" {
      annotations := annotations[KSERVE_MARKER := codec.encode(kserveState)];
    }
    assert annotations == AnnotationsToV2(codec, x);
    dst := dst.(annotations := annotations);
    return Ok(dst);
  }
}
