/** Round trips of the DataScienceCluster conversion: when they hold, and that every v2 write keeps them. */
module ConversionLaws {
  import opened Common
  import opened Text
  import opened Conditions
  import opened MaasProvenance
  import opened Conversion

  // ---------------------------------------------------------------- normal form

  /** The gateway agrees with the legacy marker. */
  predicate NormalGateway(x: V3) {
    if Marked(x.annotations)
    then x.gateway.maas == (if x.kserve == Managed then Managed else Removed)
         && (x.kserve == Managed ==> x.gateway.state != Unset)
    else x.gateway.maas == Managed || x.gateway.maas == Removed
  }

  predicate NormalSettings(s: KserveState) {
    ValidAudit(s.audit) && (s.confidential.Some? ==> ValidConfidential(s.confidential.value))
  }

  ghost predicate NormalConditions(cs: Option<seq<Condition>>) {
    cs.Some? ==> Distinct(cs.value) && NoTargets(cs.value, TO_V2)
  }

  ghost predicate V3Normal(x: V3) {
    ValidMarker(x.annotations) && NormalGateway(x) && NormalSettings(x.kserveState) &&
      NormalConditions(x.status.conditions)
  }

  /**
   The canonical spelling of a v3 object: an empty ModelExpress or audit setting means Removed, and
   the two markers that belong to the v2 view are not v3 content.
   */
  function Canon(x: V3): V3 {
    x.(annotations := x.annotations - {MODEL_EXPRESS_MARKER, KSERVE_MARKER},
       modelExpress := if x.modelExpress == Managed then Managed else Unset,
       kserveState := Carried(x.kserveState))
  }

  // ---------------------------------------------------------------- field by field

  /** Where every field of a v3 object converted from v2 comes from. */
  lemma ToV3Fields(codec: Codec, y: V2)
    requires ToV3(codec, y).Ok?
    ensures var x := ToV3(codec, y).value;
            && x.meta == y.meta && x.others == y.others && x.status.others == y.status.others
            && x.dashboardStandard == y.dashboard && x.dashboardMaasPortal == y.maasConsumerPortal
            && x.kserve == y.kserve && x.kserveCommon == y.kserveCommon
            && x.aiHub == y.modelRegistry && x.instancesNamespace == y.registriesNamespace
            && x.featureStore == y.feastOperator && x.dataRegistry == y.dataRegistry
            && x.status.aiHub == y.status.modelRegistry && x.status.data == y.status.feastOperator
            && x.status.maasPortal == y.status.maasConsumerPortal
            && x.status.conditions == Mapped(y.status.conditions, TO_V3)
            && x.gateway.rest == y.gateway.rest
            && (x.gateway.maas == Managed <==>
                  y.gateway.maas == Managed || (y.kserve == Managed && y.legacyMaas == Managed))
            && (x.gateway.maas != Managed ==> x.gateway.maas == Removed)
            && (y.gateway.state != Unset ==> x.gateway.state == y.gateway.state)
            && (y.gateway.state == Unset ==>
                  x.gateway.state == if y.kserve == Managed && y.legacyMaas == Managed then Managed else Unset)
  {
  }

  /** The three conditions that have another name in v3. */
  lemma ConditionNames()
    ensures TO_V3.Keys == {"ModelRegistryReady", "FeastOperatorReady", "MaaSConsumerPortalAvailable"}
    ensures TO_V3["ModelRegistryReady"] == "AIHubReady" && TO_V3["FeastOperatorReady"] == "DataReady"
    ensures TO_V3["MaaSConsumerPortalAvailable"] == "MaaSPortalAvailable"
  {
    assert |"ModelRegistryReady"| == 18 && |"FeastOperatorReady"| == 18 && |"MaaSConsumerPortalAvailable"| == 27;
    assert "ModelRegistryReady"[0] != "FeastOperatorReady"[0];
  }

  /** Which annotations and v3-only settings it gets, and when the conversion is refused. */
  lemma ToV3Markers(codec: Codec, y: V2)
    ensures ToV3(codec, y).Ok? <==>
            && (MODEL_EXPRESS_MARKER in y.annotations ==> y.annotations[MODEL_EXPRESS_MARKER] == "managed")
            && (KSERVE_MARKER in y.annotations ==>
                  codec.decode(y.annotations[KSERVE_MARKER]).Some? &&
                  ValidState(codec.decode(y.annotations[KSERVE_MARKER]).value))
    ensures ToV3(codec, y).Ok? ==>
              var x := ToV3(codec, y).value;
              && x.modelExpress == (if MODEL_EXPRESS_MARKER in y.annotations then Managed else Unset)
              && (KSERVE_MARKER in y.annotations ==> codec.decode(y.annotations[KSERVE_MARKER]) == Some(x.kserveState))
              && (KSERVE_MARKER !in y.annotations ==> x.kserveState.confidential.None? && x.kserveState.audit == "")
              && MODEL_EXPRESS_MARKER !in x.annotations && KSERVE_MARKER !in x.annotations
              && (MAAS_MARKER in x.annotations <==> y.gateway.maas != Managed && y.legacyMaas == Managed)
              && (MAAS_MARKER in x.annotations ==> x.annotations[MAAS_MARKER] == "legacy-managed")
              && x.annotations - OWNED == y.annotations - OWNED
  {
    MarkersDiffer();
  }

  /** The annotations that belong to conversion. */
  const OWNED: set<string> := {MAAS_MARKER, MODEL_EXPRESS_MARKER, KSERVE_MARKER}

  /** Where every field of the v2 view comes from; what v3 no longer supports is shown as Removed. */
  lemma FromV3Fields(codec: Codec, x: V3)
    requires FromV3(codec, x).Ok?
    ensures var y := FromV3(codec, x).value;
            && y.wva == Removed && y.trainingOperator == Removed && y.llamaStackOperator == Removed
            && y.status.trainingOperator == Removed && y.status.llamaStackOperator == Removed
            && y.meta == x.meta && y.others == x.others && y.status.others == x.status.others
            && y.dashboard == x.dashboardStandard && y.maasConsumerPortal == x.dashboardMaasPortal
            && y.kserve == x.kserve && y.kserveCommon == x.kserveCommon
            && y.modelRegistry == x.aiHub && y.registriesNamespace == x.instancesNamespace
            && y.feastOperator == x.featureStore && y.dataRegistry == x.dataRegistry
            && y.status.modelRegistry == x.status.aiHub && y.status.feastOperator == x.status.data
            && y.status.maasConsumerPortal == x.status.maasPortal
            && y.status.conditions == Mapped(x.status.conditions, TO_V2)
            && y.gateway.state == x.gateway.state && y.gateway.rest == x.gateway.rest
            && y.legacyMaas == (if MAAS_MARKER in x.annotations then Managed else Removed)
            && y.gateway.maas == (if MAAS_MARKER in x.annotations then Removed else x.gateway.maas)
  {
  }

  /** Which markers the v2 view carries, and when the conversion is refused. */
  lemma FromV3Markers(codec: Codec, x: V3)
    ensures FromV3(codec, x).Ok? <==>
            (MAAS_MARKER in x.annotations ==> x.annotations[MAAS_MARKER] == "legacy-managed")
    ensures FromV3(codec, x).Ok? ==>
              var y := FromV3(codec, x).value;
              && MAAS_MARKER !in y.annotations
              && (MODEL_EXPRESS_MARKER in y.annotations <==> x.modelExpress == Managed)
              && (MODEL_EXPRESS_MARKER in y.annotations ==> y.annotations[MODEL_EXPRESS_MARKER] == "managed")
              && (KSERVE_MARKER in y.annotations <==>
                    x.kserveState.confidential.Some? || x.kserveState.audit !in {"", "Removed"})
              && (KSERVE_MARKER in y.annotations ==>
                    y.annotations[KSERVE_MARKER] ==
                    codec.encode(KserveState(x.kserveState.confidential,
                                             if x.kserveState.audit == "Removed" then "" else x.kserveState.audit)))
              && y.annotations - OWNED == x.annotations - OWNED
  {
    MarkersDiffer();
  }

  /** All that the canonical spelling may change of an object. */
  lemma CanonExact(x: V3)
    ensures Canon(x) == x.(annotations := Canon(x).annotations, modelExpress := Canon(x).modelExpress,
                           kserveState := Canon(x).kserveState)
    ensures Canon(x).annotations - OWNED == x.annotations - OWNED
    ensures MAAS_MARKER in Canon(x).annotations <==> MAAS_MARKER in x.annotations
    ensures MAAS_MARKER in x.annotations ==> Canon(x).annotations[MAAS_MARKER] == x.annotations[MAAS_MARKER]
    ensures Canon(x).modelExpress == Managed <==> x.modelExpress == Managed
    ensures Canon(x).kserveState.confidential == x.kserveState.confidential
    ensures x.kserveState.audit != "Removed" ==> Canon(x).kserveState.audit == x.kserveState.audit
    ensures x.kserveState.audit == "Removed" ==> Canon(x).kserveState.audit == ""
  {
    MarkersDiffer();
  }

  // ---------------------------------------------------------------- valid settings

  /** One segment of a key broker path. */
  ghost predicate Segment(s: string) {
    s != "" && forall i :: 0 <= i < |s| ==> s[i] !in {'/', '?', '#', ' ', '\t', '\n', '\r', '\U{000C}'}
  }

  ghost function KbsPath(a: string, b: string, c: string): string {
    "kbs:///" + (a + ['/'] + (b + ['/'] + c))
  }

  ghost predicate IsKbsPath(id: string, a: string, b: string, c: string) {
    id == KbsPath(a, b, c) && Segment(a) && Segment(b) && Segment(c)
  }

  lemma {:induction false} SplitPlain(s: string)
    requires Without(s, '/')
    ensures Split(s, '/') == [s]
    decreases |s|
  {
    if s != [] {
      SplitPlain(s[1..]);
      assert s == [s[0]] + s[1..];
    }
  }

  lemma {:induction false} SplitCut(a: string, rest: string)
    requires Without(a, '/')
    ensures Split(a + ['/'] + rest, '/') == [a] + Split(rest, '/')
    decreases |a|
  {
    var s := a + ['/'] + rest;
    if a == [] {
      assert s[1..] == rest;
    } else {
      assert s[1..] == a[1..] + ['/'] + rest;
      SplitCut(a[1..], rest);
      assert a == [a[0]] + a[1..];
    }
  }

  /** Splitting gives a first part without separator, and the rest unless there is none. */
  lemma {:induction false} SplitFirst(s: string) returns (rest: string)
    ensures Without(Split(s, '/')[0], '/')
    ensures |Split(s, '/')| == 1 ==> s == Split(s, '/')[0]
    ensures |Split(s, '/')| > 1 ==> s == Split(s, '/')[0] + ['/'] + rest && Split(rest, '/') == Split(s, '/')[1..]
    decreases |s|
  {
    rest := [];
    if s != [] {
      rest := SplitFirst(s[1..]);
      var parts, tail := Split(s, '/'), Split(s[1..], '/');
      assert s == [s[0]] + s[1..];
      if s[0] == '/' {
        rest := s[1..];
        assert parts[1..] == tail;
      } else {
        assert parts[0] == [s[0]] + tail[0] && parts[1..] == tail[1..];
        if |tail| > 1 {
          assert [s[0]] + (tail[0] + ['/'] + rest) == parts[0] + ['/'] + rest;
        }
      }
    }
  }

  lemma PathSplits(a: string, b: string, c: string)
    requires Without(a, '/') && Without(b, '/') && Without(c, '/')
    ensures Split(a + ['/'] + (b + ['/'] + c), '/') == [a, b, c]
  {
    SplitCut(a, b + ['/'] + c);
    SplitCut(b, c);
    SplitPlain(c);
  }

  lemma SegmentIsWhole(s: string)
    ensures Segment(s) <==> s != [] && forall j :: 0 <= j < |s| ==> SegmentChar(s[j])
    ensures Segment(s) ==> Without(s, '/')
  {
  }

  lemma LuksPatternExact(id: string)
    ensures LuksPattern(id) <==> exists a, b, c :: IsKbsPath(id, a, b, c)
  {
    if LuksPattern(id) {
      var path := id[7..];
      var parts := Split(path, '/');
      var rest := SplitFirst(path);
      var last := SplitFirst(rest);
      var none := SplitFirst(last);
      assert parts[1..][1..] == [parts[2]];
      SegmentIsWhole(parts[0]);
      SegmentIsWhole(parts[1]);
      SegmentIsWhole(parts[2]);
      assert id == id[..7] + path;
      assert IsKbsPath(id, parts[0], parts[1], parts[2]);
    }
    if a, b, c :| IsKbsPath(id, a, b, c) {
      SegmentIsWhole(a);
      SegmentIsWhole(b);
      SegmentIsWhole(c);
      PathSplits(a, b, c);
      assert id[..7] == "kbs:///" && id[7..] == a + ['/'] + (b + ['/'] + c);
    }
  }

  lemma WholeSplit(a: string, b: string, c: string)
    requires Without(a, '/') && Without(b, '/') && Without(c, '/')
    ensures Split(KbsPath(a, b, c), '/') == ["kbs:", "", "", a, b, c]
  {
    var path := a + ['/'] + (b + ['/'] + c);
    PathSplits(a, b, c);
    assert KbsPath(a, b, c) == "kbs:" + ['/'] + ([] + ['/'] + ([] + ['/'] + path));
    SplitCut("kbs:", [] + ['/'] + ([] + ['/'] + path));
    SplitCut([], [] + ['/'] + path);
    SplitCut([], path);
  }

  /** The confidential settings that pass: three proper segments, no dot segment, both texts within their limits. */
  lemma ConfidentialExact(s: Confidential)
    ensures ValidConfidential(s) <==>
            && |s.luksResourceId| <= 2048 && |s.initData| <= 8192
            && exists a, b, c ::
                 IsKbsPath(s.luksResourceId, a, b, c) && NoDots(a) && NoDots(b) && NoDots(c)
  {
    LuksPatternExact(s.luksResourceId);
    forall a, b, c | IsKbsPath(s.luksResourceId, a, b, c)
      ensures NoDots(a) && NoDots(b) && NoDots(c) <==>
              forall segment :: segment in Split(s.luksResourceId, '/') ==> segment != "." && segment != ".."
    {
      WholeSplit(a, b, c);
      DotsAmong("kbs:", "", a, b, c);
    }
  }

  ghost predicate NoDots(s: string) {
    s != "." && s != ".."
  }

  lemma DotsAmong(scheme: string, empty: string, a: string, b: string, c: string)
    requires |scheme| > 2 && empty == ""
    ensures NoDots(a) && NoDots(b) && NoDots(c) <==>
            forall x :: x in [scheme, empty, empty, a, b, c] ==> x != "." && x != ".."
  {
    var parts := [scheme, empty, empty, a, b, c];
    assert parts[3] == a && parts[4] == b && parts[5] == c;
    assert a in parts && b in parts && c in parts;
    assert |"."| == 1 && |".."| == 2;
    assert NoDots(scheme) && NoDots(empty);
    if NoDots(a) && NoDots(b) && NoDots(c) {
      forall x | x in parts ensures x != "." && x != ".." {
        var i :| 0 <= i < |parts| && parts[i] == x;
        assert NoDots(parts[i]);
      }
    }
  }

  /** The settings that pass: something is set, a known profile, valid confidential settings. */
  lemma StateExact(s: KserveState)
    ensures ValidState(s) <==>
            && s.audit in {"", "Removed", "Metadata"}
            && (s.confidential.None? ==> s.audit != "")
            && (s.confidential.Some? ==> ValidConfidential(s.confidential.value))
    ensures NormalSettings(s) <==>
            s.audit in {"", "Removed", "Metadata"} && (s.confidential.Some? ==> ValidConfidential(s.confidential.value))
  {
  }

  // ---------------------------------------------------------------- v3 to v2 and back

  lemma GatewayTrip(codec: Codec, x: V3)
    requires ValidMarker(x.annotations)
    ensures GatewayToV3(FromV3(codec, x).value) == x.gateway <==> NormalGateway(x)
  {
  }

  lemma AnnotationTrip(codec: Codec, x: V3)
    requires ValidMarker(x.annotations)
    ensures var y := FromV3(codec, x).value;
            Preserve(y.annotations - {MODEL_EXPRESS_MARKER, KSERVE_MARKER}, y.gateway.maas, y.legacyMaas) ==
            x.annotations - {MODEL_EXPRESS_MARKER, KSERVE_MARKER}
  {
    MarkersDiffer();
    var y := FromV3(codec, x).value;
    var bare := x.annotations - {MAAS_MARKER, MODEL_EXPRESS_MARKER, KSERVE_MARKER};
    assert y.annotations - {MODEL_EXPRESS_MARKER, KSERVE_MARKER} == bare;
    if Marked(x.annotations) {
      assert bare[MAAS_MARKER := LEGACY_MANAGED] == x.annotations - {MODEL_EXPRESS_MARKER, KSERVE_MARKER};
    } else {
      assert bare - {MAAS_MARKER} == x.annotations - {MODEL_EXPRESS_MARKER, KSERVE_MARKER};
    }
  }

  lemma SettingsTrip(codec: Codec, x: V3)
    requires Faithful(codec)
    ensures var annotations := AnnotationsToV2(codec, x);
            && ReadModelExpress(annotations) == Ok(Canon(x).modelExpress)
            && ReadKserveState(codec, annotations) ==
               if NormalSettings(x.kserveState) then Ok(Carried(x.kserveState)) else Err(())
  {
    MarkersDiffer();
    var annotations := AnnotationsToV2(codec, x);
    var carried := Carried(x.kserveState);
    if carried == KserveState(None, "") {
      assert KSERVE_MARKER !in annotations;
    } else {
      assert annotations[KSERVE_MARKER] == codec.encode(carried);
      assert codec.decode(codec.encode(carried)) == Some(carried);
    }
  }

  lemma ConditionsTrip(cs: Option<seq<Condition>>)
    ensures Mapped(Mapped(cs, TO_V2), TO_V3) == cs <==> NormalConditions(cs)
  {
    NamesAreInverse();
    if cs.Some? {
      if NormalConditions(cs) {
        MappingUndone(cs.value, TO_V2, TO_V3);
      }
      var there := Mapped(cs, TO_V2).value;
      OutputIsNormal(there, TO_V3, TO_V2);
    }
  }

  /**
   Exactly when reading a stored v3 object through v2 and writing it back is harmless: on normal
   forms it fails never and returns the canonical spelling; on every other object it fails or
   changes something.
   */
  lemma RoundTripExact(codec: Codec, x: V3)
    requires Faithful(codec)
    ensures (FromV3(codec, x).Ok? && ToV3(codec, FromV3(codec, x).value) == Ok(Canon(x))) <==> V3Normal(x)
  {
    if ValidMarker(x.annotations) {
      var y := FromV3(codec, x).value;
      GatewayTrip(codec, x);
      AnnotationTrip(codec, x);
      SettingsTrip(codec, x);
      ConditionsTrip(x.status.conditions);
    }
  }

  // ---------------------------------------------------------------- every v2 write is normal

  /** Whatever annotations a v2 object carries, what ConvertTo stores is in normal form. */
  lemma ImageIsNormal(codec: Codec, y: V2)
    requires ToV3(codec, y).Ok?
    ensures V3Normal(ToV3(codec, y).value)
  {
    MarkersDiffer();
    NamesAreInverse();
    var x := ToV3(codec, y).value;
    if y.status.conditions.Some? {
      OutputIsNormal(y.status.conditions.value, TO_V3, TO_V2);
    }
    assert ValidMarker(x.annotations);
    assert NormalGateway(x);
  }

  lemma CanonIsNormal(x: V3)
    requires V3Normal(x)
    ensures V3Normal(Canon(x)) && Canon(Canon(x)) == Canon(x)
  {
    MarkersDiffer();
    var c := Canon(x);
    assert c.annotations - {MODEL_EXPRESS_MARKER, KSERVE_MARKER} == c.annotations;
  }

  /** The stored object after `k` rounds of reading through v2 and writing the result back. */
  function Rounds(codec: Codec, x: V3, k: nat): Result<V3, ()>
    decreases k
  {
    if k == 0 then Ok(x) else
      match FromV3(codec, x)
      case Err(e) => Err(e)
      case Ok(y) =>
        match ToV3(codec, y)
        case Err(e) => Err(e)
        case Ok(z) => Rounds(codec, z, k - 1)
  }

  /** No drift: any number of read-and-write-back rounds through v2 gives what one round gives. */
  lemma {:induction false} NoDrift(codec: Codec, x: V3, k: nat)
    requires Faithful(codec) && V3Normal(x) && k > 0
    ensures Rounds(codec, x, k) == Ok(Canon(x))
    decreases k
  {
    RoundTripExact(codec, x);
    CanonIsNormal(x);
    if k > 1 {
      NoDrift(codec, Canon(x), k - 1);
    }
  }

  /** An object once written through v2 never drifts afterwards. */
  lemma WrittenThroughV2NeverDrifts(codec: Codec, y: V2, k: nat)
    requires Faithful(codec) && ToV3(codec, y).Ok? && k > 0
    ensures Rounds(codec, ToV3(codec, y).value, k) == Ok(Canon(ToV3(codec, y).value))
  {
    ImageIsNormal(codec, y);
    NoDrift(codec, ToV3(codec, y).value, k);
  }

  lemma CanonLooksTheSame(codec: Codec, x: V3)
    ensures FromV3(codec, Canon(x)) == FromV3(codec, x)
  {
    MarkersDiffer();
    var c := Canon(x);
    assert Read(c.annotations) == Read(x.annotations);
    assert c.annotations - {MAAS_MARKER, MODEL_EXPRESS_MARKER, KSERVE_MARKER} ==
           x.annotations - {MAAS_MARKER, MODEL_EXPRESS_MARKER, KSERVE_MARKER};
  }

  /** What a v2 client reads back after a write is a fixed point: writing that changes nothing it can see. */
  lemma WriteBackIsStable(codec: Codec, y: V2)
    requires Faithful(codec) && ToV3(codec, y).Ok?
    ensures var z := FromV3(codec, ToV3(codec, y).value);
            && z.Ok? && ToV3(codec, z.value).Ok?
            && FromV3(codec, ToV3(codec, z.value).value) == z
  {
    var x := ToV3(codec, y).value;
    ImageIsNormal(codec, y);
    RoundTripExact(codec, x);
    CanonLooksTheSame(codec, x);
  }

  // ---------------------------------------------------------------- MaaS enablement

  predicate MaasEnabledV3(x: V3) {
    x.gateway.maas == Managed
  }

  /** MaaS is enabled in one view exactly when it is in the other, in both directions. */
  lemma MaasEnabledAgrees(codec: Codec, x: V3, y: V2)
    requires V3Normal(x)
    ensures FromV3(codec, x).Ok? && (MaasEnabledV2(FromV3(codec, x).value) <==> MaasEnabledV3(x))
    ensures ToV3(codec, y).Ok? ==> (MaasEnabledV3(ToV3(codec, y).value) <==> MaasEnabledV2(y))
  {
    assert Read(x.annotations).Ok?;
  }

  /** The legacy source a v2 client last wrote survives, unless the canonical field was Managed too. */
  lemma LegacySourceSurvives(codec: Codec, y: V2)
    requires ToV3(codec, y).Ok?
    ensures var z := FromV3(codec, ToV3(codec, y).value);
            && z.Ok?
            && z.value.legacyMaas == (if y.legacyMaas == Managed && y.gateway.maas != Managed then Managed else Removed)
            && z.value.gateway.maas == (if y.gateway.maas == Managed then Managed else Removed)
            && (MaasEnabledV2(z.value) <==> MaasEnabledV2(y))
  {
    MarkersDiffer();
    ImageIsNormal(codec, y);
  }

  // ---------------------------------------------------------------- native edits

  /** A native v3 update that only changes KServe's state, as admission stores it. */
  function NativeKserveEdit(x: V3, kserve: ManagementState): V3
    requires ValidMarker(x.annotations)
  {
    var incoming := x.(kserve := kserve);
    incoming.(annotations := Admitted(View(incoming.annotations, incoming.gateway.maas),
                                      Some(View(x.annotations, x.gateway.maas))).value)
  }

  /**
   Admission keeps the marker across such an edit, so normal form, and with it the round trip,
   survives exactly when the object carries no marker or KServe stays on the same side of Managed.
   */
  lemma NativeKserveEditExact(codec: Codec, x: V3, kserve: ManagementState)
    requires Faithful(codec) && V3Normal(x)
    ensures var edited := NativeKserveEdit(x, kserve);
            (FromV3(codec, edited).Ok? && ToV3(codec, FromV3(codec, edited).value) == Ok(Canon(edited)))
            <==> (Marked(x.annotations) ==> (kserve == Managed <==> x.kserve == Managed))
  {
    var edited := NativeKserveEdit(x, kserve);
    assert edited.annotations == x.annotations;
    RoundTripExact(codec, edited);
  }

  /** A v2 object with MaaS enabled through KServe only. */
  function LegacyExample(): V2 {
    var nothing := Reported(Removed, None);
    V2("", map[], Removed, Removed, Managed, "", Removed, Managed, Removed, "", Removed, "",
       Gateway(Unset, Removed, ""), Removed, Removed, "",
       StatusV2(None, nothing, nothing, "", Removed, Removed, ""))
  }

  /**
   The condition is needed: store the example, then remove KServe natively. The stored object still
   enables MaaS, the v2 view says it is off, and writing that view back turns it off.
   */
  lemma NativeEditBreaksTheTrip(codec: Codec)
    requires Faithful(codec)
    ensures var stored := ToV3(codec, LegacyExample());
            && stored.Ok? && V3Normal(stored.value)
            && var edited := NativeKserveEdit(stored.value, Removed);
               && MaasEnabledV3(edited)
               && FromV3(codec, edited).Ok? && !MaasEnabledV2(FromV3(codec, edited).value)
               && var back := ToV3(codec, FromV3(codec, edited).value);
                  back.Ok? && !MaasEnabledV3(back.value)
  {
    MarkersDiffer();
    ImageIsNormal(codec, LegacyExample());
    var stored := ToV3(codec, LegacyExample()).value;
    assert Marked(stored.annotations) && stored.gateway == Gateway(Managed, Managed, "");
    var edited := NativeKserveEdit(stored, Removed);
    assert edited.annotations == stored.annotations;
    SettingsTrip(codec, edited);
  }
}
