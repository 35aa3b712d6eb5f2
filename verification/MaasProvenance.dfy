/** Legacy Models-as-a-Service provenance on the stored v3 object (api/datasciencecluster/v3/maas_conversion.go). */
module MaasProvenance {
  import opened Common

  /** A component's management state; Unset is the empty string. */
  datatype ManagementState = Unset | Managed | Removed | OtherState(value: string)

  const MAAS_MARKER := "conversion.opendatahub.io/maas-v2-state"
  const LEGACY_MANAGED := "legacy-managed"

  type Annotations = map<string, string>

  /** The marker is written exactly for legacy-only enablement and never copied from the input. */
  function Preserve(annotations: Annotations, canonical: ManagementState, legacy: ManagementState): Annotations {
    if canonical != Managed && legacy == Managed
    then annotations[MAAS_MARKER := LEGACY_MANAGED]
    else annotations - {MAAS_MARKER}
  }

  predicate Marked(annotations: Annotations) {
    MAAS_MARKER in annotations
  }

  predicate ValidMarker(annotations: Annotations) {
    MAAS_MARKER in annotations ==> annotations[MAAS_MARKER] == LEGACY_MANAGED
  }

  function Read(annotations: Annotations): Result<bool, ()> {
    if !ValidMarker(annotations) then Err(()) else Ok(Marked(annotations))
  }

  /** What admission sees of a v3 object: its annotations and aigateway.modelsAsAService. */
  datatype View = View(annotations: Annotations, maas: ManagementState)

  /** The annotations a native v3 write is stored with. */
  function Admitted(incoming: View, stored: Option<View>): Result<Annotations, ()> {
    match stored
    case None => Ok(Preserve(incoming.annotations, incoming.maas, Removed))
    case Some(previous) =>
      match Read(previous.annotations)
      case Err(e) => Err(e)
      case Ok(legacy) =>
        Ok(if legacy && previous.maas == incoming.maas
           then Preserve(incoming.annotations, Removed, Managed)
           else Preserve(incoming.annotations, incoming.maas, Removed))
  }

  /** The v3 object: its methods edit the annotations in place. */
  class StoredObject {
    var annotations: Annotations
    var maas: ManagementState

    constructor (annotations: Annotations, maas: ManagementState)
      ensures this.annotations == annotations && this.maas == maas
    {
      this.annotations, this.maas := annotations, maas;
    }

    function Value(): View
      reads this
    {
      View(annotations, maas)
    }

    method PreserveMaaSV2State(canonical: ManagementState, legacy: ManagementState)
      modifies `annotations
      ensures annotations == Preserve(old(annotations), canonical, legacy)
    {
      ghost var before := annotations;
      annotations := annotations - {MAAS_MARKER};
      if canonical == Managed || legacy != Managed {
        return;
      }
      annotations := annotations[MAAS_MARKER := LEGACY_MANAGED];
      assert annotations == before[MAAS_MARKER := LEGACY_MANAGED];
    }

    method ReadMaaSV2State() returns (r: Result<bool, ()>)
      ensures r == Read(annotations)
    {
      if MAAS_MARKER !in annotations {
        return Ok(false);
      }
      if annotations[MAAS_MARKER] != LEGACY_MANAGED {
        return Err(());
      }
      return Ok(true);
    }

    method AdmitMaaSV2State(stored: StoredObject?) returns (ok: bool)
      requires stored != this
      modifies `annotations
      ensures ok <==> Admitted(old(Value()), if stored == null then None else Some(stored.Value())).Ok?
      ensures ok ==> Ok(annotations) == Admitted(old(Value()), if stored == null then None else Some(stored.Value()))
      ensures !ok ==> annotations == old(annotations)
    {
      if stored == null {
        PreserveMaaSV2State(maas, Removed);
        return true;
      }
      var managed := stored.ReadMaaSV2State();
      if managed.Err? {
        return false;
      }
      if managed.value && stored.maas == maas {
        PreserveMaaSV2State(Removed, Managed);
        return true;
      }
      PreserveMaaSV2State(maas, Removed);
      return true;
    }
  }

  /** A run of native v3 updates: each is admitted against what the previous one stored. */
  function AdmitAll(start: View, updates: seq<View>): Result<View, ()>
    decreases |updates|
  {
    if updates == [] then Ok(start) else
      match Admitted(updates[0], Some(start))
      case Err(e) => Err(e)
      case Ok(annotations) => AdmitAll(View(annotations, updates[0].maas), updates[1..])
  }

  ghost predicate NeverChanged(start: View, updates: seq<View>) {
    forall i :: 0 <= i < |updates| ==> updates[i].maas == start.maas
  }

  /**
   History of the marker: whatever annotations the updates carry, no admission fails, and at the
   end the legacy marker is there exactly when it was there at the start and no update changed
   modelsAsAService.
   */
  lemma {:induction false} MarkerHistory(start: View, updates: seq<View>)
    requires ValidMarker(start.annotations)
    ensures var end := AdmitAll(start, updates);
            && end.Ok? && ValidMarker(end.value.annotations)
            && (Marked(end.value.annotations) <==> Marked(start.annotations) && NeverChanged(start, updates))
    decreases |updates|
  {
    if updates != [] {
      var next := View(Admitted(updates[0], Some(start)).value, updates[0].maas);
      MarkerHistory(next, updates[1..]);
      if NeverChanged(start, updates) {
        assert NeverChanged(next, updates[1..]) by {
          forall i | 0 <= i < |updates[1..]| ensures updates[1..][i].maas == next.maas {
            assert updates[1..][i] == updates[i + 1];
          }
        }
      }
      if updates[0].maas == start.maas && NeverChanged(next, updates[1..]) {
        forall i | 0 <= i < |updates| ensures updates[i].maas == start.maas {
          assert i > 0 ==> updates[i] == updates[1..][i - 1];
        }
      }
    }
  }

  /** Admission rewrites the marker only: every other annotation is the caller's. */
  lemma AdmissionTouchesOnlyTheMarker(incoming: View, stored: Option<View>)
    ensures var r := Admitted(incoming, stored);
            r.Ok? ==> r.value - {MAAS_MARKER} == incoming.annotations - {MAAS_MARKER}
  {
  }

  /** A marker in the request has no effect at all. */
  lemma IncomingMarkerIsIgnored(a: View, b: View, stored: Option<View>)
    requires a.annotations - {MAAS_MARKER} == b.annotations - {MAAS_MARKER} && a.maas == b.maas
    ensures Admitted(a, stored) == Admitted(b, stored)
  {
    var x, y := a.annotations, b.annotations;
    forall k | k != MAAS_MARKER ensures (k in x <==> k in y) && (k in x ==> x[k] == y[k]) {
      assert k in x <==> k in x - {MAAS_MARKER};
      assert k in y <==> k in y - {MAAS_MARKER};
      assert k in x ==> (x - {MAAS_MARKER})[k] == x[k];
      assert k in y ==> (y - {MAAS_MARKER})[k] == y[k];
    }
    assert x[MAAS_MARKER := LEGACY_MANAGED] == y[MAAS_MARKER := LEGACY_MANAGED];
  }

  /** A created object carries no marker, whatever the request brought along. */
  lemma CreationHasNoMarker(incoming: View)
    ensures Admitted(incoming, None) == Ok(incoming.annotations - {MAAS_MARKER})
    ensures !Marked(Admitted(incoming, None).value)
  {
  }

  /** An update fails exactly on a stored marker that is malformed. */
  lemma UpdateFailsExactly(incoming: View, previous: View)
    ensures Admitted(incoming, Some(previous)).Err? <==>
            MAAS_MARKER in previous.annotations && previous.annotations[MAAS_MARKER] != "legacy-managed"
  {
  }
}
