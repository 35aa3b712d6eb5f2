# Verified models of the Open Data Hub operator

Dafny models of the parts of the operator whose correctness is not visible from one function body, with
proofs that hold for every input, every run or every reachable state. `dafny verify dfyconfig.toml` checks
the whole project.

**Storage-version migration** (`StorageTypes`, `StorageSupport`, `StorageProtocol`, `StorageSafety`,
`StorageProgress`, `StorageCrash`, `StorageLive`, `StorageDriver`). The protocol of `pkg/storagemigration` as a transition system: one CRD
with UID, generation, resource version, versions and `storedVersions`; the stored objects with the version
they are encoded at and the time of their last write; the migration requests; and any number of operator
replicas, each at one API call of `execute`. A step is one call (delivered, rejected, or carried out with the
answer lost), a start, a crash, a CRD installation, edit or removal, an object write or removal, a controller
report, a foreign request, or the deletion of a request. The rules of the environment are guards of the steps:
a spec change raises the generation, writes use a version flagged for storage, a new storage version joins the
history, nobody but the operator shortens the history, removing a CRD removes its objects, a controller reports
success only after rewriting every object since the request's creation, and requests with the managed-by label
come from this code only. The main result is that no run loses an encoding from the history. The digest that
names requests is an arbitrary function. `StorageDriver` has the imperative driver: classes whose fields and
poll loop are those of `migration`, proved to follow the transition system, to emit only legal event traces, and to
finish when nothing disturbs them.
The prune is a JSON Merge Patch (section 2 of RFC 7396), so the history array is replaced whole.

**DataScienceCluster conversion** (`Conditions`, `MaasProvenance`, `Conversion`, `ConversionLaws`). The v2/v3
conversion with its three carrier annotations, the renaming and deduplication of conditions, and the admission
state machine of the legacy MaaS marker. The round trip v3 to v2 and back is characterised exactly by the
normal form `V3Normal`, which every conversion from v2 produces; a native v3 edit of KServe can leave it, and
`NativeKserveEditExact` says when.

**Hardware-profile migration** (`HardwareProfiles`, `HardwareExact`, `HardwareContents`, `HardwareMigration`). The four create-only phases over maps
of profiles and notebooks, under arbitrary call failures: idempotence, referential integrity and naming
agreement between the phases. The imperative form is the class `Upgrade`, equal to the functions step by step.

**Printers, readers and validators** (`Text`, `PromLabels`, `IngressValidation`, `Params`, `Anchors`,
`AnchorRewrite`, `AnchorLaws`). Escaping and rendering of Prometheus labels with a parser that undoes them; duplicate
detection across additional ingresses; params.env reading, overriding and rewriting; heading slugs and link
rewriting in the API reference.

**Failure classification** (`FailureSignals`, `FailureClassifier`, `FailureLaws`). The layered classifier over
a health report, with the order in which Go ranges over the namespace maps as an explicit argument.

`Common` holds the wrappers and a decimal printer.

Where code and documentation differ, the model follows the code:

- `updateMap` compares with the zero value, so an extra parameter set to the empty string does not add a
  missing key (pkg/deploy/envParams.go:56-64).
- `classifyFromOperator` applies the exit-code patterns to graceful terminations too, unlike
  `classifyFromPods` (pkg/failureclassifier/classifier.go:293-369).
- A renamed heading line with trailing blanks keeps its old text in front of the new one, so its links miss it
  (hack/disambiguate-api-doc-anchors.go:67-78); `HeadingRenamedExact` gives the exact condition.
- A renamed heading that itself holds a link to a shared heading is missed by the links to it, because the second
  loop rewrites the heading's own link as well (hack/disambiguate-api-doc-anchors.go:84-92);
  `LinksFollowHeadingsExact` gives the exact condition and `LinkedHeadingExample` an input.
- A notebook skipped because its namespace is managed by Kueue is not skipped when the namespace cannot be read, so
  a later run can change it (pkg/upgrade/upgrade.go:475-491); `LaterRunsChangeNothingExact` gives the exact condition.
- Where an image and an extra parameter, or two extra maps, set one key differently, every call rewrites params.env in
  a new order although no parameter changes (pkg/deploy/envParams.go:90-106); `ApplyTwiceBytesExact` and `AgreesExact`
  give the exact condition.
- A params.env value ending in a carriage return does not survive a rewrite of its file
  (pkg/deploy/envParams.go:19-25, :43-47).

## Model

| member | source | states |
|---|---|---|
| StorageSupport.StorageOfExact | pkg/storagemigration/migration_support.go:256-294 | a storage version is found iff the CRD has a usable identity, exactly one version flagged for storage, named and served, and a history without blanks or repeats that contains it |
| StorageSupport.StorageVersion | pkg/storagemigration/migration_support.go:256-294 | the two scans compute that version, errors included |
| StorageSupport.StorageOfExample | pkg/storagemigration/migration_support.go:256-294 | a CRD with versions v2 and v3 in its history, v3 flagged, has storage version v3 |
| StorageSupport.NewRequestExact | pkg/storagemigration/migration_support.go:150-178 | name, kind, API version, label and spec of a new request; the spec names the version iff the API version is v1alpha1 |
| StorageSupport.ValidRequestExact | pkg/storagemigration/migration_support.go:193-218 | a request is acceptable iff its UID is the adopted one, if any, it is not deleting, its identity, label and three annotations are those for the CRD state, and so is its whole spec |
| StorageSupport.VerdictExact | pkg/storagemigration/migration_support.go:220-254 | success iff every status is True, False or Unknown, some Succeeded is True and no Failed is; an error iff a status is unknown or a Failed is True |
| StorageSupport.ApiPreference | pkg/storagemigration/migration_support.go:52-73 | the order in which the four APIs are tried |
| StorageSupport.RequestSucceeded | pkg/storagemigration/migration_support.go:220-254 | the scan that stops early gives the verdict stated over the set of conditions: error on an unknown status or Failed=True, else whether Succeeded=True |
| StorageSupport.VerdictIgnoresOrder | pkg/storagemigration/migration_support.go:220-254 | permuting the conditions does not change the verdict |
| StorageSupport.DiscoverMigrationApi | pkg/storagemigration/migration_support.go:117-148 | the k-th API is chosen iff it is offered with the right resource and every earlier one is not offered; the first answer that is neither gives the error, its own cause if the call failed; if none is offered the call is refused |
| StorageSafety.MarksIdentify | pkg/storagemigration/migration_support.go:150-218 | equal request annotations force equal CRD UID, generation and storage version, whatever the digest does |
| Common.DecimalReads | pkg/storagemigration/migration_support.go:173 | a generation is printed with its decimal digits, without leading zeros |
| StorageSafety.SuccessProvesMigration | pkg/storagemigration/migration_support.go:193-254 | a request that passes validation and has succeeded, even one left by a crashed attempt, proves that every object is at the storage version as long as the CRD is unchanged |
| StorageSafety.PatchIsSafe | pkg/storagemigration/migration_support.go:296-334 | under the resource-version lock the reread CRD is the live one, so the prune keeps the invariant |
| StorageSafety.StepKeepsInv | pkg/storagemigration/migration.go:53-263 | every step of every actor keeps the protocol invariant |
| StorageSafety.RunKeepsInv | pkg/storagemigration/migration.go:53-263 | every run keeps it |
| StorageSafety.RunsAreSafe | pkg/storagemigration/migration_support.go:296-334 | in every interleaving of replicas, crashes, CRD edits, recreations, object writes and controller steps, each stored object's encoding is in storedVersions |
| StorageSafety.PruneOnlyWhenMigrated | pkg/storagemigration/migration.go:192-245 | a version leaves the history only by a replica's patch, which leaves exactly the storage version, at a moment when all objects are encoded at it |
| StorageSafety.ShorteningIsPatch | pkg/storagemigration/migration_support.go:296-334 | the same for any state that satisfies the invariant |
| StorageProgress.DeletesOnlyAdopted | pkg/storagemigration/migration.go:247-263 | a replica's call removes only the request with the UID that it had validated |
| StorageProgress.ValidationExact | pkg/storagemigration/migration.go:158-179 | the first read leads to discovery iff the history is not yet [storage], ends as not needed iff there is no CRD or it is, and fails iff the CRD may not be touched |
| StorageProgress.AdoptionExact | pkg/storagemigration/migration.go:199-211 | a created or resumed request is adopted iff it is acceptable and not Failed |
| StorageProgress.CreateExact | pkg/storagemigration/migration_support.go:180-191 | what a create leaves in the cluster and where it leaves the replica, for each outcome |
| StorageProgress.PollExact | pkg/storagemigration/migration.go:213-230 | a poll moves on iff the request is acceptable under the adopted UID and succeeded, polls again iff it is unfinished, and fails otherwise, in particular on a replaced request |
| StorageProgress.RereadExact | pkg/storagemigration/migration_support.go:296-318 | the prune goes on iff UID, storage version and generation are unchanged, and patches iff the history is not yet [storage] |
| StorageProgress.PatchExact | pkg/storagemigration/migration_support.go:319-334 | a patch takes effect iff it is not refused and the resource version is that of the reread CRD, and then replaces the history whole and nothing else |
| StorageProgress.DeleteExact | pkg/storagemigration/migration.go:247-263 | a delete succeeds iff no request with another UID has the name |
| StorageProgress.StaysOnTrack | pkg/storagemigration/migration.go:192-245 | steps that do not disturb an attempt keep it able to finish |
| StorageProgress.FinishRun | pkg/storagemigration/migration.go:192-263 | once the controller has completed, the remaining calls lead to CleanedUp, by a decreasing rank |
| StorageProgress.UndisturbedAttemptCompletes | pkg/storagemigration/migration.go:53-156 | from any state whose request under the name, if any, can be resumed, an undisturbed attempt whose request the controller completes ends with the history exactly [storage] and its request gone |
| StorageProgress.SecondAttemptWritesNothing | pkg/storagemigration/migration.go:158-179 | an attempt on a pruned CRD ends as not needed, or failed if the read failed, and changes nothing in the cluster |
| StorageProgress.RerunWritesNothing | pkg/storagemigration/migration.go:53-179 | end to end: from any reachable state, after an undisturbed attempt that the controller completed, a rerun by any replica leaves the whole cluster as it is |
| StorageCrash.RunLeaves | pkg/storagemigration/migration.go:53-179 | starts, calls with any outcome and crashes of any number of replicas, with object traffic and reports that are not Failed, always leave the CRD as found or pruned and a request that can be resumed |
| StorageCrash.CrashTolerance | pkg/storagemigration/migration.go:53-179 | after any such run from a fresh cluster, either the history is already [storage] and a rerun writes nothing, or an undisturbed rerun whose request the controller completes ends with the history [storage] and the request gone |
| StorageCrash.CrashBeforeDelete | pkg/storagemigration/migration.go:136-147 | a crash between patch and delete leaves the history [storage] and the request, and a rerun of any replica leaves both as they are |
| StorageLive.CallProgress | pkg/storagemigration/migration.go:53-263 | a delivered call never makes an undisturbed attempt fail, from its first call to its last |
| StorageDriver.OthersKeep | pkg/storagemigration/migration.go:53-156 | whatever others do between two calls keeps the invariant and this replica's place |
| StorageDriver.NilExactlyAtTheEnd | pkg/storagemigration/migration.go:53-156 | for a legal trace the result is nil iff the trace ends in NotNeeded or CleanedUp |
| StorageDriver.OnceHadStays | pkg/storagemigration/migration.go:192-245 | that the history once was [storage] stays true as the run goes on |
| StorageDriver.World.Step | pkg/storagemigration/migration.go:192-245 | one API call is one step of the transition system after arbitrary steps of others |
| StorageDriver.TurnProgress | pkg/storagemigration/migration.go:192-245 | a turn of calm traffic and a delivered answer keeps the attempt in progress |
| StorageDriver.World.PatchHistory | pkg/storagemigration/migration_support.go:296-334 | a patch that succeeds leaves the CRD with the reread UID and exactly the patched history |
| StorageDriver.World.DeleteRequest | pkg/storagemigration/migration.go:247-263 | a delete that succeeds leaves no request under that name |
| StorageDriver.Migration.Record | pkg/storagemigration/migration_event.go:54-78 | appends one event that regards the CRD read so far; a given event type wins, else it is a warning iff there is an error |
| StorageDriver.Migration.Validate | pkg/storagemigration/migration.go:158-179 | leaves the replica before discovery with the CRD's storage version, or stopped as not needed |
| StorageDriver.Migration.Discover | pkg/storagemigration/migration.go:181-190 | leaves the replica before creation with one of the supported APIs |
| StorageDriver.Migration.CreateOrGet | pkg/storagemigration/migration_support.go:180-191 | returns the created or, if it exists, the present request, in the protocol's adopting state |
| StorageDriver.Migration.Wait | pkg/storagemigration/migration.go:192-245 | the poll loop ends without error only where the protocol has seen a validated success |
| StorageDriver.Migration.Prune | pkg/storagemigration/migration_support.go:296-334 | on success the CRD with the validated UID had exactly the history [storage] during this call |
| StorageDriver.Migration.Run | pkg/storagemigration/migration.go:192-245 | on success the replica holds the validated request and the history was [storage] |
| StorageDriver.Migration.Cleanup | pkg/storagemigration/migration.go:247-263 | on success the replica has stopped as cleaned up and its request is gone |
| StorageDriver.Migration.Execute | pkg/storagemigration/migration.go:53-156 | every call emits a legal trace for its result, follows the transition system, and emits Succeeded only if the history was [storage] during the call; undisturbed, it returns nil with the history [storage] and the request gone unless all but six turns of its context were polls that found the request unfinished |
| Conditions.CollectTargets | api/datasciencecluster/v2/datasciencecluster_conversion.go:44-83 | finds exactly the types that some condition is renamed to |
| Conditions.MapConditions | api/datasciencecluster/v2/datasciencecluster_conversion.go:44-83 | the slice and index loops build the specified list; nil stays nil |
| Conditions.OutputSpeaks | api/datasciencecluster/v2/datasciencecluster_conversion.go:44-83 | types are distinct, and each entry is the last renamed source of its type if any, else the first plain one |
| Conditions.OutputCovers | api/datasciencecluster/v2/datasciencecluster_conversion.go:44-83 | every renamed input type is in the output |
| Conditions.MappingIsPointwise | api/datasciencecluster/v2/datasciencecluster_conversion.go:44-83 | on distinct types without target names the mapping renames in place |
| Conditions.MappingUndone | api/datasciencecluster/v2/datasciencecluster_conversion.go:44-83 | the inverse mapping undoes it on such lists |
| Conditions.OutputIsNormal | api/datasciencecluster/v2/datasciencecluster_conversion.go:44-83 | every output is such a list for the inverse mapping |
| MaasProvenance.StoredObject.PreserveMaaSV2State | api/datasciencecluster/v3/maas_conversion.go:18-30 | sets the marker iff only the legacy field is Managed, else removes it |
| MaasProvenance.StoredObject.ReadMaaSV2State | api/datasciencecluster/v3/maas_conversion.go:33-44 | absent, valid or an error |
| MaasProvenance.StoredObject.AdmitMaaSV2State | api/datasciencecluster/v3/maas_conversion.go:48-70 | the in-place admission equals the admission function and changes nothing when it fails |
| MaasProvenance.MarkerHistory | api/datasciencecluster/v3/maas_conversion.go:48-70 | over any sequence of updates from a valid start no admission fails, and the marker is present iff the start had it and no step changed modelsAsAService |
| MaasProvenance.AdmissionTouchesOnlyTheMarker | api/datasciencecluster/v3/maas_conversion.go:48-70 | all other annotations are those of the incoming object |
| MaasProvenance.IncomingMarkerIsIgnored | api/datasciencecluster/v3/maas_conversion.go:48-70 | the incoming marker never matters |
| MaasProvenance.CreationHasNoMarker | api/datasciencecluster/v3/maas_conversion.go:48-70 | a created object is stored without the marker and otherwise with its annotations |
| MaasProvenance.UpdateFailsExactly | api/datasciencecluster/v3/maas_conversion.go:33-70 | an update is refused iff the stored marker is malformed |
| Conversion.NamesAreInverse | api/datasciencecluster/v2/datasciencecluster_conversion.go:85-183 | the two rename tables are one-to-one, disjoint from their targets and inverse to each other |
| Conversion.RestoreMarkers | api/datasciencecluster/v2/datasciencecluster_conversion.go:329-376 | removes both carrier annotations and restores the settings they carry, or fails on a malformed one |
| Conversion.ConvertTo | api/datasciencecluster/v2/datasciencecluster_conversion.go:255-377 | the step-by-step conversion equals the specification that the laws are about |
| Conversion.ConvertFrom | api/datasciencecluster/v2/datasciencecluster_conversion.go:380-501 | likewise back to v2 |
| ConversionLaws.ToV3Fields | api/datasciencecluster/v2/datasciencecluster_conversion.go:255-343 | where every field of the v3 object comes from |
| ConversionLaws.ToV3Markers | api/datasciencecluster/v2/datasciencecluster_conversion.go:345-376 | which annotations and v3-only settings it gets, and that the conversion is refused iff a marker is malformed |
| ConversionLaws.FromV3Fields | api/datasciencecluster/v2/datasciencecluster_conversion.go:380-468 | where every field of the v2 view comes from; WVA, TrainingOperator and LlamaStackOperator are Removed |
| ConversionLaws.FromV3Markers | api/datasciencecluster/v2/datasciencecluster_conversion.go:459-498 | which markers the v2 view carries, and that the conversion is refused iff the MaaS marker is malformed |
| ConversionLaws.ConditionNames | api/datasciencecluster/v2/datasciencecluster_conversion.go:255-343 | the three condition types that have another name in v3 |
| ConversionLaws.CanonExact | api/datasciencecluster/v2/datasciencecluster_conversion.go:470-491 | the canonical spelling changes nothing but an empty or Removed ModelExpress or audit setting and the two v2 markers |
| ConversionLaws.LuksPatternExact | api/datasciencecluster/v2/datasciencecluster_conversion.go:215 | the pattern accepts exactly kbs:/// and three segments of allowed characters |
| ConversionLaws.ConfidentialExact | api/datasciencecluster/v2/datasciencecluster_conversion.go:232-249 | confidential settings pass iff the path is of that form without dot segments and both texts are within their limits |
| ConversionLaws.StateExact | api/datasciencecluster/v2/datasciencecluster_conversion.go:221-252 | carried settings pass iff something is set, the profile is known and confidential settings pass |
| ConversionLaws.RoundTripExact | api/datasciencecluster/v2/datasciencecluster_conversion.go:255-501 | v3 to v2 and back is error-free and the identity, up to empty meaning Removed and the carrier annotations, iff the object is in normal form |
| ConversionLaws.ImageIsNormal | api/datasciencecluster/v2/datasciencecluster_conversion.go:329-376 | every object converted from v2 is in normal form, whatever annotations it carried |
| ConversionLaws.ConditionsTrip | api/datasciencecluster/v2/datasciencecluster_conversion.go:44-83 | conditions survive the trip iff their types are distinct and none is a v2 name |
| ConversionLaws.SettingsTrip | api/datasciencecluster/v2/datasciencecluster_conversion.go:221-252 | ModelExpress and KServe settings are read back from their annotations iff they pass validation |
| ConversionLaws.NoDrift | api/datasciencecluster/v2/datasciencecluster_conversion.go:380-501 | any number of read-and-write-back rounds through v2 gives the canonical object |
| ConversionLaws.WrittenThroughV2NeverDrifts | api/datasciencecluster/v2/datasciencecluster_conversion.go:255-377 | so an object written through v2 never drifts |
| ConversionLaws.WriteBackIsStable | api/datasciencecluster/v2/datasciencecluster_conversion.go:380-501 | a v2 client that writes back what it read reads the same again |
| ConversionLaws.MaasEnabledAgrees | api/datasciencecluster/v2/datasciencecluster_conversion.go:459-498 | effective MaaS enablement is the same in both views |
| ConversionLaws.LegacySourceSurvives | api/datasciencecluster/v3/maas_conversion.go:18-30 | a v2 object gets its legacy field back as the source of enablement |
| ConversionLaws.NativeKserveEditExact | api/datasciencecluster/v3/maas_conversion.go:60-62 | after a native v3 edit of KServe's state the round trip holds iff the object is unmarked or KServe stays on the same side of Managed |
| ConversionLaws.NativeEditBreaksTheTrip | api/datasciencecluster/v3/maas_conversion.go:60-62 | a concrete edit after which a v2 read and write-back turns MaaS off |
| HardwareProfiles.SecondRunChangesNothing | pkg/upgrade/upgrade.go:289-323 | after an error-free run another run, whichever of its calls fail, changes no profile, and changes some notebook iff the first run skipped one for Kueue whose labels the second cannot read and whose profile it finds and may write |
| HardwareProfiles.LaterRunsChangeNothingExact | pkg/upgrade/upgrade.go:289-323 | later runs change nothing under any faults iff the first run skipped no notebook for Kueue whose profile exists and whose annotation the webhook accepts |
| HardwareProfiles.ProfilesAreNeverAltered | pkg/cluster/resources.go:232-239 | no run, however it fails, alters or removes an existing profile |
| HardwareProfiles.TargetNames | pkg/upgrade/upgrade.go:516-564 | a looked-up profile name is never empty and never the one created after the attach phase |
| HardwareProfiles.CreatePhases | pkg/upgrade/upgrade.go:327-416 | error-free creation phases leave every profile that the attach phase can ask for |
| HardwareProfiles.SearchLaw | pkg/upgrade/upgrade_utils.go:604-664 | the namespace search finds the first candidate that holds the profile, or none holds it |
| HardwareProfiles.TargetSearchIsSearch | pkg/upgrade/upgrade_utils.go:604-664 | the list of namespaces and the loop over it are the search hint, own namespace, application namespace, each at most once, ended by a failing lookup |
| HardwareProfiles.WinnerIsFirstHolder | pkg/upgrade/upgrade_utils.go:616-626 | the first holder in the list is the hinted namespace if it holds the profile, else the own, else the application namespace |
| HardwareExact.TargetExact | pkg/upgrade/upgrade.go:452-468 | an accelerator annotation counts before a size, and a size only if it is configured |
| HardwareExact.CrdNameExact | pkg/upgrade/upgrade.go:455-468 | names are lower-cased with dashes for blanks |
| HardwareExact.CreatedNames | pkg/upgrade/upgrade_utils.go:458-541 | the names under which profiles are created |
| HardwareExact.AttachExact | pkg/upgrade/upgrade.go:470-511 | whose profile is found: skipped iff in a readable Kueue namespace without a queue, changed iff not skipped and the update is accepted, in error iff the update fails or is rejected for another reason than Kueue |
| HardwareExact.AttachMissExact | pkg/upgrade/upgrade_utils.go:642-664 | whose profile is not found: unchanged, and in error iff the search, the event or the update fails or is rejected for another reason than Kueue |
| HardwareExact.AttachPhaseGuards | pkg/upgrade/upgrade.go:424-438 | when the phase does not get to the notebooks |
| HardwareExact.ApFaults | pkg/upgrade/upgrade.go:345-374 | of an accelerator's two profiles the second is not tried when the first fails |
| HardwareExact.SizeListsAreIndependent | pkg/upgrade/upgrade.go:378-416 | a malformed list of sizes is an error that leaves the other list alone |
| HardwareExact.CustomFaults | pkg/upgrade/upgrade.go:516-564 | when the serving profile phase reports an error, and that an existing profile is enough |
| HardwareExact.AttachLeavesAlone | pkg/upgrade/upgrade.go:440-470 | an annotated notebook, or one that asks for nothing, is left alone |
| HardwareExact.WithProfileExact | pkg/upgrade/upgrade_utils.go:604-664 | what an annotated notebook names and that its other annotations stay |
| HardwareExact.RunGuards | pkg/upgrade/upgrade.go:289-323 | without application namespace or configuration a run does nothing; an unreadable configuration is an error |
| HardwareContents.CustomServingExists | pkg/upgrade/upgrade.go:516-564 | after an error-free run custom-serving exists in the application namespace |
| HardwareContents.RunCreatesOnlyGenerated | pkg/upgrade/upgrade.go:289-323 | whatever fails, every profile that a run adds is one generated from the configuration, under its own name and with its own content |
| HardwareContents.SizeProfileExact | pkg/upgrade/upgrade_utils.go:483-541 | a size profile asks for the requests and is bounded by the limits of its size |
| HardwareContents.ApProfileExact | pkg/upgrade/upgrade_utils.go:363-480 | counts, bounds, tolerations and copied annotations of an accelerator's profiles |
| HardwareContents.ServingProfileExact | pkg/upgrade/upgrade.go:345-374 | the serving profile of an accelerator asks for fixed counts without bounds |
| HardwareContents.CustomServingExact | pkg/upgrade/upgrade.go:516-564 | content of the custom-serving profile |
| HardwareProfiles.AttachAgain | pkg/upgrade/upgrade.go:420-514 | a second attempt on a notebook changes it iff the first skipped it for Kueue and the second, unable to read the labels, lets it through |
| HardwareProfiles.ChangedNotebooksReferToProfiles | pkg/upgrade/upgrade_utils.go:604-664 | every notebook that a run changed names a profile that exists in the first of accelerator, own and application namespace that has it |
| HardwareProfiles.WaitingNotebooksSettle | pkg/upgrade/upgrade.go:440-511 | after an error-free run every unannotated notebook with a target and no Kueue skip names the first of hinted, own and application namespace that holds its profile iff there is one and the webhook does not answer that update with a Kueue rejection; otherwise it is as it was |
| HardwareProfiles.WaitingNotebooksAreAnnotated | pkg/upgrade/upgrade.go:440-511 | for a notebook that selects a configured size, and no accelerator, there is such a namespace |
| HardwareProfiles.AcceleratorNamesAgree | pkg/upgrade/upgrade_utils.go:363-480 | the profile that an accelerator annotation looks for is the one created from an accelerator profile iff the latter's resource name is the annotation lower-cased with dashes for spaces |
| HardwareProfiles.AcceleratorNotebooksAreAnnotated | pkg/upgrade/upgrade.go:440-511 | then there is such a namespace if that accelerator profile is in one of the three |
| HardwareProfiles.LabelsMustStayReadable | pkg/upgrade/upgrade_utils.go:554-564 | a cluster on which a first run without faults skips a notebook and a second run, in which only the label read fails, annotates it |
| HardwareMigration.Upgrade.CreateHardwareProfile | pkg/cluster/resources.go:232-239 | creation that accepts an existing profile and leaves it alone |
| HardwareMigration.Upgrade.MigrateAcceleratorProfiles | pkg/upgrade/upgrade.go:327-374 | the loop with its accumulated errors equals the phase function |
| HardwareMigration.Upgrade.MigrateContainerSizes | pkg/upgrade/upgrade.go:378-416 | likewise for container sizes |
| HardwareMigration.Upgrade.SetHardwareProfileAnnotation | pkg/upgrade/upgrade_utils.go:604-664 | looks in the hinted, then the own, then the application namespace, writes the first that holds the profile, records a miss, and leaves the notebook alone on a failed search |
| HardwareMigration.Upgrade.AttachHardwareProfiles | pkg/upgrade/upgrade.go:420-514 | the loop over listed notebooks, in any order, equals the pointwise phase function |
| HardwareMigration.Upgrade.Migrate | pkg/upgrade/upgrade.go:289-323 | the four phases in order equal one run |
| PromLabels.SequentialIsOnePass | pkg/clusterhealth/metrics_export.go:247-253 | the four sequential replacements are the one-pass escaper |
| PromLabels.EscapePromLabelValue | pkg/clusterhealth/metrics_export.go:247-253 | the method computes that escaper |
| PromLabels.EscapeHasNoLineBreaks | pkg/clusterhealth/metrics_export.go:247-253 | an escaped value has no raw line feed or carriage return |
| PromLabels.ReadEscaped | pkg/clusterhealth/metrics_export.go:247-253 | a reader up to the first bare quote gets the value back, so no bare quote is in it |
| PromLabels.FormatPromLabels | pkg/clusterhealth/metrics_export.go:227-242 | the result is a function of the map alone, whatever the iteration order |
| PromLabels.FormatRoundTrip | pkg/clusterhealth/metrics_export.go:227-242 | a parser recovers the labels, for names without '=' |
| PromLabels.EscapeTable | pkg/clusterhealth/metrics_export.go:247-253 | the four escapes; every other character stands for itself |
| PromLabels.FormatOne | pkg/clusterhealth/metrics_export.go:227-242 | one label as it is printed |
| PromLabels.FormatTwo | pkg/clusterhealth/metrics_export.go:227-242 | two labels as they are printed, in order |
| IngressValidation.CanonicalLabelsKey | pkg/gatewayconfig/validation.go:116-130 | the key is a function of the label map alone |
| IngressValidation.CanonicalKeyExact | pkg/gatewayconfig/validation.go:116-130 | two label maps have the same key iff they are equal, for keys without '=' and values without NUL |
| IngressValidation.CanonicalKeyCollision | pkg/gatewayconfig/validation.go:116-130 | a label key with '=' can collide |
| IngressValidation.SecretReferenceKeyExact | pkg/gatewayconfig/validation.go:109-114 | two references have the same key iff name and defaulted namespace agree, for namespaces without '/' |
| IngressValidation.PrefixesKeepApart | pkg/gatewayconfig/validation.go:62-64 | fields that share a map never collide |
| IngressValidation.AppendDuplicate | pkg/gatewayconfig/validation.go:100-107 | reports against the first holder, or records this one |
| IngressValidation.ValidateOidcIdentity | pkg/gatewayconfig/validation.go:81-98 | reports client ID and secret reference against earlier holders and keeps both maps exact |
| IngressValidation.AdditionalIngressValidationErrors | pkg/gatewayconfig/validation.go:39-79 | the messages are those specified, in order, with nothing for an empty list |
| IngressValidation.DuplicatesExact | pkg/gatewayconfig/validation.go:39-107 | a duplicate of a field is reported for an entry iff spec.oidc or an earlier entry has the same value, and it names the first such place |
| IngressValidation.OidcMessagesExact | pkg/gatewayconfig/validation.go:66-74 | an entry is told that OIDC is required iff it has none and spec.oidc is set, and that it needs spec.oidc iff it has some and spec.oidc is not set |
| IngressValidation.FieldErrorExact | pkg/gatewayconfig/validation.go:39-47 | the per-field error is reported iff there is one and there are entries, and it comes first |
| IngressValidation.AdmittedExact | pkg/gatewayconfig/validation.go:39-79 | nothing is reported iff there are no entries, or no per-field error, no OIDC mismatch and no duplicate |
| Params.ParseParams | pkg/deploy/envParams.go:11-32 | the scanner loop computes the specified parse, including the line-length error |
| Params.OtherLine | pkg/deploy/envParams.go:19-25 | a line without '=' adds no parameter |
| Params.LongLine | pkg/deploy/envParams.go:19-30 | a line of 65536 characters or more is an error |
| Params.LaterLineWins | pkg/deploy/envParams.go:19-25 | the last line for a key wins |
| Params.ImageExact | pkg/deploy/envParams.go:90-95 | the image of a parameter is the non-empty value of the variable its key is mapped to |
| Params.WriteParams | pkg/deploy/envParams.go:34-53 | writes every key once, in some order of the map |
| Params.WriteReadExact | pkg/deploy/envParams.go:11-53 | written in any order, the parameters read back unchanged iff keys have no '=' or line feed, values no line feed or final carriage return, and lines fit the scanner |
| Params.UpdateMap | pkg/deploy/envParams.go:56-64 | returns the updated map and a non-zero count iff it changed |
| Params.AppliedExact | pkg/deploy/envParams.go:66-110 | per key: the last extra map wins, then the image, then the file; a key is added iff some extra sets it to a non-empty value |
| Params.AppliedIdempotent | pkg/deploy/envParams.go:90-106 | overriding twice is overriding once |
| Params.TouchedExact | pkg/deploy/envParams.go:86-110 | the updated flag stays zero iff every override already holds |
| Params.Override | pkg/deploy/envParams.go:86-106 | the two update loops, in any map order, compute the overridden parameters and the flag |
| Params.ParamsFile.ApplyParams | pkg/deploy/envParams.go:75-123 | a missing file and an unchanged map are left alone, a read or write error leaves the file as it was, otherwise the file holds the overridden parameters in some order |
| Params.ApplyGivesApplied | pkg/deploy/envParams.go:75-123 | the file then reads as the overridden parameters iff nothing had to be written or the lines can carry them |
| Params.ApplyTwice | pkg/deploy/envParams.go:75-123 | a second call leaves the same parameters, whenever the first left a file that carries them |
| Params.ApplyTwiceBytesExact | pkg/deploy/envParams.go:86-123 | it leaves the same bytes, in whatever map order, iff every override holds in the result or the result has at most one parameter |
| Params.AgreesExact | pkg/deploy/envParams.go:86-106 | every override holds in the result iff no key is given two values by the extras, or by an image and an extra |
| Params.BytesCanChange | pkg/deploy/envParams.go:90-106 | an image and an extra that disagree, for which a call that changes no parameter reorders the file |
| Params.RewriteDropsCarriageReturn | pkg/deploy/envParams.go:34-53 | a value with a final carriage return is lost by any rewrite |
| Params.ValuesMayEndInCarriageReturn | pkg/deploy/envParams.go:19-25 | such values can be read from a file: of two final carriage returns the scanner drops one |
| FailureSignals.FirstMention | pkg/failureclassifier/types.go:167-178 | the scan returns a pattern that the text mentions and before which it mentions none; nothing iff the text is empty or mentions none |
| FailureSignals.FirstOfExact | pkg/failureclassifier/types.go:167-178 | the match is a pattern iff it is the first of the table that the text mentions; no match iff none is |
| FailureSignals.ContainsExact | pkg/failureclassifier/types.go:216-227 | a text contains a pattern iff it stands somewhere in it |
| FailureSignals.MentionsIgnoresCase | pkg/failureclassifier/types.go:167-178 | case does not matter on either side |
| FailureSignals.ContainsAnyExact | pkg/failureclassifier/types.go:216-227 | a message shows a table iff one of its texts stands in it, in any case |
| FailureSignals.PatternTables | pkg/failureclassifier/types.go:68-88 | every container pattern with its verdict, in order |
| FailureSignals.ContainerHitExact | pkg/failureclassifier/classifier.go:97-118 | a known waiting state decides before a known termination, each by its first pattern |
| FailureSignals.OomBeatsExitCode | pkg/failureclassifier/types.go:76-88 | "OOMKilled (exit 137)" is an out-of-memory failure |
| FailureSignals.AgeLimits | pkg/failureclassifier/classifier.go:11-20 | the limits of one and five minutes and on which side of them a resource counts |
| FailureSignals.TerminationsExact | pkg/failureclassifier/classifier.go:398-412 | how successful and graceful terminations are recognised |
| FailureSignals.EvidenceExact | pkg/failureclassifier/classifier.go:135-396 | every verdict cites the item that it is about |
| FailureSignals.DistressExact | pkg/failureclassifier/classifier.go:119-132 | the lines that a container adds to the distress of its pod or of the operator |
| FailureSignals.ContainerHitIsSpecific | pkg/failureclassifier/classifier.go:97-118 | a container is a specific hit iff a waiting or non-graceful terminated pattern matches, with a code in the infrastructure range |
| FailureSignals.OperatorIgnoresGrace | pkg/failureclassifier/classifier.go:335-367 | a graceful termination is neither hit nor distress for an ordinary pod; for the operator it is a hit iff a terminated pattern matches and distress iff it does not show exit code 0 |
| FailureSignals.DrainedOperatorIsAFailure | pkg/failureclassifier/classifier.go:335-343 | "Completed (exit 143)" is such a termination |
| FailureClassifier.ClassifyFromPods | pkg/failureclassifier/classifier.go:90-147 | gives the first specific hit in the order met, or every line of distress |
| FailureClassifier.ClassifyFromOperator | pkg/failureclassifier/classifier.go:293-369 | gives the deployment's, then the first pod's hit, or every line of distress |
| FailureClassifier.ClassifyClusterDistress | pkg/failureclassifier/classifier.go:261-288 | pod distress before operator distress before unready deployments |
| FailureClassifier.Classify | pkg/failureclassifier/classifier.go:23-84 | equals the priority chain for the order in which the maps are met; nil is unclassifiable |
| FailureLaws.FirstRuleDecides | pkg/failureclassifier/classifier.go:150-220 | an event that is not stale gets the subcategory and code of the first rule, in the declared order, whose reason or message it shows |
| FailureLaws.PodHitPriority | pkg/failureclassifier/classifier.go:94-145 | a pod is judged by its first container with a known trouble |
| FailureLaws.PodPhaseLast | pkg/failureclassifier/classifier.go:94-145 | and by its phase only if there is none |
| FailureLaws.ImagePullBeatsPending | pkg/failureclassifier/classifier.go:94-145 | a pod pending on an image that cannot be pulled is an image-pull failure |
| FailureLaws.LayerVerdicts | pkg/failureclassifier/classifier.go:224-396 | subcategory, code and confidence of every layer without patterns, and the two answers without a signal |
| FailureLaws.OperatorPriority | pkg/failureclassifier/classifier.go:293-343 | the deployment decides before the pods, a pod's phase before its containers |
| FailureLaws.LayerExact | pkg/failureclassifier/classifier.go:90-396 | whether a layer answers depends on the report only, not on the order; specific layers are never low, distress layers always |
| FailureLaws.FirstSignalDecides | pkg/failureclassifier/classifier.go:23-84 | the answer is that of the first layer in the declared order that has any signal |
| FailureLaws.CodeAndEvidence | pkg/failureclassifier/types.go:19-47 | the code is in the category's range and there is always evidence |
| FailureLaws.LowConfidenceExact | pkg/failureclassifier/classifier.go:23-84 | a low-confidence infrastructure answer iff no specific signal exists anywhere and some distress does |
| FailureLaws.OrderIndependence | pkg/failureclassifier/classifier.go:23-84 | the map order never changes the category, changes subcategory, code or confidence only when pods decide, and only permutes deferred pod evidence |
| FailureLaws.PossibleAnswersExact | pkg/failureclassifier/classifier.go:90-147 | over all orders, a scan of namespaces can give exactly the first verdicts of the single namespaces |
| FailureLaws.PodOrderMattersExact | pkg/failureclassifier/classifier.go:23-147 | when pods decide, the classification is the same in every order iff all namespaces that answer have the same first verdict |
| FailureLaws.OrderCanChangeTheCode | pkg/failureclassifier/classifier.go:90-147 | two namespaces on which two orders give different error codes |
| Anchors.Slug | hack/disambiguate-api-doc-anchors.go:130-145 | the loop with its separator flag computes the fold |
| Anchors.SlugOfSuffixed | hack/disambiguate-api-doc-anchors.go:130-145 | slug(heading + " (s)") = slug(heading) + "-" + s iff the heading has a letter or digit, for non-empty lower-case alphanumeric s |
| Anchors.SlugCharacters | hack/disambiguate-api-doc-anchors.go:130-145 | a slug holds letters, digits and hyphens only |
| Anchors.SlugOfWords | hack/disambiguate-api-doc-anchors.go:130-145 | two words are joined by one hyphen, whatever blanks and hyphens stood between them |
| Anchors.HeadingLevels | hack/disambiguate-api-doc-anchors.go:30-34 | type headings have three to six hashes, section headings two, then a blank and some text |
| Anchors.TrimRightExact | hack/disambiguate-api-doc-anchors.go:30-34 | exactly the trailing blanks are trimmed |
| Anchors.HeadingRenamedExact | hack/disambiguate-api-doc-anchors.go:67-78 | for every type heading, the renamed line reads as the suffixed heading iff the line has no trailing blank or its text is a single blank |
| Anchors.TargetsRedirected | hack/disambiguate-api-doc-anchors.go:84-92 | the links of a rewritten line are the old ones, each redirected, none lost or added |
| Anchors.PiecesKept | hack/disambiguate-api-doc-anchors.go:84-92 | the text around the targets of a rewritten line stays |
| Anchors.LineIsWoven | hack/disambiguate-api-doc-anchors.go:84-92 | a line is that text and its targets, nothing else |
| AnchorRewrite.FindSections | hack/disambiguate-api-doc-anchors.go:101-118 | every section name is located at its last heading, up to the next section heading or the end |
| AnchorRewrite.HeadingsIn | hack/disambiguate-api-doc-anchors.go:120-128 | collects exactly the heading texts inside a section |
| AnchorRewrite.SharedExact | hack/disambiguate-api-doc-anchors.go:66-73 | a heading is shared iff the previous section has one that reads the same and it is not "Resource Types" |
| AnchorRewrite.RenameHeadings | hack/disambiguate-api-doc-anchors.go:65-79 | renames in place exactly the shared headings of the section and maps each of their slugs |
| AnchorRewrite.RewriteLinks | hack/disambiguate-api-doc-anchors.go:84-92 | redirects in place the links of the section's lines |
| AnchorRewrite.RewritePair | hack/disambiguate-api-doc-anchors.go:64-92 | both loops together; stops iff no heading is shared |
| AnchorRewrite.Disambiguate | hack/disambiguate-api-doc-anchors.go:41-99 | all pairs in turn on the sections located once; succeeds iff every pair finds both sections and a shared heading |
| AnchorRewrite.SucceedsExact | hack/disambiguate-api-doc-anchors.go:54-93 | for sections that are apart this is decided by the original lines, pair by pair |
| AnchorRewrite.OutsideUnchanged | hack/disambiguate-api-doc-anchors.go:64-92 | a line outside every current section is unchanged |
| AnchorRewrite.SectionsDisjoint | hack/disambiguate-api-doc-anchors.go:101-118 | sections of different names share no line |
| AnchorRewrite.PairsDoNotInterfere | hack/disambiguate-api-doc-anchors.go:54-93 | for pairs whose sections are apart, the whole program does to each current section what its pair alone would do to the original lines |
| AnchorRewrite.DistinctNamesAreApart | hack/disambiguate-api-doc-anchors.go:54-93 | pairs with different names have such sections |
| AnchorLaws.VersionPairsAreDistinct | hack/disambiguate-api-doc-anchors.go:17-28 | the listed version pairs have different names |
| AnchorRewrite.LinksRedirected | hack/disambiguate-api-doc-anchors.go:84-92 | every link of the section keeps its place and is changed iff it pointed at a shared heading's slug |
| AnchorLaws.FoldCounts | hack/disambiguate-api-doc-anchors.go:130-145 | a slug has exactly as many letters and digits as its text |
| AnchorLaws.LinksFollowHeadingsExact | hack/disambiguate-api-doc-anchors.go:64-92 | a link to a shared heading's slug points, afterwards, at the slug of the heading as it now reads iff the heading has a letter or digit, its line has no trailing blank, and no link in it points at a shared heading's slug |
| AnchorLaws.SharedHeadingsAreToldApart | hack/disambiguate-api-doc-anchors.go:64-92 | after the rewrite such a shared heading has a slug of the previous section iff that section had a heading with the suffixed slug |
| AnchorLaws.SuffixAlreadyTaken | hack/disambiguate-api-doc-anchors.go:64-92 | which is so if it had a heading that reads as the renamed one |
| AnchorLaws.LinkedHeadingIsMissed | hack/disambiguate-api-doc-anchors.go:84-92 | every shared heading whose line links to a shared heading is missed by the links to itself |
| AnchorLaws.LinkedHeadingExample | hack/disambiguate-api-doc-anchors.go:84-92 | the headings "Foo" and "[Foo](#foo)" with a link to "foofoo" are such an input |
| AnchorLaws.ProgramLinksFollowHeadings | hack/disambiguate-api-doc-anchors.go:41-99 | the exact condition for the whole program on its listed version pairs |

## Left out

- Storage migration: propagation delay of the API server, finalizers that delay a delete, backoff timing and discovery caches; each migration API is its own collection of requests; resource version 0 stands for the empty string.
- StorageSupport.DiscoverMigrationApi: does not model the texts of its errors, only whether a call failed, was cancelled, or was answered unusably.
- StorageDriver.Migration.Record: does not model event message texts, because they are free text for readers.
- Conversion: JSON is any codec whose decoder undoes its encoder; components that are copied field by field are one opaque value; nil and empty annotation maps are the same.
- Platform and DSCInitialization conversions, generated deep-copy code and API types: plain field copies.
- Hardware profiles: modification dates, event texts and logs; namespace labels and the answers of the admission webhook stay the same between runs, while every read of them may fail; a failing call is identified by what it is for, not by how often it was tried.
- Lower-casing in the hardware-profile names and in the failure patterns is that of ASCII letters; the slugs work over any letter classes and any per-character lower-casing.
- FailureClassifier.Classify: does not model the rendering of evidence into text or the clock, because evidence is compared by content and ages are taken at one fixed time.
- IngressValidation.AdditionalIngressValidationErrors: does not model the per-field checks of ValidateAdditionalIngresses, whose error is an input, nor the rendering of paths into text.
- Params.ParamsFile.ApplyParams: does not model the file system beyond one file that can be missing, unreadable because of a long line, or not replaceable.
- Anchors: the regular expressions are modelled by what they match on lines without line feeds.
- KubernetesValidationErrors, certificates, cluster-health collectors, pretty-printing, Kustomize rendering, server-side apply, uninstall order, leader election, caches, TLS, flags and logging: straight-line code or calls into libraries.
