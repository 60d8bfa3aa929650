# A verified model of the GPU operator's controller

The operator drives one custom resource, `Gpu` named "gpu": it checks that all GPU nodes run the same
supported operating system, installs or upgrades the NVIDIA GPU Operator chart with Helm, reports
conditions, and on deletion uninstalls everything unless GPU workloads are still active. This project
models that logic in Dafny and proves what holds of it in every run.

## How the model is built

| part | files |
|---|---|
| values tree, canonical JSON, UTF-8 and `valuesEqual` | `Text`, `Json`, `Utf8` |
| Helm values, as functions and as nested maps updated in place | `Values`, `ValuesHeap` |
| release store and the decisions on it, as functions and as a client with a mutable store | `Helm`, `HelmClient` |
| preflight and the node-event filter | `Detection` |
| conditions, partial status updates, the Ready summary | `Conditions` |
| driver DaemonSets, ClusterPolicy, GPU workloads | `Cluster` |
| choice of the embedded chart, with the in-place sort | `Chart` |
| reconciler, API server, caches, work queue as one transition system | `Machine` |
| the reconciler's methods as written, each completed call proved to be one step of `Machine` | `Reconciler` |
| what each call of the worker leaves behind, written out | `Outcomes` |
| theorems over all runs | `Lifecycle`, `Provenance`, `Wakeup`, `Reporting`, `FixedPoint`, `Installation`, `Deletion` |
| concrete runs | `Witnesses` |

In `Machine` a worker step is one API or Helm call. Between two calls any other event may happen:
users create, edit and delete CRs, nodes, pods and DaemonSets change, caches lag, timers fire, the
process restarts. Every call may fail, and every Helm action may be refused, fail early, fail late,
end unrecorded or be cut off by a crash. `Machine.Run` applies a finite sequence of events; the
theorems quantify over all of them.

Assumptions:

- There is one worker: no concurrency option is set (internal/controller/gpu_controller.go:610-623).
- Reads of an object never go backwards. A CR is a track of versions from the cached one to the
  server's, and an update succeeds only on the server's version.
- Only this controller writes the status, its finalizer and the release, so a CR is created without
  our finalizer.
- The status re-read inside `applyStatus` is current. This is an assumption of its own: the source
  reads through a cache (internal/controller/gpu_controller.go:404, cmd/main.go:183), which does not
  promise it. `Reporting.StaleRereadTearsReport` says exactly when an early report made on an older
  status tears a full one apart.
- Nodes, pods, DaemonSets and the ClusterPolicy are only read; the model holds the cache's copy.
  Listing them twice without a change gives the same order: reason texts name nodes and pods in list
  order, so the repeated verdict in `Wakeup` and the silence in `FixedPoint` rest on it.
- `SetStatusCondition` finds by type, updates in place, moves the transition time only when the
  status changes, and otherwise appends.
- Helm: a list shows a release by its newest revision; install needs an empty history, and returns no
  error when only the record of its end fails; upgrade
  refuses pending releases, keeps the newest revisions plus the last deployed one, and given no values
  takes over those of the revision it replaces; rollback goes one revision back and sets no limit;
  uninstall removes all records.
- Helm's records are kept in namespace gpu-operator (internal/helm/installer.go:33, 175-177), the one
  the deletion deletes (internal/controller/gpu_controller.go:350-354). Deleting it starts a
  termination that ends later, with all records, at any time; meanwhile nothing can be created in it.
  Only this controller creates and deletes it.
- Characters are Unicode scalar values. Go sorts map keys by bytes; in UTF-8 this is the order of
  code points used here.
- The chart and base values a process has embedded stay the same until it restarts.

## What the code does not keep

Each point comes with its exact condition or a counterexample.

- An uninstall that returns nil leaves nothing exactly when the release was absent, deployed or
  failed (`Helm.UninstallClears`): one that fails after marking the release makes the next one report
  success (`Helm.FailedUninstallIsForgotten`). Its records then go with the namespace:
  `Lifecycle.NoOrphan` holds in every run, and without such accidents
  `Lifecycle.GentleRunsLeaveNothing` needs no namespace to clean up.
- A call keeps the release recoverable exactly when its recovery action comes to a recorded end and,
  where it removes a pending install, does not fail halfway (`Helm.StaysRecoverable`).
- The int32 sums of the driver check can wrap (`Cluster.DriverReadyCanWrap`). All sane lists with a
  given total of desired nodes are judged exactly if and only if that total fits int32
  (`Cluster.ExactIffTotalFits`).
- An upgrade to no values at all does not reach them when there were some before: the exact condition
  is in `Helm.SelfHeals`, and it never arises here (`Values.BuiltNeverEmpty`).
- A node change is lost when the map function cannot list the CRs
  (`Wakeup.FailedListingLosesWakeup`, reached in the run of `Witnesses.WakeupIsLost`).
- Ready is not always the summary of the stored inputs: early exits write inputs without it. It is
  exactly while neither Preflight nor HelmInstalled is False and both are True or Ready is False
  (`Reporting.ReadyIsCurrent`); in the run of `Witnesses.ReadyIsOvertaken` Ready stays True over
  HelmInstalled False.
- Helm may report an install as done that it could not record as done; the next call recovers it
  (`Helm.UnchangedMeansDesired`).
- docs/contributor/architecture.md:55-56 and 119-122 describe a three-minute uninstall timeout and
  server-side apply. The code has neither; the model follows the code.

## Model

| member | source | states |
|---|---|---|
| `Json.PrintReadsBack` | internal/helm/installer.go:114-118 | two JSON texts that agree up to a delimiter come from values of the same meaning, and the rest of the input agrees: nesting, escapes and numbers are unambiguous |
| `Json.EscapeReadsBack` | internal/helm/installer.go:114 | an escaped string ends at its first unescaped quote and determines the original string |
| `Json.SameMeaningSamePrint` | internal/helm/installer.go:105-109 | values that differ only in int versus float64 print the same text |
| `Json.ValuesEqualDecides` | internal/helm/installer.go:110-123 | the comparison is true exactly when the two trees mean the same, nil counting as the empty map |
| `Json.ValuesEqualIsEquivalence` | internal/helm/installer.go:110-123 | it is reflexive, symmetric and transitive |
| `Json.ReloadedValuesStayEqual` | internal/helm/installer.go:105-109 | a config read back from the release store, its ints turned into floats, equals the one stored |
| `Utf8.EncodeIsInjective` | internal/helm/installer.go:122 | distinct texts have distinct bytes |
| `Utf8.BytesDecide` | internal/helm/installer.go:110-123 | the byte comparison itself decides equality of meaning |
| `Text.DecimalInjective` | internal/helm/values.go:41-43 | distinct integers print differently, negative ones included |
| `Values.ChangeDetection` | internal/helm/values.go:60-154 | for one OS and any base values, the built values of two specs are equal exactly when effective driver version and effective plugin config agree |
| `Values.ChangeDetectionByReplicas` | internal/helm/values.go:60-154 | with no plugin config in the base: exactly when effective versions and optional replica counts agree, over all int32 counts |
| `Values.DefaultEqualsItsOverride` | internal/helm/values.go:93-132 | overriding the version with the base's own default, even one written as a bare number, changes nothing |
| `Values.ConfigMapNamesDiffer` | internal/helm/values.go:30-43 | the name is the prefix and the count, empty without time slicing, and different counts give different names |
| `ValuesHeap.NormalizeDriverVersion` | internal/helm/values.go:95-103 | on the shared nested maps: the tree becomes its normalised form, no map is added |
| `ValuesHeap.ApplySpecOverrides` | internal/helm/values.go:107-123 | the tree gains exactly the driver overrides, other keys and maps untouched |
| `ValuesHeap.ApplyTimeSlicingValues` | internal/helm/values.go:138-154 | the tree gains exactly the device plugin config, or nothing without time slicing |
| `ValuesHeap.BuildValuesInPlace` | internal/helm/values.go:60-75 | the maps built in place stand for the values of the specification on which change detection is proved; an error exactly if the base is needed and missing |
| `Helm.SelfHeals` | internal/helm/installer.go:54-103 | from absent, deployed, failed, pending-install or pending-upgrade, one fault-free call ends with the newest revision deployed, of the chart wanted and with values that mean those wanted, exactly unless no values are wanted and an upgrade takes over old ones; then a second call changes nothing and returns false |
| `Helm.DesiredIsSkipped` | internal/helm/installer.go:81-103 | a fault-free call leaves the release alone exactly if it is deployed, of the chart and the values wanted; a failed one is upgraded again |
| `Helm.RecoveryRestores` | internal/helm/installer.go:186-214 | recovery brings back the revision below a pending upgrade, keeping all others, and removes a pending install |
| `Helm.UnchangedMeansDesired` | internal/helm/installer.go:81-88 | whatever fails, false is returned only with the newest revision deployed as wanted, which it was before unless it had to be recovered; and so is true for any non-empty values unless an install could not be recorded, which leaves it pending |
| `Helm.StaysRecoverable` | internal/helm/installer.go:186-214 | through failures and crashes the newest status stays recoverable exactly when the recovery action does not derail |
| `Helm.ChurnIsExact` | internal/helm/installer.go:54-103 | from no release, any number of fault-free calls with non-empty values makes one Helm action plus exactly one per change of desired chart or values |
| `Values.BuiltNeverEmpty` | internal/helm/values.go:107-123 | the values built are never empty |
| `Values.UbuntuValues` | internal/helm/values.go:60-154 | on Ubuntu the values are exactly the driver section with image, switch and override, and with replicas the plugin configuration, both written out |
| `Values.GardenLinuxValues` | internal/helm/values.go:60-154 | on Garden Linux every key and field of the embedded base stays, except the driver version and the plugin configuration where the spec asks for them; a numeric version becomes its decimal text |
| `Values.TimeSlicingTellsReplicas` | internal/helm/values.go:138-154 | the replica count can be read back from the configuration |
| `Helm.HistoryStaysBounded` | internal/helm/installer.go:244-258 | at most three revisions, a fourth only after a recovery rollback, through any failure |
| `Helm.InstallOrUpgradeKeepsShape` | internal/helm/installer.go:54-89 | revision numbers ascend, and a pending upgrade always has its predecessor to roll back to |
| `Helm.PruneShape` | internal/helm/installer.go:244-258 | retention leaves at most two revisions before the new one and never drops the newest |
| `Helm.UninstallClears` | internal/helm/installer.go:131-151 | after a nil return nothing deployed or failed is left, and nothing at all exactly if the release was absent or listed |
| `Helm.FailedUninstallIsForgotten` | internal/helm/installer.go:137-143 | an uninstall that failed halfway makes the next one succeed without removing anything |
| `HelmClient.Client.List` | internal/helm/installer.go:186-192 | a filtered list shows each release once, by its newest revision, and all of those |
| `HelmClient.Client.RecoverPending` | internal/helm/installer.go:186-214 | the loop over listed releases does to ours what the specification says and leaves all others alone |
| `HelmClient.Client.FindCurrent` | internal/helm/installer.go:217-230 | finds our release among all listed ones exactly if it is deployed or failed |
| `HelmClient.Client.Apply` | internal/helm/installer.go:54-89 | the store and the outcome are those of the specification the lemmas above are about; other releases are untouched |
| `HelmClient.Client.Remove` | internal/helm/installer.go:131-151 | the same for Uninstall |
| `Detection.FilterGpuNodes` | internal/detection/preflight.go:120-128 | returns the GPU nodes themselves, all of them, in order |
| `Detection.CollectOs` | internal/detection/preflight.go:80-89 | the set of systems that occur and the list of unsupported nodes |
| `Detection.RunPreflight` | internal/detection/preflight.go:65-117 | the loops compute the specified verdict; a listing error is an error |
| `Detection.DetectMeans` | internal/detection/preflight.go:130-142 | for every OS image name: Garden Linux if its name occurs in any casing, else Ubuntu if that does, else none |
| `Detection.DetectsAnywhere` | internal/detection/preflight.go:130-142 | in particular wherever in the text the name stands |
| `Detection.IsGpuNodeMeans` | internal/detection/machinetypes.go:24-49 | a GPU node is one whose instance type starts with one of the four prefixes |
| `Detection.PreflightMeans` | internal/detection/preflight.go:65-117 | in terms of instance types and image names: Warn exactly without GPU nodes, Proceed(os) exactly if there are some and all show os, Stop exactly otherwise |
| `Detection.StopSays` | internal/detection/preflight.go:91-107 | a stop names exactly the GPU nodes that show neither system, or else says the systems are mixed |
| `Detection.PreflightIgnoresOrder` | internal/detection/preflight.go:65-117 | outcome and system do not depend on node order or on other nodes |
| `Detection.FiresExactly` | internal/controller/gpu_controller.go:629-655 | the filter passes a node event exactly if it changes what preflight sees of the nodes |
| `Detection.SilentEventsKeepPreflight` | internal/controller/gpu_controller.go:629-655 | so does any sequence of rejected creates, deletes and updates: outcome, system and reason text |
| `Conditions.SummaryIsMinimum` | internal/controller/conditions.go:48-93 | the two passes compute the minimum under False < Unknown or absent < True, with the first witness in dependency order |
| `Conditions.RaisingNeverLowers` | internal/controller/conditions.go:48-93 | raising any input never lowers Ready |
| `Conditions.SummaryIgnoresOrder` | internal/controller/conditions.go:48-93 | only the four managed conditions matter, in any order |
| `Conditions.FindAfterMerge` | internal/controller/gpu_controller.go:409-422 | every condition after an update: unlisted ones untouched, listed ones as reported with the transition time kept exactly if the status is |
| `Conditions.MergeTwice` | internal/controller/gpu_controller.go:424-426 | the same update again, at any later time, changes nothing, so no patch is issued |
| `Conditions.UpdatesKeepInvariant` | internal/controller/gpu_controller.go:409-430 | over any sequence of updates: types unique, none lost, generations never decrease or exceed the object's, transition times move exactly with the status |
| `Cluster.CheckDriverDaemonSet` | internal/controller/gpu_controller.go:441-484 | the accumulating loop with int32 sums computes the specified check |
| `Cluster.DriverReadyIsExact` | internal/controller/gpu_controller.go:454-483 | with sane counters and a total that fits int32: True exactly when some node is desired and every DaemonSet is complete |
| `Cluster.ExactIffTotalFits` | internal/controller/gpu_controller.go:454-483 | for every total of desired nodes: all sane lists with that total are judged exactly if and only if it fits int32 |
| `Cluster.DriverReadyCanWrap` | internal/controller/gpu_controller.go:454-483 | a concrete sane list beyond that bound is reported True with unready nodes |
| `Cluster.DriverCheckIgnoresOrder` | internal/controller/gpu_controller.go:441-484 | status, message, counts and version do not depend on list order |
| `Cluster.ReportedVersionIsCommon` | internal/controller/gpu_controller.go:462-469 | the version reported is the one all DaemonSets give, none if they differ |
| `Cluster.DriverCheckTells` | internal/controller/gpu_controller.go:450-483 | within the int32 bound: status, reason, message with its counts and ready nodes in every case |
| `Cluster.FailedListTells` | internal/controller/gpu_controller.go:443-449 | a failed list is a read error and clears what was known |
| `Cluster.PolicyTells` | internal/controller/gpu_controller.go:491-513 | True exactly for "ready", False exactly for a failed read, Waiting exactly when absent or ignored, else Progressing |
| `Cluster.DriverVersionOtherwise` | internal/controller/gpu_controller.go:519-534 | no version without image or tag; a tag without a dash is the version |
| `Cluster.DriverVersionReadsBack` | internal/controller/gpu_controller.go:519-534 | the version is read back from any image tag put together as version-os |
| `Cluster.DetectActiveWorkloads` | internal/controller/gpu_controller.go:545-568 | the loop computes the specified list |
| `Cluster.ActiveMeans` | internal/controller/gpu_controller.go:545-587 | active means outside gpu-operator, running or pending, not terminating, with a resource limit starting nvidia.com/gpu in some container or init container |
| `Cluster.WorkloadsAreExact` | internal/controller/gpu_controller.go:545-587 | the list is exactly, in order, the pods that are so |
| `Cluster.NothingActiveMeansNone` | internal/controller/gpu_controller.go:545-568 | it is empty exactly if there are none, and every one is in it |
| `Chart.CompareMeansPrecedence` | internal/chart/embed.go:94-96 | for all versions the comparison is the precedence of section 11 of Semantic Versioning 2.0.0: the numbers in order, a release above its pre-releases, those by their first different identifier |
| `Chart.PrecedenceIsTotalOrder` | internal/chart/embed.go:94-96 | it is total, transitive and antisymmetric |
| `Chart.PrecedenceExamples` | internal/chart/embed.go:94-96 | it orders the whole chain of examples given there |
| `Chart.VersionReadsBack` | internal/chart/embed.go:101-105 | the version is read back from any file name gpu-operator-VERSION.tgz, and from VERSION.tgz without the prefix |
| `Chart.SortNewestFirst` | internal/chart/embed.go:94-96 | the in-place sort yields the specified sequence of the same entries |
| `Chart.LatestChartFilename` | internal/chart/embed.go:66-99 | collecting and sorting computes the specified choice; an error exactly without candidates |
| `Chart.LatestChartIsMaximal` | internal/chart/embed.go:66-99 | the chosen file is a .tgz file whose version parses, and none has higher precedence; none is chosen only if there is none |
| `Chart.LatestVersionIgnoresOrder` | internal/chart/embed.go:66-99 | in any directory order the choice has the same precedence |
| `Chart.CallersAgree` | internal/chart/embed.go:36-64 | the bytes installed and the version reported come from the same file |
| `Reconciler.MergedStatus` | internal/controller/gpu_controller.go:407-422 | setting the conditions one by one gives the merged status of the specification |
| `Reconciler.Operator.ApplyStatus` | internal/controller/gpu_controller.go:402-431 | the new cluster state is the machine's: a patch exactly if the status changes |
| `Reconciler.Operator.Reconcile` | internal/controller/gpu_controller.go:121-198 | under any interference, the branches taken and the calls made are a run of the machine without a restart in between, and the result says what is queued |
| `Reconciler.Operator.CheckPreflight` | internal/controller/gpu_controller.go:206-246 | a system is handed on exactly at the deploy stage; otherwise the verdict was reported and the worker is done |
| `Reconciler.Operator.InstallOrUpgrade` | internal/controller/gpu_controller.go:252-294 | chart, values and Helm calls are the machine's deploy step, crash included; a failure reports itself and is retried |
| `Reconciler.Operator.ReconcileDelete` | internal/controller/gpu_controller.go:296-355 | the guarded uninstall is a run of the machine |
| `Reconciler.Operator.Guard` | internal/controller/gpu_controller.go:325-345 | a successful list blocks the deletion exactly if it holds an active workload, with all of them reported; a failed list does not block |
| `Reconciler.Operator.RemoveFinalizer` | internal/controller/gpu_controller.go:368-381 | the re-read version is the one updated, and a stale one is refused and retried |
| `Reconciler.Operator.Serve` | internal/controller/gpu_controller.go:121-198 | whenever a reconcile returns, a visible release belongs to an existing CR with our finalizer and the status is consistent |
| `Outcomes.FetchTells` | internal/controller/gpu_controller.go:124-163 | which way the first read sends the reconcile, case by case |
| `Outcomes.AdoptionTells` | internal/controller/gpu_controller.go:153-163 | the finalizer is added to the version read, if current, and to nothing else |
| `Outcomes.HaltTells` | internal/controller/gpu_controller.go:214-237 | a hard verdict is stored as Preflight False/Failed with its reason and not requeued, a warning as Unknown/Waiting and requeued |
| `Outcomes.DeployLeavesWanted` | internal/controller/gpu_controller.go:252-294 | a deploy that goes on to the report leaves the release deployed with the embedded chart and values that mean those built for spec and system, or an install that could not be recorded |
| `Outcomes.HelmFailureTells` | internal/controller/gpu_controller.go:265-277 | a failed Helm call is stored as HelmInstalled False/Failed with its error beside Preflight True, and retried |
| `Outcomes.PublishTells` | internal/controller/gpu_controller.go:172-198 | a successful publish stores the four conditions, version and driver block exactly as found, Ready summing them up, and looks again later |
| `Outcomes.ReportTellsWhatWasRead` | internal/controller/gpu_controller.go:166-188 | in every run, what a report tells is what its own reconcile deployed and read from DaemonSets and ClusterPolicy |
| `Outcomes.AnnouncementTells` | internal/controller/gpu_controller.go:314-323 | a deletion is stored as HelmInstalled Unknown/Uninstalling and goes on |
| `Outcomes.GuardTells` | internal/controller/gpu_controller.go:325-341 | the uninstall goes on exactly if the pods could not be listed or none would lose a GPU; otherwise all that would are named |
| `Outcomes.BlockTells` | internal/controller/gpu_controller.go:329-340 | a blocked deletion is stored with the pods that block it and requeued |
| `Outcomes.ReleaseTells` | internal/controller/gpu_controller.go:305-311 | our finalizer is taken off the version read, if current; a deleting CR nobody else holds disappears |
| `Outcomes.CheckTells` | internal/controller/gpu_controller.go:206-246 | preflight leads to a deploy on the system it found, or to its verdict |
| `Outcomes.FailureIsRetried` | internal/controller/gpu_controller.go:206-246 | a failed list, report, read or namespace delete writes nothing and is retried, a report also when the CR is gone |
| `Outcomes.LoadFailureIsRetried` | internal/controller/gpu_controller.go:252-264 | a chart or base that cannot be loaded is retried without calling Helm |
| `Outcomes.RemovalTells` | internal/controller/gpu_controller.go:345-354 | an uninstall without error leaves nothing visible and leads to the namespace, an error is retried |
| `Outcomes.RogueTells` | internal/controller/gpu_controller.go:137-149 | a CR of another name is stored as Ready False/ForbiddenName, and nothing else is done |
| `Lifecycle.StepKeepsSound` | internal/controller/gpu_controller.go:121-381 | every event keeps the invariant on CR versions, worker position and release |
| `Lifecycle.NoVisibleOrphan` | internal/controller/gpu_controller.go:296-381 | in every run a deployed or failed release exists only while CR "gpu" exists with our finalizer |
| `Lifecycle.NoOrphan` | internal/controller/gpu_controller.go:296-381 | in every run, whatever fails, stops halfway or is cut off, a release of any status exists only while CR "gpu" holds our finalizer or the namespace is being deleted with its records |
| `Lifecycle.GentleRunsLeaveNothing` | internal/controller/gpu_controller.go:296-381 | without cut-off calls and half-done uninstalls, only while CR "gpu" holds our finalizer |
| `Lifecycle.StepKeepsHouse` | internal/controller/gpu_controller.go:350-366 | every event keeps the invariant on namespace, records and finalizer behind it |
| `Provenance.UninstallIsGuarded` | internal/controller/gpu_controller.go:325-349 | every Uninstall follows, in its own reconcile, a pod list that failed or held no active GPU pod |
| `Provenance.FinalizerDropIsEarned` | internal/controller/gpu_controller.go:345-354 | every finalizer removal follows, in its own reconcile, an Uninstall that returned nil and then a successful namespace delete |
| `Provenance.DeployUsesCheckedOs` | internal/controller/gpu_controller.go:166-175 | every install or upgrade uses the system a preflight of the same reconcile found on all GPU nodes |
| `Provenance.CallsServeTheirRequest` | internal/controller/gpu_controller.go:137-149 | in every run, every call belongs to a reconcile begun by a request for the CR it is about; install, upgrade, uninstall and namespace deletion only by one for "gpu" |
| `Wakeup.StepKeepsVigilant` | internal/controller/gpu_controller.go:594-624 | every event keeps the invariant behind the next row |
| `Wakeup.NoLostWakeup` | internal/controller/gpu_controller.go:121-246 | while CR "gpu" exists, a reconcile is coming, or the last one stopped on a preflight error that still stands, or the CR is being deleted without our finalizer |
| `Wakeup.FailedListingLosesWakeup` | internal/controller/gpu_controller.go:596-601 | if the map function cannot list, a relevant node change is lost |
| `Witnesses.WakeupIsLost` | internal/controller/gpu_controller.go:596-601 | a run of a fresh cluster in which a reimaged node is never looked at |
| `Reporting.StatusIsConsistent` | internal/controller/gpu_controller.go:172-188 | in every reachable state: unique types, generations bounded, the full report all there or all missing, Ready equal to the summary at the last full report and False only after a read error |
| `Reporting.ReadyCites` | internal/controller/conditions.go:48-93 | at a full report Ready is True exactly if driver and validator are, and otherwise cites one of them, never Preflight or HelmInstalled |
| `Reporting.FullReportStays` | internal/controller/gpu_controller.go:181-186 | once made, no part of a full report vanishes while the CR exists |
| `Reporting.ReadyIsCurrent` | internal/controller/gpu_controller.go:210-234 | in every reachable state a stored Ready says what the stored conditions summarise to if and only if neither Preflight nor HelmInstalled is False, and both are True or Ready is False |
| `Witnesses.ReadyIsOvertaken` | internal/controller/gpu_controller.go:265-275 | a run of a fresh cluster after which Ready is True over HelmInstalled False |
| `Reporting.StaleRereadTearsReport` | internal/controller/gpu_controller.go:402-430 | an early report made on an older status keeps the full report whole exactly if it changes nothing or the older status has Ready exactly if the stored one does |
| `FixedPoint.RunsKeepHistoryShape` | internal/helm/installer.go:186-258 | in every run of the whole machine the release history is well formed and bounded |
| `FixedPoint.AtMostTwoReconcilesWrite` | internal/controller/gpu_controller.go:402-431 | with nothing changing and nothing failing, after two reconciles that wrote the CR, the release or the namespace no step ever writes again |
| `FixedPoint.ReportedIsFixed` | internal/controller/gpu_controller.go:402-431 | from any reachable rest, one quiet reconcile of the live CR that reports is the last that writes |
| `Installation.InstallationCompletes` | internal/controller/gpu_controller.go:166-198 | from any reachable rest with an adopted CR, a supported system and a loading chart, in every run without changes or failures six calls leave for good: the newest revision deployed, of the chart and values wanted; the full report stored; DriverReady True exactly if nodes are desired and every DaemonSet complete (sane counters within int32), ValidatorPassed exactly if the policy is "ready" |
| `Deletion.BlockedDeletionTouchesNothing` | internal/controller/gpu_controller.go:325-341 | as long as every pod list finds an active GPU pod, whatever else happens or fails, release, namespace and finalizer stay; only a termination under way before may end |
| `Deletion.DeletionCompletes` | internal/controller/gpu_controller.go:296-355 | with no active pod, a current cache and the announcement made, every run without failures starts with a reconcile that completes the deletion within seven calls: finalizer and CR gone, namespace and records gone or going |
| `Deletion.DeletionConverges` | internal/controller/gpu_controller.go:296-381 | in general such a reconcile completes the deletion or leaves nothing but the finalizer, the announcement made and another reconcile coming |
| `Deletion.SecondReadDecides` | internal/controller/gpu_controller.go:368-381 | as long as the finalizer is there, such a reconcile completes the deletion exactly when its second read finds the cache caught up |

## Left out

- Helm's template rendering, hooks and waiting: only status, revision, chart version and config of a release matter here.
- Superseded or unknown newest revisions, pending-rollback and uninstalling as starting points of recovery: the code does not recover them, they only occur as results.
- While a namespace terminates its records vanish one by one; in the model they vanish together at the end. Nobody else creates or deletes the namespace.
- `InstalledVersion`, `actionConfig`, `loadChart` and the REST client getter: adapters; a failure of the first calls is part of the model.
- `Reconciler.Operator.ApplyStatus`: the status re-read is taken to see the server's object, not an older one from the cache.
- `Reporting.StatusIsConsistent`: rests on that assumption of a current re-read.
- `Reporting.FullReportStays`: rests on it too.
- `Reporting.ReadyIsCurrent`: rests on it too.
- `Json.ValuesEqualDecides`: non-integral floats, integers beyond 2^53 and marshal errors are not modelled; such values do not occur in the values built here.
- `Chart.PrecedenceIsTotalOrder`: the semver parser is a parameter, and precedence is on parsed versions; the lenient forms the library accepts are its business.
- `Chart.SortNewestFirst`: an insertion sort, which is what sort.Slice does up to twelve elements; for more, ties may be ordered differently.
- The version in a chart archive's metadata is taken to be the one in its file name.
- Condition types, reasons and messages are enumerations with arguments; the wording is left out, and a message is a fixed function of its arguments.
- `Wakeup.NoLostWakeup`: the DaemonSet watch only adds wakeups, so its filter is an arbitrary choice; the periodic requeue is what the theorem rests on.
- `Reconciler.Operator.Interlude`: a restart ends a reconcile, so restarts between its calls are covered by the machine's runs and not by the methods.
- CRs of other names beyond their status, finalizer and effect on the queue.
- Process wiring, flags, TLS, metrics, leader election, generated code, manifests and documentation.
