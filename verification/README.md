# Verified model of the sandboxed containers operator

The operator installs and removes Kata containers on the nodes of an OpenShift cluster. A
`KataConfig` object tells it which nodes. It reconciles in small passes: a pass reads the
cluster, edits node labels one node at a time, writes a status, and then waits for somebody
else, either the Machine Config Operator (MCO) or a per-node install script. Passes can stop
anywhere. What has to hold are properties of whole runs, and these are what this project
proves.

| module | models |
|---|---|
| `Labels` | nodes, label selectors, and the node-by-node label edits |
| `History` | what passes did, in order, and the history properties to keep |
| `Reconciler` | the four passes (install and delete, in MachineConfig and DaemonSet mode), steps and runs |
| `Operator` | the same passes as the object the source has, proved equal to `Reconciler` |
| `OneWayDoor`, `McoWait`, `DaemonSetUninstall`, `DaemonSetInstall` | the theorems about runs of the reconciler |
| `PassEffects` | what each pass leaves in the object, its condition and its wait flag |
| `Wakeups` | which watch events queue a reconcile |
| `NodeStatus`, `Sorting` | the node status lists and the installation-success metric |
| `ConsolePlugin` | optimistic concurrency on the Console configuration |
| `ImageJobs` | the pod-VM image job runner |
| `RuntimeClasses` | the RuntimeClass finalizer and `Status.RuntimeClasses` |
| `Credentials` | who may touch the peer-pods secret |
| `JobHistory`, `EarlyStopping` | the paginated build-history fetch, and when stopping early loses nothing |
| `KeyHash` | the hash input and the slot search of the Secure Execution header parser |
| `Options`, `Selections` | shared definitions: optional values, in-order selections from a list |

`dafny verify dfyconfig.toml` checks the whole project.

## How the environment is modelled

Everything a reconcile pass reads from outside, and every call of it that the model has, is an input
(`Env`), and the theorems range over all inputs: every answer of the MCO's pools, every failing
node write, every sequence of passes and edits by others. A reconcile pass reads the current
KataConfig status and node list, and nobody else writes while it runs; a status read from a cache
that lags behind is not covered. The models of the console configuration, the image jobs, the
RuntimeClass controller and the secret do have others acting between any two calls of an
operation, and the console and RuntimeClass models have stale reads too. The clock, requeue
delays and logging do not appear.

The wait for the MCO is proved under a failure model that is stated as predicates and is exact.
Node writes may fail at any node of any pass. A pass must not *forget* (`ForgetsRemoval`,
`ForgetsChange`): it must not complete the label work, miss the pool's update, and then fail to
persist the wait flag because of an early error return or a failed status write. `McoWait` shows
that the guard behind the proof survives a pass exactly when the pass does not forget, and that
forgetting leads to the finalizer being removed, or the runtime classes being published, too
early. Besides, while an unanswered label change is remembered only by label work that is still
outstanding, nobody else may end that work, for example by removing the last node to unlabel
from the cluster (`Careful`); that clause is exact and fatal if broken in the same way
(`EditKeepsGuardsExactlyWhen`, `LosingRemovalWorkIsFatal`, `LosingLabelWorkIsFatal`).

## Where the source does not keep what one would expect

Each of these is stated by the lemmas named: as the exact condition under which the code does
keep it, as a concrete instance where it does not, or both.

- A pool read that fails passes for idle: the finalizer can be removed, or the runtime classes
  published, on a failed read (`UnreadablePoolRemovesFinalizer`, `UnreadablePoolPublishes`; exact
  over runs in `ActsIdleExactlyWhen`).
- A pool selector that the kata-oc label itself can break makes labelling oscillate
  (`SelfReferringSelectorOscillates`; exact in `LabellingConvergesExactlyWhen`).
- A kata-oc label edited by somebody else queues no reconcile (`UpdateWakesExactlyWhen`), nor does
  a node that becomes a worker while it matched before (`BecomingWorkerWakesExactlyWhen`), nor the
  creation of a pool, on which a comment in the install pass counts
  (`PoolCreationWakesExactlyWhen`), nor its deletion (`PoolDeletionWakesExactlyWhen`).
- The success metric is fooled by enough kata-oc labels with a value of their own
  (`MetricTrustworthyExactlyWhen`).
- A page that only repeats builds, or times out of order, make the history fetch lose builds
  (`RepeatedPageHidesOlderBuilds`, `UnorderedTimesHideBuilds`; exact in
  `EarlyStoppingRefinesExactlyWhen`), and so does a negative limit (`LimitRefinesExactlyWhen`),
  which the doc comment does not exclude.
- "Image deleted" is reported on a ConfigMap that could not be read (`UnreadableConfigMapMisleads`), and
  an answer can be wrong if a job of the other kind is alive (exact in `TruthfulExactlyWhen`). A true
  one does not last if such a job is still alive (`SuccessIsFinalExactlyWhen`).
- The comments of `enablePeerPods` and `deletePodVMImage` list a status-unknown answer; the two
  calls never give it (`GoesOnExactlyWhen`).
- In DaemonSet mode nodes are labelled before the finalizer is on, so a deletion at that moment leaves
  the labels behind (`DaemonSetLabelsUnguardedExactlyWhen`); in MachineConfig mode it cannot
  (`LabelledNodesHoldTheObject`).
- A class that was already gone keeps its name in `Status.RuntimeClasses` (`NameLeavesExactlyWhen`).
- A user's secret created between the operator's check and its write is lost
  (`UserSecretSurvivesExactlyWhen`).
- Padding to size 0 returns the whole number (`BinPadExactlyWhen`). For key sizes divisible by 8
  the first byte of y is taken for the last byte of x (`SplitRecoversExactlyWhen`).

## Model

| member | source | states |
|---|---|---|
| `Labels.Reach` | controllers/openshift_controller.go:1956-2002 | where a label loop stops: at the first node whose write is attempted and fails, with every write before it succeeding |
| `Labels.SweepAt` | controllers/openshift_controller.go:1956-2002 | after a label loop the nodes before that point are done, that node and all later ones are untouched, and the loop failed exactly when the point is inside the list |
| `Labels.SweepFails` | controllers/openshift_controller.go:2004-2027 | a label loop fails exactly when it attempts a failing write, and a failure leaves work behind |
| `Labels.SweepChanges` | controllers/openshift_controller.go:1956-2002 | a change is reported only if there was work, and always if there was work and no write failed |
| `Labels.SweepNoOp` | controllers/openshift_controller.go:1956-2002 | with nothing to do a label loop changes nothing, reports nothing and cannot fail |
| `Labels.SweepReport` | controllers/openshift_controller.go:1956-2002 | failure, reported change and remaining work of one loop, related both ways |
| `Labels.SweepShrinks` | controllers/openshift_controller.go:2004-2027 | with settling edits the number of nodes left to write never grows, and falls whenever a node was written, also in interrupted loops |
| `Labels.DropDone` | controllers/openshift_controller.go:2004-2027 | a completed unlabelling leaves no selected node labelled |
| `Labels.SyncDone` | controllers/openshift_controller.go:1956-2002 | a completed labelling leaves nothing to label, for stable selectors |
| `Labels.LabellingConverges` | controllers/openshift_controller.go:1956-2002 | for stable selectors: label presence equals selector match on every worker, a change is reported exactly when a worker was out of date, and a second pass is a no-op |
| `Labels.LabellingConvergesExactlyWhen` | controllers/openshift_controller.go:1956-2002 | every completed pass over every node list leaves nothing to do exactly when a matching worker without the label still matches with it, whatever its value |
| `Labels.UnstableOscillates` | controllers/openshift_controller.go:1956-2002 | any worker that stops matching because of its label loses it and then needs it again |
| `Labels.StableSelectors` | controllers/openshift_controller.go:1136-1163 | a selector without a DoesNotExist or a non-empty NotIn on the label is stable |
| `Labels.InterruptedLabelling` | controllers/openshift_controller.go:1956-2002 | an interrupted pass leaves the failing worker stale and everything after it untouched, and never adds stale workers |
| `Labels.SweepFrame` | controllers/openshift_controller.go:1956-2002 | number, order, names, annotations and all other labels of the nodes are kept |
| `Labels.RequirementLaws` | controllers/openshift_controller.go:1159-1163 | the four selector requirements on present, missing and set keys |
| `Labels.LabelsAfter` | controllers/openshift_controller.go:1956-2027 | the labels of every node after each of the four loops: which key is set to what or removed on which nodes |
| `Labels.MarkReadsExactlyWhen` | controllers/utils.go:327-352 | marking the nodes with one state makes the kata pool read as in another exactly when no kata node was marked and all were in it before |
| `Labels.MatchesIgnores` | controllers/openshift_controller.go:1751-1763 | a selector's answer does not depend on a key it does not mention |
| `Labels.SelfReferringSelectorOscillates` | controllers/openshift_controller.go:1956-2002 | a selector on the kata-oc key makes a worker gain and lose the label for ever |
| `Labels.KataPoolContents` | controllers/openshift_controller.go:1942-1954 | the kata pool is exactly the nodes whose label has the empty value |
| `History.ViewSound` | controllers/openshift_controller.go:1254-1288 | the running summary of a history says exactly whether a change is still owed an update, whether the last read of the pool said other than updating, and whether every act waited |
| `History.ActsIdleSound` | controllers/openshift_controller.go:1188-1196 | the running summary says exactly whether every act follows a read that showed its pool idle |
| `History.PathSound` | controllers/openshift_controller.go:209-213 | the running summary says exactly whether an install pass follows a delete pass |
| `OneWayDoor.StepShuts` | controllers/openshift_controller.go:213-250 | no step, in either mode and whatever fails, reopens the install path after a delete pass |
| `OneWayDoor.UninstallIsOneWay` | controllers/openshift_controller.go:209-250 | in every run, from any persisted status, no install pass comes after a delete pass |
| `PassEffects.PathTakenExactlyWhen` | controllers/openshift_controller.go:209-250 | a pass takes the delete path exactly when deletion was requested and the condition is not InProgress=True for Installing or Updating, and records that first |
| `OneWayDoor.DeleteMcShuts` | controllers/openshift_controller.go:1198-1352 | a MachineConfig delete pass never leaves an Installing or Updating condition |
| `OneWayDoor.DeleteDsShuts` | controllers/daemonset_reconcile.go:120-275 | the same for a DaemonSet delete pass, with any condition the image deletion sets |
| `OneWayDoor.InstallMcShuts` | controllers/openshift_controller.go:1357-1529 | an install pass is only taken while no delete pass was |
| `OneWayDoor.InstallDsShuts` | controllers/daemonset_reconcile.go:277-412 | the same in DaemonSet mode |
| `McoWait.DeleteKeepsGuard` | controllers/openshift_controller.go:1215-1288 | "removed but not yet seen" stays covered by the wait flag or a node still labelled, exactly when the pass does not forget |
| `McoWait.DeleteWaits` | controllers/openshift_controller.go:1254-1352 | behind that guard a delete pass removes the finalizer only after the worker pool was seen updating and then no longer |
| `McoWait.DeletePublishesNothing` | controllers/openshift_controller.go:1198-1352 | a delete pass publishes no runtime class |
| `McoWait.InstallKeepsGuard` | controllers/openshift_controller.go:1433-1505 | a label change not yet seen stays covered by the flag or a worker still out of date, if the pass does not forget |
| `McoWait.ForgettingBreaksGuard` | controllers/openshift_controller.go:1433-1505 | and only if it does not, for stable selectors |
| `McoWait.InstallWaits` | controllers/openshift_controller.go:1474-1519 | behind that guard an install pass publishes only after the kata-oc pool was seen updating since the last label change and then no longer, even if its two pool reads differ |
| `McoWait.InstallRemovesNothing` | controllers/openshift_controller.go:1357-1529 | an install pass neither removes labels on behalf of uninstall nor the finalizer |
| `McoWait.RunGuarded` | controllers/openshift_controller.go:1198-1529 | the invariant of all careful runs, through any number of interrupted passes |
| `McoWait.NeverOutrunsMco` | controllers/openshift_controller.go:1215-1352 | over every careful run: at finalizer removal and at publication every earlier label change was followed by a read that showed the pool updating, and the last read says other than updating; it says idle exactly when no pass acts on a failed read |
| `McoWait.ActsIdleExactlyWhen` | controllers/openshift_controller.go:1188-1196 | over every run in both modes: each act follows a read that showed its pool idle exactly when no pass with all its guards open has its deciding read failed |
| `McoWait.RemovedExactlyWhen` | controllers/openshift_controller.go:1215-1352 | a delete pass removes the finalizer exactly when its guards hold, and right after an idle read exactly when that read did not fail |
| `McoWait.PublishedIdleExactlyWhen` | controllers/openshift_controller.go:1433-1519 | the same for publication and the second pool read |
| `McoWait.UnreadablePoolRemovesFinalizer` | controllers/openshift_controller.go:1191-1194 | from any state with nothing to unlabel and no wait pending, failed pool reads lead to the removal |
| `McoWait.UnreadablePoolPublishes` | controllers/openshift_controller.go:1191-1194 | likewise to publication |
| `McoWait.EditKeepsGuardsExactlyWhen` | controllers/openshift_controller.go:1215-1288 | an edit by others keeps both guards exactly when it leaves outstanding label work that is needed as a reminder |
| `McoWait.LosingRemovalWorkIsFatal` | controllers/openshift_controller.go:1217-1288 | an edit that ends such removal work makes the next clear pass remove the finalizer without the wait |
| `McoWait.LosingLabelWorkIsFatal` | controllers/openshift_controller.go:1433-1505 | an edit that ends such labelling work makes it publish without the wait |
| `McoWait.ForgettingRemovalIsFatal` | controllers/openshift_controller.go:1229-1242 | from any state, a pass that forgets a removal followed by one clear pass removes the finalizer without the wait |
| `McoWait.ForgettingChangeIsFatal` | controllers/openshift_controller.go:1453-1470 | from any state, a pass that forgets a label change followed by one clear pass publishes without the wait |
| `McoWait.UninstallFinishes` | controllers/openshift_controller.go:1198-1352 | two clear delete passes, one that sees the pool updating and one that sees it idle, complete the uninstall |
| `PassEffects.FinishedInstallCanBeDeleted` | controllers/openshift_controller.go:2512-2573 | after a finished installation a deletion request leads to the delete path |
| `PassEffects.UnfinishedInstallHoldsDeletion` | controllers/openshift_controller.go:1423-1432 | after an installation has begun and is not finished it does not, unless a node is degraded |
| `PassEffects.UpdateHoldsDeletion` | controllers/openshift_controller.go:1477-1482 | nor while the pool of a finished installation is updating again |
| `PassEffects.InstallFrame` | controllers/openshift_controller.go:1400-1421 | an install pass puts the finalizer on once it is past its checks, and touches nothing else before |
| `PassEffects.InstallLeaves` | controllers/openshift_controller.go:1423-1529 | the condition and wait flag an install pass leaves if it does not publish, for all it may meet |
| `PassEffects.PublicationLeaves` | controllers/openshift_controller.go:2512-2573 | and if it does: reset, image job running, or unchanged on an error |
| `PassEffects.DeleteLeaves` | controllers/openshift_controller.go:1198-1352 | the same for a delete pass; kata pods block it without any change but the condition |
| `PassEffects.LabelledNodesHoldTheObject` | controllers/openshift_controller.go:1408-1441 | in every run, once a MachineConfig pass has labelled a node, a deletion request leaves the object for the delete passes |
| `PassEffects.DaemonSetLabelsUnguardedExactlyWhen` | controllers/daemonset_reconcile.go:294-322 | a DaemonSet pass leaves changed labels on an object that a deletion removes at once exactly when the object had no finalizer and a label write or a call up to the finalizer failed |
| `DaemonSetUninstall.FinalizerRemovedExactlyWhen` | controllers/daemonset_reconcile.go:198-272 | the finalizer goes exactly in a pass that found the uninstall DaemonSet there, every kata node uninstalled, and whose own writes all succeeded |
| `DaemonSetUninstall.FinalizerLeavesNoSelectedLabel` | controllers/daemonset_reconcile.go:253-268 | when the object goes, no selected node keeps the label |
| `DaemonSetUninstall.UnlabelKeepsUninstalled` | controllers/daemonset_reconcile.go:822-845 | a partly failed unlabelling still reads as uninstalled |
| `DaemonSetUninstall.UninstalledStays` | controllers/daemonset_reconcile.go:198-272 | no pass leaves the uninstalled state, a pass that looks never goes back to waiting, and each pass that wrote a node leaves strictly fewer |
| `DaemonSetUninstall.UninstallFinishes` | controllers/daemonset_reconcile.go:120-275 | more passes than labels left complete the uninstall, even if all but the last fail part-way |
| `DaemonSetInstall.PublishedExactlyWhen` | controllers/daemonset_reconcile.go:294-412 | a DaemonSet install pass publishes exactly when every call and label write up to there succeeds, the nodes can be read, and every node with kata-oc="" reads "installed" |
| `DaemonSetInstall.PublishedOnlyWhenInstalled` | controllers/daemonset_reconcile.go:383-409 | in every run a publishing reconcile leaves every kata node "installed" and the finalizer on |
| `DaemonSetInstall.InstallDsLeaves` | controllers/daemonset_reconcile.go:277-412 | what the pass leaves of object, DaemonSet and status, for all it may meet |
| `DaemonSetInstall.DeletionAfterInstall` | controllers/daemonset_reconcile.go:342-409 | a finished installation can be deleted, one just started cannot |
| `DaemonSetInstall.DeleteDsLeaves` | controllers/daemonset_reconcile.go:120-214 | kata pods block a delete pass; the pass that creates the uninstall DaemonSet marks the nodes and goes no further |
| `DaemonSetInstall.DeleteDsStatus` | controllers/daemonset_reconcile.go:120-218 | the condition a delete pass leaves, for all it may meet |
| `DaemonSetInstall.MarkedReadsUninstalledExactlyWhen` | controllers/daemonset_reconcile.go:174-195 | after that pass the pool reads as uninstalled exactly when no kata node was marked and all were before |
| `DaemonSetInstall.NeverUninstallsAlone` | controllers/daemonset_reconcile.go:174-214 | while nobody else writes the state labels, no number of delete passes removes an object with a kata node to uninstall |
| `DaemonSetInstall.NeverPublishesAlone` | controllers/daemonset_reconcile.go:342-409 | nor does any number of install passes publish with a kata node to install |
| `Operator.KataConfigReconciler.UpdateNodeLabels` | controllers/openshift_controller.go:1956-2002 | the loop refines the labelling sweep: nodes, reported change and error |
| `Operator.KataConfigReconciler.UnlabelNodes` | controllers/openshift_controller.go:2004-2027 | the loop refines the unlabelling sweep |
| `Operator.KataConfigReconciler.UnlabelNodesDaemonSet` | controllers/daemonset_reconcile.go:822-845 | the loop refines the DaemonSet unlabelling sweep |
| `Operator.KataConfigReconciler.LabelNodes` | controllers/utils.go:327-352 | the loop refines the state-marking sweep |
| `Operator.KataConfigReconciler.IsKataNodePoolInState` | controllers/daemonset_reconcile.go:709-726 | counting matches against the list length decides whether every kata node is in the state |
| `Operator.KataConfigReconciler.ProcessDeleteRequest` | controllers/openshift_controller.go:1198-1224 | with the status write, the MachineConfig delete pass |
| `Operator.KataConfigReconciler.AfterUnlabelNodes` | controllers/openshift_controller.go:1217-1261 | its part from the end of the label loop on |
| `Operator.KataConfigReconciler.FinishDeleteRequest` | controllers/openshift_controller.go:1272-1352 | its part from the pool read on |
| `Operator.KataConfigReconciler.ProcessInstallRequest` | controllers/openshift_controller.go:1357-1441 | with the status write, the MachineConfig install pass |
| `Operator.KataConfigReconciler.AfterUpdateNodeLabels` | controllers/openshift_controller.go:1433-1470 | its part from the end of the label loop on |
| `Operator.KataConfigReconciler.FinishInstallRequest` | controllers/openshift_controller.go:1477-1529 | its part from the second pool read on |
| `Operator.KataConfigReconciler.PostKataInstallation` | controllers/openshift_controller.go:2512-2573 | the pass from publication on, whose effect on the condition PublicationLeaves states |
| `Operator.KataConfigReconciler.ProcessDeleteRequestDaemonSet` | controllers/daemonset_reconcile.go:120-150 | with the status write, the DaemonSet delete pass |
| `Operator.KataConfigReconciler.WaitForUninstall` | controllers/daemonset_reconcile.go:152-214 | its part from the uninstall DaemonSet on, whose marks and waiting DeleteDsLeaves states |
| `Operator.KataConfigReconciler.FinishDeleteRequestDaemonSet` | controllers/daemonset_reconcile.go:216-272 | its part once every node is uninstalled |
| `Operator.KataConfigReconciler.ProcessInstallRequestDaemonSet` | controllers/daemonset_reconcile.go:277-340 | with the status write, the DaemonSet install pass |
| `Operator.KataConfigReconciler.FinishInstallRequestDaemonSet` | controllers/daemonset_reconcile.go:342-412 | its part from the install DaemonSet on, whose publication PublishedExactlyWhen states |
| `Operator.KataConfigReconciler.DoReconcile` | controllers/openshift_controller.go:205-260 | the whole reconcile, as the step the run theorems are about |
| `Wakeups.NodeUpdate` | controllers/openshift_controller.go:1830-1888 | the handler queues exactly for an install-state change or a changed selector match of a worker |
| `Wakeups.EachModeWatchesItsOwn` | controllers/openshift_controller.go:1850-1869 | the MCO's annotation wakes in MachineConfig mode and the state label in DaemonSet mode, each alone |
| `Wakeups.UpdateWakesExactlyWhen` | controllers/openshift_controller.go:1830-1888 | an update that creates label work is noticed exactly when it left the kata-oc label alone |
| `Wakeups.UpdateWakesUninstallExactlyWhen` | controllers/openshift_controller.go:1830-1888 | an update that gives a labelled node back to the selector during uninstall is noticed exactly when the node is a worker |
| `Wakeups.BecomingWorkerWakesExactlyWhen` | controllers/openshift_controller.go:1830-1888 | a node that becomes a worker with label work is noticed exactly when its selector match changes too |
| `Wakeups.CreateWakesExactlyWhen` | controllers/openshift_controller.go:1808-1828 | a new worker with label work is noticed exactly when it came without the label |
| `Wakeups.McpUpdate` | controllers/openshift_controller.go:1670-1723 | with a KataConfig seen, the handler's early outs and loop queue exactly for a changed count or watched condition of a relevant pool |
| `Wakeups.PoolEventNoticedExactlyWhen` | controllers/openshift_controller.go:1670-1723 | a pool event is noticed exactly if one of four counts or the Updating or Updated status of one of three pools changed |
| `Wakeups.PoolCreationWakesExactlyWhen` | controllers/openshift_controller.go:1656-1668 | the creation of a pool queues nothing, which loses a wakeup exactly when the new pool reads as updating and nothing else is queued |
| `Wakeups.PoolDeletionWakesExactlyWhen` | controllers/openshift_controller.go:1725-1736 | the deletion of a pool queues nothing, which loses a wakeup exactly when the pool was updating and nothing else is queued |
| `Wakeups.FlipWakes` | controllers/openshift_controller.go:1188-1196 | a flip of what isMcpUpdating reads is always queued |
| `Wakeups.HappeningKeepsAwake` | controllers/openshift_controller.go:1670-1888 | every event on nodes, pools and the KataConfig, and every pass of install and uninstall, keeps "work or an unseen pool change implies a queued request" |
| `Wakeups.NoLostWakeup` | controllers/openshift_controller.go:1670-1888 | so it holds over every run |
| `Sorting.SortStrings` | controllers/daemonset_reconcile.go:775-780 | a sorted permutation |
| `NodeStatus.ClassesPartition` | controllers/openshift_controller.go:2099-2129 | the eight predicates exclude each other, the chain finds the one that holds, and none holds exactly outside Done, Working and Degraded |
| `NodeStatus.JudgedByWhatItShows` | controllers/openshift_controller.go:2099-2244 | which class a node is in, by its kata-oc label, MCO state and config against the target of its own pool, and when it is an error |
| `NodeStatus.JudgedByStateLabel` | controllers/daemonset_reconcile.go:788-820 | the same in DaemonSet mode by the state label |
| `NodeStatus.ListedExactlyWhen` | controllers/openshift_controller.go:2063-2244 | a name is on a list exactly when a worker of that name shows that |
| `NodeStatus.OnMembers` | controllers/openshift_controller.go:2131-2244 | a name is on a list exactly when a node of that name has the list's verdict |
| `NodeStatus.ListsDisjoint` | controllers/openshift_controller.go:2131-2244 | no name is on two lists |
| `NodeStatus.ListsCoverAll` | controllers/openshift_controller.go:2063-2097 | the lists, the not-installed, the unclassified and the erroring nodes add up to all nodes |
| `NodeStatus.KataNodes.Clear` | controllers/openshift_controller.go:2246-2255 | all lists are emptied and the counters kept |
| `NodeStatus.KataNodes.Put` | controllers/openshift_controller.go:2131-2244 | one more node keeps every list equal to the names with its verdict, and the error is reported |
| `NodeStatus.KataNodes.PutAll` | controllers/openshift_controller.go:2074-2086 | the loop rebuilds all lists, and errs exactly when some node errs |
| `NodeStatus.KataNodes.UpdateStatus` | controllers/openshift_controller.go:2063-2097 | lists over the workers, node count over the kata pool (0 if that cannot be read), ready count the length of Installed; nothing changes if the workers cannot be read |
| `NodeStatus.KataNodes.UpdateStatusDaemonSet` | controllers/daemonset_reconcile.go:749-786 | six lists are sorted permutations of the names with their verdict, counts as above; nothing changes if the nodes cannot be read |
| `NodeStatus.InstallationSuccess` | controllers/metrics_collector.go:119-129 | the gauge is 1 exactly when nothing is in progress, there are nodes, and the counters agree |
| `NodeStatus.EqualCountsMeanAll` | controllers/openshift_controller.go:2072-2088 | with plain labels the ready workers never outnumber the kata nodes, and equal them exactly when every kata node is ready |
| `NodeStatus.MetricTellsTruth` | controllers/metrics_collector.go:119-129 | with plain labels equal counters mean exactly that every kata node is on the Installed list |
| `NodeStatus.GaugeAfterUpdate` | controllers/metrics_collector.go:119-129 | end to end: the gauge read off a status just updated is 1 exactly when nothing is in progress, there are kata nodes, and every one is on the Installed list |
| `NodeStatus.CountsBound` | controllers/openshift_controller.go:2072-2088 | the kata pool is its workers and non-workers, and the ready count is at most the kata workers and the workers with a label value of their own |
| `NodeStatus.MetricTrustworthyExactlyWhen` | controllers/metrics_collector.go:119-129 | for given labels the metric is truthful in every MCO state exactly when the labels with a value of their own cannot make up for a kata node, by their number and that of kata workers and non-workers |
| `NodeStatus.StatusAgreesWithProgress` | controllers/daemonset_reconcile.go:709-820 | install is finished exactly when the counters agree, uninstall exactly when both uninstall lists are empty |
| `NodeStatus.InstallListsCoverPool` | controllers/daemonset_reconcile.go:788-804 | the three install lists add up to the kata pool |
| `NodeStatus.MetricTellsTruthDaemonSet` | controllers/daemonset_reconcile.go:758-783 | in DaemonSet mode the metric is truthful whatever the labels |
| `NodeStatus.GaugeAfterUpdateDaemonSet` | controllers/daemonset_reconcile.go:749-786 | end to end in DaemonSet mode, through the sorted lists |
| `ConsolePlugin.MarkerKeyInjective` | controllers/consoleplugin.go:999-1009 | each plugin has its own marker |
| `ConsolePlugin.StepFaithful` | controllers/consoleplugin.go:1011-1054 | each accepted operator write is an edit of the version right before it, and was called for |
| `ConsolePlugin.NothingIsOverwritten` | controllers/consoleplugin.go:216-257 | in every interleaving with stale reads no operator write overwrites an edit it did not read, and no version is lost |
| `ConsolePlugin.WithoutInOrder` | controllers/consoleplugin.go:229-234 | disabling keeps exactly the entries of other plugins, in order |
| `ConsolePlugin.WithoutKeeps` | controllers/consoleplugin.go:229-239 | comparing lengths decides whether the plugin was there |
| `ConsolePlugin.WritesExactlyWhen` | controllers/consoleplugin.go:216-257 | when sync and disable have something to write, by plugin list and marker |
| `ConsolePlugin.SyncEffect` | controllers/consoleplugin.go:1011-1054 | sync leaves the plugin list alone, makes its marker agree with it, touches no other annotation, and has then nothing to write |
| `ConsolePlugin.DisableEffect` | controllers/consoleplugin.go:216-257 | disable removes its name and marker, touches no other annotation, and has then nothing to write |
| `ConsolePlugin.OthersUntouched` | controllers/consoleplugin.go:216-257 | an edit for one plugin changes neither the state of another nor what its reconciler would do |
| `ConsolePlugin.OnlyDisablesChangePlugins` | controllers/consoleplugin.go:216-257 | between administrator edits the list only loses the names that were disabled |
| `ConsolePlugin.OnlyAdminsEnable` | controllers/consoleplugin.go:1011-1054 | a plugin that became enabled was enabled by an administrator |
| `ConsolePlugin.QuietStays` | controllers/consoleplugin.go:1011-1054 | an operation with nothing to write stays so until an administrator edits, whatever other reconcilers do |
| `ConsolePlugin.NoWriteStorm` | controllers/consoleplugin.go:1011-1054 | between two equal writes there is an administrator edit |
| `ConsolePlugin.RemovePlugin` | controllers/consoleplugin.go:229-234 | the loop removes every occurrence of the name |
| `ConsolePlugin.ConsoleApi.SyncConsolePluginEnabledState` | controllers/consoleplugin.go:1011-1054 | the retry loop, with administrators and other reconcilers writing in between, updates failing and answers lost, writes at most once, on the version it read and only if needed; the answer is the state in the version read; it gives up only if a turn fails or all five can conflict, and then without a write unless the answer to one was lost |
| `ConsolePlugin.ConsoleApi.DisableConsolePlugin` | controllers/consoleplugin.go:216-257 | the same for disabling, a missing Console being no error |
| `JobHistory.ReadPage` | scripts/prowjob-analyzer/job_history.py:176-184 | the inner loop extends the plain definition by one page, and counts no new build exactly when no new ID came |
| `JobHistory.FetchFilteredBuilds` | scripts/prowjob-analyzer/job_history.py:146-208 | terminates for every server at which a stop condition comes to hold; stops at the first page where one does; returns the plain definition on the pages read |
| `JobHistory.SomethingStops` | scripts/prowjob-analyzer/job_history.py:166-204 | one comes to hold at every server with fetchAll, and without it whenever the IDs come from a finite set, cyclic links included, at the latest one page after that many |
| `JobHistory.EveryRoundUsesAnId` | scripts/prowjob-analyzer/job_history.py:191-194 | every page that lets the loop go on brings an unseen ID |
| `JobHistory.StopTest` | scripts/prowjob-analyzer/job_history.py:189-204 | the stop condition in terms of what the loop has at hand |
| `JobHistory.DedupSelects` | scripts/prowjob-analyzer/job_history.py:177-182 | de-duplication keeps, in order, exactly the first entry of each ID |
| `JobHistory.MatchingSelects` | scripts/prowjob-analyzer/job_history.py:183-184 | filtering keeps, in order, exactly the entries that fit |
| `JobHistory.ResultsAreSound` | scripts/prowjob-analyzer/job_history.py:166-208 | results have the result asked for and a start time inside the window, have distinct IDs, and number at most the limit |
| `JobHistory.CollectedExactly` | scripts/prowjob-analyzer/job_history.py:130-184 | collected are exactly the entries that are the first with their ID, have the result asked for, and started inside the window |
| `JobHistory.CutIsPrefix` | scripts/prowjob-analyzer/job_history.py:206-207 | the result is all of that, or its first builds up to the limit |
| `EarlyStopping.CollectedGrows` | scripts/prowjob-analyzer/job_history.py:177-184 | further builds only append matches, and none if none of them fits |
| `EarlyStopping.EarlyStoppingRefines` | scripts/prowjob-analyzer/job_history.py:130-208 | on an orderly history, with a limit that is not negative and within the page cap, stopping early returns what the whole history would |
| `EarlyStopping.ReadsNoFurther` | scripts/prowjob-analyzer/job_history.py:189-204 | no page is read after enough builds were found or no older link, and never more than 500 with fetchAll |
| `EarlyStopping.EarlyStoppingRefinesExactlyWhen` | scripts/prowjob-analyzer/job_history.py:130-208 | a history of n pages is fetched faithfully for every such query exactly when no new ID follows a page without one, and no new build follows that started later than the end of an earlier page |
| `EarlyStopping.GrowsExactlyWhen` | scripts/prowjob-analyzer/job_history.py:176-184 | reading on adds nothing exactly when no new build fits |
| `EarlyStopping.IdsGrowExactlyWhen` | scripts/prowjob-analyzer/job_history.py:176-184 | no new ID comes exactly when no first occurrence comes |
| `EarlyStopping.NewestFirstIsOrderly` | scripts/prowjob-analyzer/job_history.py:146-165 | a history whose de-duplicated builds are newest first and whose pages each bring something new is orderly, however much its pages overlap, with entries without an ID anywhere but at the end of a page |
| `EarlyStopping.NewestFirstAsListedIsOrderly` | scripts/prowjob-analyzer/job_history.py:146-165 | so is one whose entries are newest first as they come, whatever their IDs |
| `EarlyStopping.StopLoses` | scripts/prowjob-analyzer/job_history.py:189-204 | a stop condition that holds although something new and fitting follows loses it |
| `EarlyStopping.LimitRefinesExactlyWhen` | scripts/prowjob-analyzer/job_history.py:189-207 | a setting is faithful on all orderly histories exactly when it fetches all, has no limit, or one that is not negative |
| `EarlyStopping.NegativeLimitLoses` | scripts/prowjob-analyzer/job_history.py:206-207 | for every negative limit a history of two pages where it is not |
| `EarlyStopping.RestIsTooOld` | scripts/prowjob-analyzer/job_history.py:195-199 | on an orderly history nothing new fits after a page that ends before the window |
| `EarlyStopping.RepeatedPageHidesOlderBuilds` | scripts/prowjob-analyzer/job_history.py:191-194 | a page of repeats ends the fetch before an older match |
| `EarlyStopping.UnorderedTimesHideBuilds` | scripts/prowjob-analyzer/job_history.py:195-199 | with times out of order the window test ends the fetch before a match |
| `ImageJobs.ImageGenerator.HasReported` | controllers/image_generator.go:942-971 | the scan finds a true condition of the type together with a positive counter, and only that |
| `ImageJobs.ImageGenerator.CheckJobStatus` | controllers/image_generator.go:974-1013 | failed before completed before running, and an error for anything else or an unreadable job |
| `ImageJobs.SubmitNeverReplaces` | controllers/image_generator.go:385-398 | a submission that goes through leaves a job of its kind, never replaces one that is there, touches nothing else, and can be repeated |
| `ImageJobs.ImageGenerator.DeleteJob` | controllers/image_generator.go:400-419 | removal, or a requeue with the job kept |
| `ImageJobs.ImageGenerator.JobRunner` | controllers/image_generator.go:446-597 | the runner of either kind, with the rest of the cluster acting between any two of its calls |
| `ImageJobs.ImageGenerator.ImageCall` | controllers/image_generator.go:144-209 | ImageCreate and ImageDelete around the runner |
| `ImageJobs.NobodyInterferes` | controllers/image_generator.go:446-597 | only a submission brings a kind of job to life, and a kind not alive cannot change the ID |
| `ImageJobs.SubmitsOnlyWhenNeeded` | controllers/image_generator.go:461-476 | a pass asks for a job only if it read the ID as not yet in its final state, and no job appears that was not asked for or is of the other kind |
| `ImageJobs.SuccessMeansReached` | controllers/image_generator.go:461-505 | if no job or pod of the other kind is alive, "created" means ID set and job gone, and "deleted", if the ConfigMap was readable, ID unset and job gone, through any events inside the pass |
| `ImageJobs.RunsAreTruthful` | controllers/image_generator.go:446-597 | the same over all runs: if nobody of the other kind is alive at the start, every later answer is true, whatever the passes before it met |
| `ImageJobs.TruthfulExactlyWhen` | controllers/image_generator.go:446-607 | for given outcomes of the two ConfigMap reads, no undisturbed pass can mislead exactly when: for "created", no delete job or pod is alive or the reads rule out success; for "deleted", no create job or pod is alive, and both reads succeed or there is no image |
| `ImageJobs.SuccessClears` | controllers/image_generator.go:461-505 | success comes without an error and after the job was removed |
| `ImageJobs.UnreadableConfigMapMisleads` | controllers/image_generator.go:599-607 | an instance: with an unreadable ConfigMap "deleted" is reported although the ID is set |
| `ImageJobs.GoesOnExactlyWhen` | controllers/peerpods.go:543-575 | the caller goes on exactly for success, an unsupported provider or a job seen failed and removed; the condition it sets says which, and never unknown |
| `ImageJobs.AnsweredByJob` | controllers/image_generator.go:478-520 | how a pass answers by what the job shows: failed before complete, running as requeue, anything else as error |
| `ImageJobs.SuccessIsFinal` | controllers/image_generator.go:446-597 | over every run of further passes and cluster events the ID stays as it is and no job is submitted again |
| `ImageJobs.SuccessIsFinalExactlyWhen` | controllers/image_generator.go:528-550 | success is final exactly when no job or pod of the other kind is alive |
| `ImageJobs.DeletedWhileCreating` | controllers/image_generator.go:541-550 | "deleted" is reported while a create job is working |
| `RuntimeClasses.HasPodsUsingRuntimeClass` | controllers/runtimeclass_controller.go:103-126 | true exactly for a failed list or a Running, Pending or Unknown pod of the class |
| `RuntimeClasses.RuntimeClassReconciler.Reconcile` | controllers/runtimeclass_controller.go:51-91 | the decision half of the controller |
| `RuntimeClasses.RuntimeClassReconciler.RemoveFinalizer` | controllers/runtimeclass_controller.go:92-97 | the write half, refused if the object has changed since it was read |
| `RuntimeClasses.StepValid` | controllers/runtimeclass_controller.go:51-101 | every outstanding decision saw no pod, of an object that is unchanged or superseded |
| `RuntimeClasses.StepReleases` | controllers/runtimeclass_controller.go:76-101 | a step that takes the finalizer off a class is such a write, on the very object that was checked |
| `RuntimeClasses.NeverReleasedInUse` | controllers/runtimeclass_controller.go:51-126 | over every run with stale reads and outstanding decisions, a protected class disappears or loses its finalizer only that way |
| `RuntimeClasses.OperatorProtects` | controllers/migrate.go:88-115 | a class the operator creates or finds without the finalizer is protected from then on |
| `RuntimeClasses.OthersLeftAlone` | controllers/runtimeclass_controller.go:63-73 | the controller leaves alone what is not protected or not being deleted |
| `RuntimeClasses.ReleasedExactlyWhenFree` | controllers/runtimeclass_controller.go:76-101 | an undisturbed check decides for release exactly when the list worked and showed no active pod, and the write then takes effect |
| `RuntimeClasses.StatusList.CreateRuntimeClass` | controllers/openshift_controller.go:1101-1106 | the name is appended once, and only if the calls succeeded |
| `RuntimeClasses.StatusList.DeleteRuntimeClass` | controllers/openshift_controller.go:1108-1131 | the loop takes one occurrence out, only if the class was found and deleted |
| `RuntimeClasses.WithoutSplices` | controllers/openshift_controller.go:1124-1129 | one occurrence goes, the rest stays in order |
| `RuntimeClasses.NeverDuplicated` | controllers/openshift_controller.go:1101-1131 | no sequence of creations, deletions, status writes and restarts makes a duplicate |
| `RuntimeClasses.NameListedExactlyWhen` | controllers/openshift_controller.go:1074-1106 | a name is listed after a creation exactly when it was before or the calls succeeded |
| `RuntimeClasses.NameLeavesExactlyWhen` | controllers/openshift_controller.go:1108-1131 | a name leaves exactly when the class was found and the delete took effect |
| `Credentials.SecretController.IsOwnedByCcoSecret` | controllers/credentials_controller.go:234-247 | the scan decides whether the cco-secret is an owner |
| `Credentials.UpsertMerges` | controllers/credentials_controller.go:257-290 | an update replaces the data, adds its mark and at most once the owner, loses no other label and no owner, and repeating it changes nothing more |
| `Credentials.SetupOutcome` | controllers/credentials_controller.go:347-396 | an undisturbed setup leaves an existing secret alone, makes one from the environment on a token-based cluster, and requests credentials otherwise |
| `Credentials.TeardownOutcome` | controllers/credentials_controller.go:404-435 | an undisturbed teardown withdraws the request and removes exactly a secret marked for deletion |
| `Credentials.MappingOutcome` | controllers/credentials_controller.go:75-112 | an undisturbed mapping keeps a mapped secret in step and touches no other |
| `Credentials.DisabledOutcome` | controllers/credentials_controller.go:302-336 | creation or deletion with peer pods disabled changes nothing |
| `Credentials.SecretController.Reconcile` | controllers/credentials_controller.go:75-112 | the mapping, with events between its reads and its write |
| `Credentials.SecretController.SetupPeerPodsCredentials` | controllers/credentials_controller.go:347-396 | the setup, likewise |
| `Credentials.SecretController.TeardownPeerPodsCredentials` | controllers/credentials_controller.go:404-435 | the teardown, likewise |
| `Credentials.SecretController.OnEvent` | controllers/credentials_controller.go:302-336 | which event leads to which of them |
| `Credentials.StepKeepsProvenance` | controllers/credentials_controller.go:75-112 | one atomic step keeps the marks truthful, and changes a secret only if its maker allows |
| `Credentials.RunKeepsMarks` | controllers/credentials_controller.go:227-247 | label and owner tell the maker of the secret throughout every run |
| `Credentials.SecretProvenance` | controllers/credentials_controller.go:347-435 | in every run a user's secret is changed only by the user; one from the environment is never rewritten and removed only by a teardown or the user; a mapped one is left alone by setup and teardown |
| `Credentials.UserSecretSurvivesExactlyWhen` | controllers/credentials_controller.go:347-435 | without atomicity a user's secret is lost exactly if mapping had found the secret missing or mapped, setup had found it missing in a token-based cluster with usable environment data, or teardown had found one marked for deletion |
| `Credentials.RaceOverwritesUserSecret` | controllers/credentials_controller.go:347-379 | an instance where it is lost |
| `KeyHash.FitsByteLength` | scripts/rvps-extraction/static-files/se_parse_hdr.py:39-39 | the number of bytes computed from the bit length suffices |
| `KeyHash.BinPadExactlyWhen` | scripts/rvps-extraction/static-files/se_parse_hdr.py:37-46 | exactly size bytes with value n mod 256^size, exactly when size is positive or n is zero |
| `KeyHash.BinPadValue` | scripts/rvps-extraction/static-files/se_parse_hdr.py:37-46 | the same for all positive sizes |
| `KeyHash.BinPadInjective` | scripts/rvps-extraction/static-files/se_parse_hdr.py:37-46 | numbers that fit have different padded forms |
| `KeyHash.SplitShape` | scripts/rvps-extraction/static-files/se_parse_hdr.py:22-33 | where the split cuts an uncompressed point, by key size |
| `KeyHash.SplitRecoversExactlyWhen` | scripts/rvps-extraction/static-files/se_parse_hdr.py:22-33 | the coordinates come out exactly when the key size is not divisible by 8, or x is zero and y starts with a zero byte |
| `KeyHash.HashInputFaithfulExactlyWhen` | scripts/rvps-extraction/static-files/se_parse_hdr.py:57-79 | the hash input is the two padded coordinates exactly then |
| `KeyHash.HashInputInjective` | scripts/rvps-extraction/static-files/se_parse_hdr.py:57-79 | 160 bytes that tell any two points of a curve apart, for every key size that fits |
| `KeyHash.P521HashInput` | scripts/rvps-extraction/static-files/se_parse_hdr.py:57-79 | both for P-521 |
| `KeyHash.HexInjective` | scripts/rvps-extraction/static-files/se_parse_hdr.py:128-128 | comparing hex strings compares the bytes |
| `KeyHash.HexDigits` | scripts/rvps-extraction/static-files/se_parse_hdr.py:128-128 | two digits per byte, the high one first |
| `KeyHash.FindSlot` | scripts/rvps-extraction/static-files/se_parse_hdr.py:118-138 | the last whole slot that carries the hash, or -1 exactly when there is none |

## Left out

- Converged clusters: their passes differ in the pool that is watched and in what sets the wait flag; the model is of regular clusters.
- Object builders (DaemonSets, Deployments, MachineConfigs, SCCs, network policies, console resources): large literals without a hard property.
- The Kubernetes client, caching, RBAC, logging, timeouts and requeue delays: reads and writes of a cluster state instead.
- YAML, JSON, HTML and certificate parsing, hashing, Ignition encoding, TLS settings: foreign code; parsed values and the hash are inputs.
- The MCO's condition helpers: a pool's conditions are a map by type, so a list with two conditions of one type is not modelled.
- Label and pool edits by others in the middle of a reconcile pass: they come between passes. In the console, image, RuntimeClass and secret models they may come between any two calls.
- The proof that every kata-oc node is unlabelled on uninstall: the source unlabels only nodes that match the selector, and so do the theorems.
- DaemonSet state labels of nodes that match the selector but are not workers: the source sets them and does not always clean them up; nothing is claimed about them.
- Mapping of the cco-secret's keys, and assembling credentials from environment variables: the resulting data are inputs.
- Upper-casing of build results and parsing of times: builds carry the parsed values.
- Log analysis, reports and the remaining scripts, end-to-end tests, must-gather: no strong specification.
- Wakeups.NoLostWakeup: has the uninstall of MachineConfig mode only, because that of DaemonSet mode unlabels at the end and is woken by state labels and status writes until then.
- A lagging cache in the reconcile passes: they read the current status and nodes.
- Sorting.SortStrings: a function instead of the library's in-place sort.
- McoWait.InstallKeepsGuard: the opposite direction is ForgettingBreaksGuard and needs a stable selector.
