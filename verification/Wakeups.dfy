/** Which watch events wake the reconciler, and why none that matters is lost.

The reconciler does not poll: after a pass that has nothing to requeue for, only the node and
pool event handlers bring it back.  `Enqueues` and `PoolEnqueues` say which events do; the
run theorem says that whenever there is label work, or the pools read differently from what
the last reconcile saw, a reconcile request is queued.
*/
module Wakeups {
  import opened Labels

  /** isWorkerNode: the label is there, with any value. */
  predicate IsWorkerNode(n: Node) {
    WORKER in n.labels
  }

  function McoState(n: Node): string {
    if MCO_STATE in n.annotations then n.annotations[MCO_STATE] else ""
  }

  /** What each deployment mode watches on a node besides its selector match. */
  function InstallState(daemonSetMode: bool, n: Node): string {
    if daemonSetMode then DsState(n) else McoState(n)
  }

  /** NodeEventHandler.Update, for a reconciler that has seen a KataConfig. */
  predicate Enqueues(sel: Selector, daemonSetMode: bool, old_: Node, new_: Node) {
    && IsWorkerNode(new_)
    && (|| InstallState(daemonSetMode, old_) != InstallState(daemonSetMode, new_)
        || (old_.labels != new_.labels && Matches(sel, old_.labels) != Matches(sel, new_.labels)))
  }

  /** By mode: the MCO's annotation wakes in MachineConfig mode and the state label in DaemonSet mode,
      each alone; and a worker whose selector match changes wakes in both.
   */
  lemma EachModeWatchesItsOwn(sel: Selector, old_: Node, new_: Node)
    requires WORKER in new_.labels && Matches(sel, old_.labels) == Matches(sel, new_.labels)
    requires MCO_STATE in old_.annotations && MCO_STATE in new_.annotations
    requires DS_STATE in old_.labels && DS_STATE in new_.labels
    ensures Enqueues(sel, false, old_, new_) <==> old_.annotations[MCO_STATE] != new_.annotations[MCO_STATE]
    ensures Enqueues(sel, true, old_, new_) <==> old_.labels[DS_STATE] != new_.labels[DS_STATE]
  {}

  /** NodeEventHandler.Update, as the handler decides it. */
  method NodeUpdate(haveKataConfig: bool, sel: Selector, daemonSetMode: bool, nodeOld: Node, nodeNew: Node)
      returns (enqueue: bool)
    ensures enqueue == (haveKataConfig && Enqueues(sel, daemonSetMode, nodeOld, nodeNew))
  {
    if !IsWorkerNode(nodeNew) || !haveKataConfig {
      return false;
    }
    var foundRelevantChange := false;
    if daemonSetMode {
      if DsState(nodeOld) != DsState(nodeNew) {
        foundRelevantChange := true;
      }
    } else {
      if McoState(nodeOld) != McoState(nodeNew) {
        foundRelevantChange := true;
      }
    }
    if nodeOld.labels != nodeNew.labels {
      var matchOld := Matches(sel, nodeOld.labels);
      var matchNew := Matches(sel, nodeNew.labels);
      if matchOld != matchNew {
        foundRelevantChange := true;
      }
    }
    return foundRelevantChange;
  }

  /** The same for uninstall: an update that gives a labelled node back to the selector wakes the
      reconciler exactly when the node is a worker, unless the install state moved too.
   */
  lemma UpdateWakesUninstallExactlyWhen(sel: Selector, daemonSetMode: bool, old_: Node, new_: Node)
    requires HasKataOc(old_) && !Applies(DropKataOc(sel), old_) && Applies(DropKataOc(sel), new_)
    requires InstallState(daemonSetMode, old_) == InstallState(daemonSetMode, new_)
    ensures Enqueues(sel, daemonSetMode, old_, new_) <==> IsWorkerNode(new_)
  {
    hide Matches;
    assert Matches(sel, old_.labels) != Matches(sel, new_.labels);
    assert old_.labels != new_.labels;
  }

  /** NodeEventHandler.Create, for a reconciler that has seen a KataConfig. */
  predicate EnqueuesCreate(sel: Selector, n: Node) {
    IsWorkerNode(n) && Matches(sel, n.labels)
  }

  /** An update that turns an up-to-date worker into one with label work wakes the reconciler
      exactly when it left the kata-oc label itself alone, unless the install state moved too.
      Someone else editing the kata-oc label is the one thing that goes unnoticed.
   */
  lemma UpdateWakesExactlyWhen(sel: Selector, daemonSetMode: bool, old_: Node, new_: Node)
    requires ListedWorker(old_) && !Applies(SyncKataOc(sel), old_)
    requires Applies(SyncKataOc(sel), new_)
    requires InstallState(daemonSetMode, old_) == InstallState(daemonSetMode, new_)
    ensures Enqueues(sel, daemonSetMode, old_, new_) <==> HasKataOc(old_) == HasKataOc(new_)
  {}

  /** A node that becomes a worker with label work is noticed exactly when its selector match changes as well. */
  lemma BecomingWorkerWakesExactlyWhen(sel: Selector, daemonSetMode: bool, old_: Node, new_: Node)
    requires !ListedWorker(old_) && Applies(SyncKataOc(sel), new_)
    requires InstallState(daemonSetMode, old_) == InstallState(daemonSetMode, new_)
    ensures Enqueues(sel, daemonSetMode, old_, new_) <==> Matches(sel, old_.labels) != Matches(sel, new_.labels)
  {
    hide Matches;
    assert old_.labels != new_.labels;
  }

  /** The same for creation: a worker that needs work is noticed exactly when it was created without the label. */
  lemma CreateWakesExactlyWhen(sel: Selector, n: Node)
    requires Applies(SyncKataOc(sel), n)
    ensures EnqueuesCreate(sel, n) <==> !HasKataOc(n)
  {}

  // ---------------------------------------------------------------- pools

  /** A MachineConfigPool status: the counts, the conditions by type, and the rest. */
  datatype PoolStatus = PoolStatus(
    machines: int, ready: int, updated: int, degraded: int, conditions: map<string, string>, observedGeneration: int)

  /** isMcpUpdating */
  predicate ReadsUpdating(p: PoolStatus) {
    "Updating" in p.conditions && p.conditions["Updating"] == "True"
  }

  function ConditionStatus(p: PoolStatus, kind: string): string {
    if kind in p.conditions then p.conditions[kind] else "<missing>"
  }

  predicate CountsChanged(old_: PoolStatus, new_: PoolStatus) {
    old_.machines != new_.machines || old_.ready != new_.ready || old_.updated != new_.updated
        || old_.degraded != new_.degraded
  }

  const WATCHED := ["Updating", "Updated"]

  predicate PoolEnqueues(name: string, old_: PoolStatus, new_: PoolStatus) {
    && name in {"kata-oc", "worker", "master"}
    && (CountsChanged(old_, new_) ||
        exists k :: 0 <= k < |WATCHED| && ConditionStatus(old_, WATCHED[k]) != ConditionStatus(new_, WATCHED[k]))
  }

  /** McpEventHandler.Update: its early outs and its loop decide exactly `PoolEnqueues`. */
  method McpUpdate(haveKataConfig: bool, name: string, statusOld: PoolStatus, statusNew: PoolStatus)
      returns (enqueue: bool)
    ensures enqueue == (haveKataConfig && PoolEnqueues(name, statusOld, statusNew))
  {
    if name != "kata-oc" && name != "worker" && name != "master" {
      return false;
    }
    if statusOld == statusNew {
      return false;
    }
    var found := false;
    if statusOld.machines != statusNew.machines {
      found := true;
    } else if statusOld.ready != statusNew.ready {
      found := true;
    } else if statusOld.updated != statusNew.updated {
      found := true;
    } else if statusOld.degraded != statusNew.degraded {
      found := true;
    }
    if statusOld.conditions != statusNew.conditions {
      for i := 0 to |WATCHED|
        invariant found == (CountsChanged(statusOld, statusNew) ||
                            exists k :: 0 <= k < i
                                && ConditionStatus(statusOld, WATCHED[k]) != ConditionStatus(statusNew, WATCHED[k]))
      {
        if ConditionStatus(statusOld, WATCHED[i]) != ConditionStatus(statusNew, WATCHED[i]) {
          found := true;
        }
      }
    }
    return haveKataConfig && found;
  }

  /** What a pool event must change to be noticed: one of the four machine counts, or the status of the
      Updating or Updated condition, of one of the three pools.
   */
  lemma PoolEventNoticedExactlyWhen(name: string, old_: PoolStatus, new_: PoolStatus)
    ensures PoolEnqueues(name, old_, new_) <==>
            && (name == "kata-oc" || name == "worker" || name == "master")
            && !(&& old_.machines == new_.machines && old_.ready == new_.ready
                 && old_.updated == new_.updated && old_.degraded == new_.degraded
                 && ConditionStatus(old_, "Updating") == ConditionStatus(new_, "Updating")
                 && ConditionStatus(old_, "Updated") == ConditionStatus(new_, "Updated"))
  {
    assert WATCHED[0] == "Updating" && WATCHED[1] == "Updated";
  }

  /** A change of what isMcpUpdating reads is always noticed. */
  lemma FlipWakes(name: string, old_: PoolStatus, new_: PoolStatus)
    requires name in {"kata-oc", "worker", "master"}
    requires ReadsUpdating(old_) != ReadsUpdating(new_)
    ensures PoolEnqueues(name, old_, new_)
  {
    assert ConditionStatus(old_, WATCHED[0]) != ConditionStatus(new_, WATCHED[0]);
  }

  // ---------------------------------------------------------------- runs

  /** The cluster as watched, whether reconciles take the delete path, the pools the last
      reconcile saw updating, and whether a request is queued.
   */
  datatype Watch = Watch(
    sel: Selector, nodes: seq<Node>, pools: map<string, PoolStatus>, deleting: bool, lastSeen: set<string>,
        queued: bool)

  datatype Happening =
    | NodeUpdated(i: nat, node: Node)
    | NodeCreated(node: Node)
    | NodeDeleted(i: nat)
    | PoolCreated(name: string, status: PoolStatus)
    | PoolUpdated(name: string, status: PoolStatus)
    | PoolDeleted(name: string)
    | SelectorEdited(sel: Selector)             // the KataConfig itself is watched
    | DeletionStarted                           // likewise
    | Reconciled(failing: set<string>)          // a pass; one that failed asks to be requeued

  /** What reconciles do to the labels. */
  function LabelWork(w: Watch): Edit {
    if w.deleting then DropKataOc(w.sel) else SyncKataOc(w.sel)
  }

  /** What others may do: a node keeps its role and its kata-oc label when it is updated, joins
      without the label, and is a worker if it has the label; a pool is not updating when it is
      created or deleted; selectors are stable.  Uninstall is that of MachineConfig mode, which unlabels at
      once.
   */
  ghost predicate Fair(w: Watch, h: Happening, daemonSetMode: bool) {
    match h
    case NodeUpdated(i, n) =>
      && i < |w.nodes| && ListedWorker(n) == ListedWorker(w.nodes[i]) && HasKataOc(n) == HasKataOc(w.nodes[i])
      && (HasKataOc(n) ==> IsWorkerNode(n))
    case NodeCreated(n) => !HasKataOc(n)
    case NodeDeleted(i) => i < |w.nodes|
    case PoolCreated(name, status) => name !in w.pools && !ReadsUpdating(status)
    case PoolUpdated(name, _) => name in w.pools && name in {"kata-oc", "worker", "master"}
    case PoolDeleted(name) => name in w.pools ==> !ReadsUpdating(w.pools[name])
    case SelectorEdited(sel) => Stable(sel)
    case DeletionStarted => !daemonSetMode
    case Reconciled(_) => true
  }

  /** The pools for which isMcpUpdating answers yes; a missing pool reads as not updating. */
  function Updating(pools: map<string, PoolStatus>): set<string> {
    set p | p in pools && ReadsUpdating(pools[p])
  }

  function Happens(w: Watch, h: Happening, daemonSetMode: bool): Watch {
    match h
    case NodeUpdated(i, n) =>
      if i >= |w.nodes| then w
      else w.(nodes := w.nodes[i := n], queued := w.queued || Enqueues(w.sel, daemonSetMode, w.nodes[i], n))
    case NodeCreated(n) => w.(nodes := w.nodes + [n], queued := w.queued || EnqueuesCreate(w.sel, n))
    case NodeDeleted(i) => if i >= |w.nodes| then w else w.(nodes := w.nodes[..i] + w.nodes[i + 1..])
    case PoolCreated(name, st) => w.(pools := w.pools[name := st])
    case PoolUpdated(name, st) =>
      if name !in w.pools then w
      else w.(pools := w.pools[name := st], queued := w.queued || PoolEnqueues(name, w.pools[name], st))
    case PoolDeleted(name) => w.(pools := w.pools - {name})
    case SelectorEdited(sel) => w.(sel := sel, queued := true)
    case DeletionStarted => w.(deleting := true, queued := true)
    case Reconciled(failing) =>
      if !w.queued then w
      else
        var u := Sweep(w.nodes, LabelWork(w), failing);
        w.(nodes := u.nodes, lastSeen := Updating(w.pools), queued := u.failed)
  }

  ghost predicate FairRun(w: Watch, hs: seq<Happening>, daemonSetMode: bool)
    decreases |hs|
  {
    hs == [] || (Fair(w, hs[0], daemonSetMode) && FairRun(Happens(w, hs[0], daemonSetMode), hs[1..], daemonSetMode))
  }

  function Watched(w: Watch, hs: seq<Happening>, daemonSetMode: bool): Watch
    decreases |hs|
  {
    if hs == [] then w else Watched(Happens(w, hs[0], daemonSetMode), hs[1..], daemonSetMode)
  }

  /** If there is anything to do, a request is queued. */
  ghost predicate Awake(w: Watch) {
    && Stable(w.sel)
    && (Work(w.nodes, LabelWork(w)) ==> w.queued)
    && (w.lastSeen != Updating(w.pools) ==> w.queued)
  }

  /** A creation is never queued, although the install pass counts on it after it has created the
      kata-oc pool.  That loses a wakeup exactly when the new pool already reads as updating and
      nothing else is queued.
   */
  lemma PoolCreationWakesExactlyWhen(w: Watch, name: string, status: PoolStatus, daemonSetMode: bool)
    requires Awake(w) && name !in w.pools
    ensures var w' := Happens(w, PoolCreated(name, status), daemonSetMode);
            w'.queued == w.queued && (Awake(w') <==> w.queued || !ReadsUpdating(status))
  {
    var w' := Happens(w, PoolCreated(name, status), daemonSetMode);
    assert Updating(w'.pools) == Updating(w.pools) + (if ReadsUpdating(status) then {name} else {});
    assert name !in Updating(w.pools);
  }

  /** The deletion of a pool is never queued either, which loses a wakeup exactly when the pool was
      updating and nothing else is queued.
   */
  lemma PoolDeletionWakesExactlyWhen(w: Watch, name: string, daemonSetMode: bool)
    requires Awake(w) && name in w.pools
    ensures var w' := Happens(w, PoolDeleted(name), daemonSetMode);
            w'.queued == w.queued && (Awake(w') <==> w.queued || !ReadsUpdating(w.pools[name]))
  {
    var w' := Happens(w, PoolDeleted(name), daemonSetMode);
    assert Updating(w'.pools) == Updating(w.pools) - {name};
  }

  lemma NodeUpdateKeepsAwake(w: Watch, i: nat, n: Node, daemonSetMode: bool)
    requires Awake(w) && Fair(w, NodeUpdated(i, n), daemonSetMode)
    ensures Awake(Happens(w, NodeUpdated(i, n), daemonSetMode))
  {
    hide Stable, Matches, Enqueues, InstallState, Updating;
    var e, m := LabelWork(w), w.nodes[i];
    var w' := Happens(w, NodeUpdated(i, n), daemonSetMode);
    assert m in w.nodes;
    if x :| x in w'.nodes && x != n && Applies(e, x) {
      assert x in w.nodes;
    }
    if Applies(e, n) && !Applies(e, m) {
      if InstallState(daemonSetMode, m) != InstallState(daemonSetMode, n) {
        InstallStateWakes(w.sel, daemonSetMode, m, n);
      } else if w.deleting {
        UpdateWakesUninstallExactlyWhen(w.sel, daemonSetMode, m, n);
      } else {
        UpdateWakesExactlyWhen(w.sel, daemonSetMode, m, n);
      }
    }
  }

  lemma InstallStateWakes(sel: Selector, daemonSetMode: bool, old_: Node, new_: Node)
    requires IsWorkerNode(new_) && InstallState(daemonSetMode, old_) != InstallState(daemonSetMode, new_)
    ensures Enqueues(sel, daemonSetMode, old_, new_)
  {}

  lemma PoolUpdateKeepsAwake(w: Watch, name: string, status: PoolStatus, daemonSetMode: bool)
    requires Awake(w) && Fair(w, PoolUpdated(name, status), daemonSetMode)
    ensures Awake(Happens(w, PoolUpdated(name, status), daemonSetMode))
  {
    hide Stable, Work;
    if ReadsUpdating(w.pools[name]) != ReadsUpdating(status) {
      FlipWakes(name, w.pools[name], status);
    } else {
      assert Updating(w.pools[name := status]) == Updating(w.pools);
    }
  }

  lemma PassKeepsAwake(w: Watch, failing: set<string>, daemonSetMode: bool)
    requires Awake(w)
    ensures Awake(Happens(w, Reconciled(failing), daemonSetMode))
  {
    hide Stable, Updating, Sweep, Work;
    SweepReport(w.nodes, LabelWork(w), failing);
    if w.queued && !Trips(w.nodes, LabelWork(w), failing) {
      if w.deleting {
        DropDone(w.nodes, w.sel, failing);
      } else {
        SyncDone(w.nodes, w.sel, failing);
      }
    }
  }

  lemma HappeningKeepsAwake(w: Watch, h: Happening, daemonSetMode: bool)
    requires Awake(w) && Fair(w, h, daemonSetMode)
    ensures Awake(Happens(w, h, daemonSetMode))
  {
    var e, w' := LabelWork(w), Happens(w, h, daemonSetMode);
    match h
    case NodeUpdated(i, n) => NodeUpdateKeepsAwake(w, i, n, daemonSetMode);
    case NodeCreated(n) =>
      if Applies(SyncKataOc(w.sel), n) {
        CreateWakesExactlyWhen(w.sel, n);
      }
      if m :| m in w'.nodes && m != n && Applies(e, m) {
        assert m in w.nodes;
      }
    case NodeDeleted(i) =>
      if m :| m in w'.nodes && Applies(e, m) {
        assert m in w.nodes;
      }
    case PoolCreated(name, status) => PoolCreationWakesExactlyWhen(w, name, status, daemonSetMode);
    case PoolDeleted(name) =>
      if name in w.pools {
        PoolDeletionWakesExactlyWhen(w, name, daemonSetMode);
      } else {
        assert w.pools - {name} == w.pools;
      }
    case PoolUpdated(name, status) => PoolUpdateKeepsAwake(w, name, status, daemonSetMode);
    case SelectorEdited(_) =>
    case DeletionStarted =>
    case Reconciled(failing) => PassKeepsAwake(w, failing, daemonSetMode);
  }

  /** No lost wakeup: from any state in which nothing is pending unqueued, over every fair run,
      through install and uninstall, label work or an unseen pool change always has a reconcile
      request queued behind it.
   */
  lemma {:induction false} NoLostWakeup(w: Watch, hs: seq<Happening>, daemonSetMode: bool)
    requires Awake(w) && FairRun(w, hs, daemonSetMode)
    ensures Awake(Watched(w, hs, daemonSetMode))
    decreases |hs|
  {
    hide Happens, Fair, Awake;
    if hs != [] {
      HappeningKeepsAwake(w, hs[0], daemonSetMode);
      NoLostWakeup(Happens(w, hs[0], daemonSetMode), hs[1..], daemonSetMode);
    }
  }
}
