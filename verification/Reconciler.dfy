/** The KataConfig reconciler on a regular (not converged) cluster, as a step machine.

`State` is what outlives a reconcile: the KataConfig object with its status, the nodes, and
the two install DaemonSets.  A reconcile is one of four passes (install or delete, in
MachineConfig or DaemonSet mode).  Whatever a pass reads from outside, and every call that
may fail, is an input of the pass (`Env`), so a statement over all `Env` covers every
behaviour of the Machine Config Operator and every failure.  `log` records what the passes
did, in order; it is history only, no pass reads it.
*/
module Reconciler {
  import opened Labels
  import opened History

  datatype CondStatus = CondTrue | CondFalse | CondUnknown

  datatype PodVmReason = JobRunning | JobCompleted | JobFailed | JobStatusUnknown | UnsupportedProvider

  datatype Reason =
    | NoReason | Installing | Uninstalling | Updating | Failed | BlockedByExistingKataPods
    | PodVm(podVm: PodVmReason)

  /** The InProgress condition of the KataConfig, absent until first set. */
  datatype Condition = Absent | InProgress(status: CondStatus, reason: Reason)

  const RESET := InProgress(CondFalse, NoReason)

  /** isInstalling() || isUpdating() */
  predicate Busy(c: Condition) {
    c == InProgress(CondTrue, Installing) || c == InProgress(CondTrue, Updating)
  }

  datatype Status = Status(cond: Condition, waiting: bool)

  datatype State = State(
    present: bool,
    deleting: bool,
    finalizer: bool,
    status: Status,
    sel: Selector,
    nodes: seq<Node>,
    installDs: bool,
    uninstallDs: bool,
    log: History)

  datatype McOutcome = McCreated | McKept | McError

  /** What deletePodVMImage leaves in the condition. */
  datatype ImageCond = Untouched | PodVmCond(istatus: CondStatus, ireason: PodVmReason)

  /** How postKataInstallation ends. */
  datatype Post = PostError | PostDone | PostImagePending

  datatype Env = Env(
    mode: Mode,
    preflightOk: bool,        // the calls before anything is changed succeed
    // the calls up to the labels (MachineConfig install) or the DaemonSet (DaemonSet mode) succeed
    setupOk: bool,
    kataPods: bool,           // pods use one of our runtime classes
    mc: McOutcome,
    failing: set<string>,     // nodes whose write fails in updateNodeLabels / unlabelNodes / unlabelNodesDaemonSet
    markFailing: set<string>, // nodes whose write fails in labelNodes
    afterLabelsOk: bool,      // MachineConfig read (delete), kata-oc pool get or create (install)
    firstPool: Pool,
    secondPool: Pool,
    nodesReadable: bool,
    degraded: bool,           // the status update met a Degraded node
    post: Post,
    cleanupOk: bool,          // the clean-up between the wait and removeFinalizer runs through
    image: ImageCond,
    // the write that removes the finalizer; in a DaemonSet install, the calls up to the write that adds it
    finalizerWriteOk: bool,
    statusWriteOk: bool)

  /** What a pass has worked out when it returns: its history, the status in memory, whether
      Reconcile goes on to write that status, and whether the finalizer was removed.
   */
  datatype Draft = Draft(log: History, st: Status, saved: bool, gone: bool)

  /** Return to Reconcile, which writes the status. */
  function Return(log: History, st: Status): Draft {
    Draft(log, st, true, false)
  }

  /** Return an error from an install pass: Reconcile does not write the status. */
  function Bail(log: History, st: Status): Draft {
    Draft(log, st, false, false)
  }

  function SetCond(st: Status, c: Condition): Status {
    Status(c, st.waiting)
  }

  function LogIf(b: bool, log: History, e: Event): History {
    if b then Log(log, e) else log
  }

  function WithImage(c: Condition, image: ImageCond): Condition {
    match image
    case Untouched => c
    case PodVmCond(st, r) => InProgress(st, PodVm(r))
  }

  /** What the status update makes of the condition in MachineConfig mode. */
  function Refreshed(st: Status, env: Env): Status {
    Status(if env.degraded then InProgress(CondTrue, Failed) else st.cond, false)
  }

  /** removeFinalizer: on a KataConfig that is being deleted this makes the object go away. */
  function RemoveFinalizer(log: History, st: Status, env: Env): Draft {
    if env.finalizerWriteOk then Draft(Log(log, FinalizerRemoved(env.mode)), st, true, true) else Return(log, st)
  }

  /** What Reconcile leaves behind. */
  function Commit(s: State, d: Draft, env: Env): State {
    s.(log := d.log,
       status := if d.saved && env.statusWriteOk then d.st else s.status,
       finalizer := s.finalizer && !d.gone,
       present := s.present && !d.gone)
  }

  // ---------------------------------------------------------------- MachineConfig mode

  /** processKataConfigDeleteRequest from the read of the worker pool on. */
  function DeleteWait(log0: History, st: Status, env: Env): Draft {
    var log := Log(log0, PoolSeen(WorkerPool, env.firstPool));
    if env.firstPool != PoolUpdating && st.waiting then Return(log, st)
    else if env.firstPool == PoolUpdating then Return(log, Refreshed(st, env))
    else if !env.cleanupOk then Return(log, Status(WithImage(RESET, env.image), false))
    else RemoveFinalizer(log, Status(WithImage(RESET, env.image), false), env)
  }

  /** From the end of unlabelNodes on. */
  function DeleteUnlabelled(log0: History, st: Status, u: Swept, env: Env): Draft {
    var log := LogIf(u.changed, log0, Unlabelled(MachineConfigMode));
    if u.failed then Return(log, st)
    else if !env.afterLabelsOk then Return(log, SetCond(st, InProgress(CondTrue, Uninstalling)))
    else DeleteWait(log, Status(InProgress(CondTrue, Uninstalling), st.waiting || u.changed), env)
  }

  predicate DeleteStarts(s: State, env: Env) {
    env.preflightOk && !(s.finalizer && env.kataPods)
  }

  function DeleteMc(s: State, env: Env): State {
    var log := Log(s.log, DeletePath);
    if !env.preflightOk then Commit(s, Return(log, s.status), env)
    else if s.finalizer && env.kataPods then
      Commit(s, Return(log, SetCond(s.status, InProgress(CondFalse, BlockedByExistingKataPods))), env)
    else
      var u := Sweep(s.nodes, DropKataOc(s.sel), env.failing);
      Commit(s.(nodes := u.nodes), DeleteUnlabelled(log, s.status, u, env), env)
  }

  /** postKataInstallation: the runtime classes are created here. */
  function PostInstall(log0: History, st: Status, env: Env): Draft {
    var log := Log(log0, Published(env.mode));
    if env.post == PostError then Bail(log, SetCond(st, RESET))
    else if env.post == PostDone then Return(log, SetCond(st, RESET))
    else Return(log, SetCond(st, InProgress(CondTrue, PodVm(JobRunning))))
  }

  /** A finished installation whose pool or nodes are busy again is an update. */
  function MarkUpdating(busy: bool, st: Status): Status {
    if busy && st.cond.InProgress? && st.cond.status == CondFalse
    then SetCond(st, InProgress(CondTrue, Updating)) else st
  }

  /** processKataConfigInstallRequest from the second read of the kata-oc pool on. */
  function InstallWait(log0: History, st0: Status, env: Env): Draft {
    var log := Log(log0, PoolSeen(KataOcPool, env.secondPool));
    var st := MarkUpdating(env.secondPool == PoolUpdating, st0);
    if env.secondPool != PoolUpdating && st.waiting then Return(log, st)
    else if env.secondPool != PoolUpdating then PostInstall(log, Refreshed(st, env), env)
    else Return(log, Refreshed(st, env))
  }

  /** From the end of updateNodeLabels on. */
  function InstallLabelled(log0: History, st: Status, u: Swept, env: Env): Draft {
    var log := LogIf(u.changed, log0, Relabelled(MachineConfigMode));
    if u.failed then Return(log, st)
    else
      var log := LogIf(u.changed, log, PoolSeen(KataOcPool, env.firstPool));
      var st := Status(st.cond, st.waiting || (u.changed && env.firstPool != PoolUpdating));
      if env.afterLabelsOk then InstallWait(log, st, env) else Bail(log, st)
  }

  predicate InstallStarts(env: Env) {
    env.preflightOk && env.setupOk && env.mc != McError
  }

  /** A MachineConfig that was just created starts an installation. */
  function InstallStatus(st: Status, env: Env): Status {
    if env.mc == McCreated then SetCond(st, InProgress(CondTrue, Installing)) else st
  }

  function InstallMc(s: State, env: Env): State {
    var log := Log(s.log, InstallPath);
    if !env.preflightOk then Commit(s, Bail(log, s.status), env)
    else if !env.setupOk || env.mc == McError then Commit(s.(finalizer := true), Bail(log, s.status), env)
    else
      var u := Sweep(s.nodes, SyncKataOc(s.sel), env.failing);
      Commit(s.(finalizer := true, nodes := u.nodes), InstallLabelled(log, InstallStatus(s.status, env), u, env), env)
  }

  // ---------------------------------------------------------------- DaemonSet mode

  /** processKataConfigDeleteRequestDaemonSet from unlabelNodesDaemonSet on. */
  function DeleteDsUnlabelled(log0: History, st: Status, u: Swept, env: Env): Draft {
    var log := LogIf(u.changed, log0, Unlabelled(DaemonSetMode));
    if u.failed then Return(log, st) else RemoveFinalizer(log, st, env)
  }

  /** Once every node of the pool reads "uninstalled". */
  function DeleteDsFinish(s: State, st: Status, env: Env): State {
    if !env.cleanupOk then Commit(s, Return(s.log, st), env)
    else
      var u := Sweep(s.nodes, DropKataOcAndState(s.sel), env.failing);
      Commit(s.(nodes := u.nodes), DeleteDsUnlabelled(s.log, st, u, env), env)
  }

  /** Mark the nodes and let the uninstall DaemonSet work, or see whether it is done. */
  function DeleteDsWait(s: State, st: Status, env: Env): State {
    if !s.uninstallDs then
      var marked := Sweep(s.nodes, SetState(s.sel, "waiting_to_uninstall"), env.markFailing).nodes;
      Commit(s.(uninstallDs := true, nodes := marked), Return(s.log, st), env)
    else if !env.nodesReadable || !PoolInState(s.nodes, "uninstalled") then Commit(s, Return(s.log, st), env)
    else DeleteDsFinish(s, SetCond(st, WithImage(RESET, env.image)), env)
  }

  function DeleteDs(s: State, env: Env): State {
    var log := Log(s.log, DeletePath);
    var st := SetCond(s.status, InProgress(CondTrue, Uninstalling));
    if s.finalizer && env.kataPods then
      Commit(s, Return(log, SetCond(s.status, InProgress(CondFalse, BlockedByExistingKataPods))), env)
    else if !env.preflightOk then Commit(s, Return(log, st), env)
    else if !env.setupOk then Commit(s.(installDs := false), Return(log, st), env)
    else DeleteDsWait(s.(installDs := false, log := log), st, env)
  }

  /** processKataConfigInstallRequestDaemonSet from the check of the nodes' progress on. */
  function InstallDsProgress(log: History, st: Status, installed: bool, env: Env): Draft {
    if !env.nodesReadable then Bail(log, st)
    else if installed then PostInstall(log, st, env)
    else Return(log, MarkUpdating(true, st))
  }

  /** Create the install DaemonSet and mark the nodes, unless it is there. */
  function InstallDsMark(s: State, env: Env): State {
    if s.installDs then Commit(s, InstallDsProgress(s.log, s.status, PoolInState(s.nodes, "installed"), env), env)
    else
      var marked := Sweep(s.nodes, SetState(s.sel, "waiting_to_install"), env.markFailing).nodes;
      var st := SetCond(s.status, InProgress(CondTrue, Installing));
      Commit(s.(installDs := true, nodes := marked),
          InstallDsProgress(s.log, st, PoolInState(marked, "installed"), env), env)
  }

  function InstallDs(s: State, env: Env): State {
    var log := Log(s.log, InstallPath);
    if !env.preflightOk then Commit(s, Bail(log, s.status), env)
    else
      var u := Sweep(s.nodes, SyncKataOc(s.sel), env.failing);
      var log := LogIf(u.changed, log, Relabelled(DaemonSetMode));
      if u.failed || !env.finalizerWriteOk then Commit(s.(nodes := u.nodes), Bail(log, s.status), env)
      else if !env.setupOk then Commit(s.(nodes := u.nodes, finalizer := true), Bail(log, s.status), env)
      else InstallDsMark(s.(nodes := u.nodes, finalizer := true, log := log), env)
  }

  // ---------------------------------------------------------------- steps and runs

  datatype Step =
    | Reconcile(env: Env)
    | RequestDeletion
    | Edit(sel: Selector, nodes: seq<Node>)  // anyone else changes the nodes or the pool selector

  /** Uninstall does not start while an installation or update is under way. */
  predicate TakesDelete(s: State) {
    s.deleting && !Busy(s.status.cond)
  }

  function Pass(s: State, env: Env): State {
    if TakesDelete(s) then
      if env.mode == MachineConfigMode then DeleteMc(s, env) else DeleteDs(s, env)
    else
      if env.mode == MachineConfigMode then InstallMc(s, env) else InstallDs(s, env)
  }

  function Do(s: State, step: Step): State {
    if !s.present then s
    else match step
      case Reconcile(env) => Pass(s, env)
      case RequestDeletion => s.(deleting := true, present := s.finalizer)
      case Edit(sel, ns) => s.(sel := sel, nodes := ns)
  }

  function Run(s: State, steps: seq<Step>): State {
    if steps == [] then s else Do(Run(s, steps[..|steps| - 1]), steps[|steps| - 1])
  }
}
