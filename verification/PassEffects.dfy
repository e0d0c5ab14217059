/** What each pass leaves behind: the path it took, the finalizer, the condition and the wait flag,
for every combination of what it met.  From these follows what a user sees: a finished
installation can be deleted, one under way cannot, pods block an uninstall, and in MachineConfig
mode no node is labelled before the finalizer is on.
*/
module PassEffects {
  import opened Labels
  import opened History
  import opened Reconciler
  import opened McoWait

  // ---------------------------------------------------------------- the path

  predicate Extends(h: History, h': History) {
    h' == h || (h'.Then? && Extends(h, h'.past))
  }

  lemma ExtendsLog(h: History, h': History, e: Event)
    requires Extends(h, h')
    ensures Extends(h, Log(h', e))
  {}

  lemma {:induction false} ExtendsEvents(h: History, h': History)
    requires Extends(h, h')
    ensures Events(h) <= Events(h')
  {
    if h' != h {
      ExtendsEvents(h, h'.past);
    }
  }

  lemma DeleteTailExtends(log: History, st: Status, u: Swept, env: Env)
    ensures Extends(log, DeleteUnlabelled(log, st, u, env).log)
  {
    hide Extends, Log;
    assert Extends(log, log) by { SelfExtends(log); }
    ExtendsLog(log, log, Unlabelled(MachineConfigMode));
    var log1 := LogIf(u.changed, log, Unlabelled(MachineConfigMode));
    ExtendsLog(log, log1, PoolSeen(WorkerPool, env.firstPool));
    ExtendsLog(log, Log(log1, PoolSeen(WorkerPool, env.firstPool)), FinalizerRemoved(env.mode));
  }

  lemma InstallTailExtends(log: History, st: Status, u: Swept, env: Env)
    ensures Extends(log, InstallLabelled(log, st, u, env).log)
  {
    hide Extends, Log;
    SelfExtends(log);
    ExtendsLog(log, log, Relabelled(MachineConfigMode));
    var log1 := LogIf(u.changed, log, Relabelled(MachineConfigMode));
    ExtendsLog(log, log1, PoolSeen(KataOcPool, env.firstPool));
    var log2 := LogIf(u.changed, log1, PoolSeen(KataOcPool, env.firstPool));
    var log3 := Log(log2, PoolSeen(KataOcPool, env.secondPool));
    ExtendsLog(log, log2, PoolSeen(KataOcPool, env.secondPool));
    ExtendsLog(log, log3, Published(env.mode));
  }

  lemma SelfExtends(h: History)
    ensures Extends(h, h)
  {}

  lemma DeleteDsTailExtends(log: History, st: Status, u: Swept, env: Env)
    ensures Extends(log, DeleteDsUnlabelled(log, st, u, env).log)
  {
    hide Extends, Log;
    SelfExtends(log);
    ExtendsLog(log, log, Unlabelled(DaemonSetMode));
    ExtendsLog(log, LogIf(u.changed, log, Unlabelled(DaemonSetMode)), FinalizerRemoved(env.mode));
  }

  lemma InstallDsMarkExtends(s: State, env: Env)
    ensures Extends(s.log, InstallDsMark(s, env).log)
  {
    hide Extends, Log, Sweep, PoolInState;
    SelfExtends(s.log);
    ExtendsLog(s.log, s.log, Published(env.mode));
  }

  lemma DeletePathFirst(s: State, env: Env)
    ensures Extends(Log(s.log, DeletePath), DeleteMc(s, env).log)
    ensures Extends(Log(s.log, DeletePath), DeleteDs(s, env).log)
  {
    hide Extends, Log, Sweep, PoolInState, DeleteUnlabelled, DeleteDsUnlabelled;
    var log := Log(s.log, DeletePath);
    SelfExtends(log);
    DeleteTailExtends(log, s.status, Sweep(s.nodes, DropKataOc(s.sel), env.failing), env);
    var st := Status(WithImage(RESET, env.image), s.status.waiting);
    DeleteDsTailExtends(log, st, Sweep(s.nodes, DropKataOcAndState(s.sel), env.failing), env);
  }

  lemma InstallPathFirst(s: State, env: Env)
    ensures Extends(Log(s.log, InstallPath), InstallMc(s, env).log)
  {
    hide Extends, Log, Sweep, InstallLabelled;
    var log := Log(s.log, InstallPath);
    SelfExtends(log);
    InstallTailExtends(log, InstallStatus(s.status, env), Sweep(s.nodes, SyncKataOc(s.sel), env.failing), env);
  }

  lemma InstallDsPathFirst(s: State, env: Env)
    ensures Extends(Log(s.log, InstallPath), InstallDs(s, env).log)
  {
    hide Log, Sweep, InstallDsMark;
    var log, u := Log(s.log, InstallPath), Sweep(s.nodes, SyncKataOc(s.sel), env.failing);
    var log1 := LogIf(u.changed, log, Relabelled(DaemonSetMode));
    var s1 := s.(nodes := u.nodes, finalizer := true, log := log1);
    SelfExtends(log);
    ExtendsLog(log, log, Relabelled(DaemonSetMode));
    InstallDsMarkExtends(s1, env);
    ExtendsThrough(log, log1, InstallDsMark(s1, env).log);
  }

  lemma {:induction false} ExtendsThrough(h: History, h': History, h'': History)
    requires Extends(h, h') && Extends(h', h'')
    ensures Extends(h, h'')
  {
    if h'' != h' {
      ExtendsThrough(h, h', h''.past);
    }
  }

  /** A pass takes the delete path exactly when deletion was requested and the persisted condition
      is not InProgress=True for Installing or Updating, and records that before anything else.
   */
  lemma PathTakenExactlyWhen(s: State, env: Env)
    requires s.present
    ensures var c := s.status.cond;
            var ready := c != InProgress(CondTrue, Installing) && c != InProgress(CondTrue, Updating);
            Events(s.log) + [if s.deleting && ready then DeletePath else InstallPath] <= Events(Pass(s, env).log)
  {
    hide Extends, DeleteMc, DeleteDs, InstallMc, InstallDs;
    DeletePathFirst(s, env);
    InstallPathFirst(s, env);
    InstallDsPathFirst(s, env);
    var path := if TakesDelete(s) then DeletePath else InstallPath;
    ExtendsEvents(Log(s.log, path), Pass(s, env).log);
    assert Events(Log(s.log, path)) == Events(s.log) + [path];
  }

  // ---------------------------------------------------------------- MachineConfig install

  /** Finished before and busy now is an update; other conditions stay. */
  function Busied(c: Condition): Condition {
    if c.InProgress? && c.status == CondFalse then InProgress(CondTrue, Updating) else c
  }

  /** The condition once the MachineConfig is there. */
  function Begun(s: State, env: Env): Condition {
    if env.mc == McCreated then InProgress(CondTrue, Installing) else s.status.cond
  }

  lemma InstallTailLeaves(log: History, st: Status, u: Swept, env: Env)
    ensures var d := InstallLabelled(log, st, u, env);
            && !d.gone
            && (u.failed ==> d.saved && d.st == st)
            && (!u.failed && !env.afterLabelsOk ==> !d.saved)
            && (!u.failed && env.afterLabelsOk && env.secondPool == PoolUpdating ==>
                  && d.saved && !d.st.waiting
                  && d.st.cond == (if env.degraded then InProgress(CondTrue, Failed) else Busied(st.cond)))
            && (!u.failed && env.afterLabelsOk && env.secondPool != PoolUpdating ==>
                  if st.waiting || (u.changed && env.firstPool != PoolUpdating) then
                    d.saved && d.st == Status(st.cond, true)
                  else
                    && (d.saved <==> env.post != PostError)
                    && (env.post == PostDone ==> d.st == Status(InProgress(CondFalse, NoReason), false))
                    && (env.post == PostImagePending ==>
                          d.st == Status(InProgress(CondTrue, PodVm(JobRunning)), false)))
  {
    hide Log;
  }

  /** What a MachineConfig install pass keeps, and the finalizer. */
  lemma InstallFrame(s: State, env: Env)
    requires env.mode == MachineConfigMode
    ensures var r := InstallMc(s, env);
            && r.present == s.present && r.deleting == s.deleting && r.sel == s.sel
            && r.installDs == s.installDs && r.uninstallDs == s.uninstallDs
            && (r.finalizer <==> s.finalizer || env.preflightOk)
            && (!InstallStarts(env) ==> r.nodes == s.nodes && r.status == s.status)
            && (!env.statusWriteOk ==> r.status == s.status)
  {
    hide InstallLabelled, Sweep, Log;
    var u := Sweep(s.nodes, SyncKataOc(s.sel), env.failing);
    InstallTailLeaves(Log(s.log, InstallPath), InstallStatus(s.status, env), u, env);
  }

  lemma InstallStatusIs(s: State, env: Env)
    requires env.mode == MachineConfigMode && InstallStarts(env) && env.statusWriteOk
    ensures var u := Sweep(s.nodes, SyncKataOc(s.sel), env.failing);
            var d := InstallLabelled(Log(s.log, InstallPath), Status(Begun(s, env), s.status.waiting), u, env);
            InstallMc(s, env).status == if d.saved then d.st else s.status
  {
    hide InstallLabelled, Sweep, Log;
  }

  /** The status a MachineConfig install pass leaves if it does not get to publish. */
  lemma InstallLeaves(s: State, env: Env)
    requires env.mode == MachineConfigMode && InstallStarts(env) && env.statusWriteOk && !PublicationDue(s, env)
    ensures var r, begun := InstallMc(s, env), Begun(s, env);
            if Trips(s.nodes, SyncKataOc(s.sel), env.failing) then r.status == Status(begun, s.status.waiting)
            else if !env.afterLabelsOk then r.status == s.status
            else if env.secondPool != PoolUpdating then r.status == Status(begun, true)
            else
              && !r.status.waiting
              && r.status.cond == (if env.degraded then InProgress(CondTrue, Failed) else Busied(begun))
  {
    hide InstallMc, InstallLabelled, Sweep, Log, Work, Trips;
    var u := Sweep(s.nodes, SyncKataOc(s.sel), env.failing);
    SweepReport(s.nodes, SyncKataOc(s.sel), env.failing);
    InstallStatusIs(s, env);
    InstallTailLeaves(Log(s.log, InstallPath), Status(Begun(s, env), s.status.waiting), u, env);
  }

  /** And if it does. */
  lemma PublicationLeaves(s: State, env: Env)
    requires env.mode == MachineConfigMode && PublicationDue(s, env) && env.statusWriteOk
    ensures InstallMc(s, env).status ==
            match env.post
            case PostError => s.status
            case PostDone => Status(InProgress(CondFalse, NoReason), false)
            case PostImagePending => Status(InProgress(CondTrue, PodVm(JobRunning)), false)
  {
    hide InstallMc, InstallLabelled, Sweep, Log, Work, Trips;
    var u := Sweep(s.nodes, SyncKataOc(s.sel), env.failing);
    SweepReport(s.nodes, SyncKataOc(s.sel), env.failing);
    InstallStatusIs(s, env);
    InstallTailLeaves(Log(s.log, InstallPath), Status(Begun(s, env), s.status.waiting), u, env);
  }

  /** A finished installation can be deleted: the reset condition lets the next pass take the delete path. */
  lemma FinishedInstallCanBeDeleted(s: State, env: Env)
    requires s.present && !TakesDelete(s) && env.mode == MachineConfigMode && env.statusWriteOk
    requires PublicationDue(s, env) && env.post == PostDone
    ensures TakesDelete(Do(Pass(s, env), RequestDeletion)) && Do(Pass(s, env), RequestDeletion).present
  {
    hide InstallMc;
    InstallFrame(s, env);
    PublicationLeaves(s, env);
  }

  /** One that has begun and is not finished cannot: a later deletion waits, unless a node is degraded. */
  lemma UnfinishedInstallHoldsDeletion(s: State, env: Env)
    requires s.present && !TakesDelete(s) && env.mode == MachineConfigMode && env.statusWriteOk
    requires InstallStarts(env) && env.mc == McCreated && !PublicationDue(s, env)
    requires || Trips(s.nodes, SyncKataOc(s.sel), env.failing)
             || (env.afterLabelsOk && (env.secondPool == PoolUpdating ==> !env.degraded))
    ensures !TakesDelete(Do(Pass(s, env), RequestDeletion)) && Do(Pass(s, env), RequestDeletion).present
  {
    hide InstallMc, Work, Trips;
    InstallFrame(s, env);
    InstallLeaves(s, env);
  }

  /** Nor can one whose pool is updating again. */
  lemma UpdateHoldsDeletion(s: State, env: Env)
    requires s.present && !TakesDelete(s) && env.mode == MachineConfigMode && env.statusWriteOk
    requires InstallStarts(env) && !Trips(s.nodes, SyncKataOc(s.sel), env.failing) && env.afterLabelsOk
    requires env.secondPool == PoolUpdating && !env.degraded
    requires s.status.cond.InProgress? && s.status.cond.status == CondFalse
    ensures !TakesDelete(Do(Pass(s, env), RequestDeletion)) && Do(Pass(s, env), RequestDeletion).present
  {
    hide InstallMc, Work, Trips;
    InstallFrame(s, env);
    InstallLeaves(s, env);
  }

  // ---------------------------------------------------------------- MachineConfig uninstall

  /** The condition once nothing has to be waited for: reset, or what the image deletion says. */
  function Cleared(image: ImageCond): Condition {
    if image.PodVmCond? then InProgress(image.istatus, PodVm(image.ireason))
    else InProgress(CondFalse, NoReason)
  }

  lemma DeleteTailLeaves(log: History, st: Status, u: Swept, env: Env)
    ensures var d := DeleteUnlabelled(log, st, u, env);
            && d.saved
            && (u.failed ==> d.st == st && !d.gone)
            && (!u.failed && !env.afterLabelsOk ==>
                  d.st == Status(InProgress(CondTrue, Uninstalling), st.waiting) && !d.gone)
            && (!u.failed && env.afterLabelsOk && env.firstPool == PoolUpdating ==>
                  !d.gone && d.st == Status(InProgress(CondTrue, if env.degraded then Failed else Uninstalling), false))
            && (!u.failed && env.afterLabelsOk && env.firstPool != PoolUpdating ==>
                  if st.waiting || u.changed then !d.gone && d.st == Status(InProgress(CondTrue, Uninstalling), true)
                  else
                    && (d.gone <==> env.cleanupOk && env.finalizerWriteOk)
                    && d.st == Status(Cleared(env.image), false))
  {
    hide Log;
  }

  /** What a MachineConfig delete pass leaves, case by case.  With kata pods around it changes nothing
      but the condition.
   */
  lemma DeleteLeaves(s: State, env: Env)
    requires s.present && env.mode == MachineConfigMode
    ensures var r := DeleteMc(s, env);
            var unlabelled := DeleteStarts(s, env) && !Trips(s.nodes, DropKataOc(s.sel), env.failing);
            && r.deleting == s.deleting && r.sel == s.sel
            && r.installDs == s.installDs && r.uninstallDs == s.uninstallDs
            && (r.finalizer == (s.finalizer && r.present))
            && (!DeleteStarts(s, env) ==> r.nodes == s.nodes && r.present)
            && (!env.preflightOk || !env.statusWriteOk ==> r.status == s.status)
            && (env.statusWriteOk && env.preflightOk && s.finalizer && env.kataPods ==>
                  r.status == Status(InProgress(CondFalse, BlockedByExistingKataPods), s.status.waiting))
            && (DeleteStarts(s, env) && !unlabelled ==> r.present && r.status == s.status)
            && (env.statusWriteOk && unlabelled && !env.afterLabelsOk ==>
                  r.status == Status(InProgress(CondTrue, Uninstalling), s.status.waiting))
            && (env.statusWriteOk && unlabelled && env.afterLabelsOk && env.firstPool == PoolUpdating ==>
                  r.status == Status(InProgress(CondTrue, if env.degraded then Failed else Uninstalling), false))
            && (env.statusWriteOk && unlabelled && env.afterLabelsOk && env.firstPool != PoolUpdating
                && (s.status.waiting || Work(s.nodes, DropKataOc(s.sel))) ==>
                  r.present && r.status == Status(InProgress(CondTrue, Uninstalling), true))
            && (env.statusWriteOk && unlabelled && env.afterLabelsOk && env.firstPool != PoolUpdating
                && !s.status.waiting && !Work(s.nodes, DropKataOc(s.sel)) ==>
                  r.status == Status(Cleared(env.image), false))
  {
    hide DeleteUnlabelled, Sweep, Log, Work, Trips;
    var e := DropKataOc(s.sel);
    SweepReport(s.nodes, e, env.failing);
    DeleteTailLeaves(Log(s.log, DeletePath), s.status, Sweep(s.nodes, e, env.failing), env);
  }

  // ---------------------------------------------------------------- labels and the finalizer

  /** As long as the object is there, nodes labelled in MachineConfig mode are under the finalizer. */
  predicate Covered(s: State) {
    s.present && Happened(s.log, Relabelled(MachineConfigMode)) ==> s.finalizer
  }

  lemma DeleteTailQuiet(log: History, st: Status, u: Swept, env: Env)
    ensures var e := Relabelled(MachineConfigMode);
            Happened(DeleteUnlabelled(log, st, u, env).log, e) == Happened(log, e)
  {
    hide Happened, Log;
    var e := Relabelled(MachineConfigMode);
    HappenedLog(log, Unlabelled(MachineConfigMode), e);
    var log1 := LogIf(u.changed, log, Unlabelled(MachineConfigMode));
    var log2 := Log(log1, PoolSeen(WorkerPool, env.firstPool));
    HappenedLog(log1, PoolSeen(WorkerPool, env.firstPool), e);
    HappenedLog(log2, FinalizerRemoved(env.mode), e);
  }

  lemma DeleteDsTailQuiet(log: History, st: Status, u: Swept, env: Env)
    ensures var e := Relabelled(MachineConfigMode);
            Happened(DeleteDsUnlabelled(log, st, u, env).log, e) == Happened(log, e)
  {
    hide Happened, Log;
    var e := Relabelled(MachineConfigMode);
    HappenedLog(log, Unlabelled(DaemonSetMode), e);
    HappenedLog(LogIf(u.changed, log, Unlabelled(DaemonSetMode)), FinalizerRemoved(env.mode), e);
  }

  lemma DeleteCovers(s: State, env: Env)
    requires Covered(s) && s.present
    ensures Covered(DeleteMc(s, env)) && Covered(DeleteDs(s, env))
  {
    hide Happened, Log, Sweep, PoolInState, DeleteUnlabelled, DeleteDsUnlabelled;
    var log := Log(s.log, DeletePath);
    HappenedLog(s.log, DeletePath, Relabelled(MachineConfigMode));
    DeleteTailQuiet(log, s.status, Sweep(s.nodes, DropKataOc(s.sel), env.failing), env);
    var st := Status(WithImage(RESET, env.image), s.status.waiting);
    DeleteDsTailQuiet(log, st, Sweep(s.nodes, DropKataOcAndState(s.sel), env.failing), env);
  }

  lemma InstallDsMarkCovers(s: State, env: Env)
    requires s.finalizer
    ensures Covered(InstallDsMark(s, env))
  {
    hide Happened, Log, Sweep, PoolInState, PostInstall;
    assert !PostInstall(s.log, s.status, env).gone by { PostNotGone(s.log, s.status, env); }
    PostNotGone(s.log, SetCond(s.status, InProgress(CondTrue, Installing)), env);
  }

  lemma PostNotGone(log: History, st: Status, env: Env)
    ensures !PostInstall(log, st, env).gone
  {}

  lemma InstallMcCovers(s: State, env: Env)
    requires Covered(s) && s.present
    ensures Covered(InstallMc(s, env))
  {
    hide Happened, Log, Sweep, InstallLabelled;
    var u := Sweep(s.nodes, SyncKataOc(s.sel), env.failing);
    HappenedLog(s.log, InstallPath, Relabelled(MachineConfigMode));
    InstallTailLeaves(Log(s.log, InstallPath), InstallStatus(s.status, env), u, env);
  }

  lemma InstallDsCovers(s: State, env: Env)
    requires Covered(s) && s.present
    ensures Covered(InstallDs(s, env))
  {
    hide Happened, Log, Sweep, InstallDsMark;
    var e, u := Relabelled(MachineConfigMode), Sweep(s.nodes, SyncKataOc(s.sel), env.failing);
    var log := Log(s.log, InstallPath);
    HappenedLog(s.log, InstallPath, e);
    HappenedLog(log, Relabelled(DaemonSetMode), e);
    var log1 := LogIf(u.changed, log, Relabelled(DaemonSetMode));
    InstallDsMarkCovers(s.(nodes := u.nodes, finalizer := true, log := log1), env);
  }

  lemma {:induction false} RunCovered(s: State, steps: seq<Step>)
    requires s.log == Start
    ensures Covered(Run(s, steps))
  {
    if steps != [] {
      var prev, step := Run(s, steps[..|steps| - 1]), steps[|steps| - 1];
      RunCovered(s, steps[..|steps| - 1]);
      if prev.present && step.Reconcile? {
        DeleteCovers(prev, step.env);
        InstallMcCovers(prev, step.env);
        InstallDsCovers(prev, step.env);
      }
    }
  }

  /** In MachineConfig mode no label outlives its KataConfig unnoticed: in every run, once a pass has
      labelled a node, a deletion request leaves the object there for the delete passes to work on.
   */
  lemma LabelledNodesHoldTheObject(s: State, steps: seq<Step>)
    requires s.log == Start
    requires var r := Run(s, steps); r.present && Happened(r.log, Relabelled(MachineConfigMode))
    ensures Do(Run(s, steps), RequestDeletion).present
  {
    RunCovered(s, steps);
  }

  /** In DaemonSet mode the labels come before the finalizer: a pass leaves changed labels without the
      finalizer, so that a deletion request removes the object at once, exactly when it changed
      labels on an object without finalizer and then a label write or a call up to the finalizer failed.
   */
  lemma DaemonSetLabelsUnguardedExactlyWhen(s: State, env: Env)
    requires s.present && env.mode == DaemonSetMode
    ensures var r, u := InstallDs(s, env), Sweep(s.nodes, SyncKataOc(s.sel), env.failing);
            u.changed && env.preflightOk && !Do(r, RequestDeletion).present <==>
            && !s.finalizer && env.preflightOk && u.changed
            && (Trips(s.nodes, SyncKataOc(s.sel), env.failing) || !env.finalizerWriteOk)
  {
    hide Log, Sweep, Trips, InstallDsMark;
    var u := Sweep(s.nodes, SyncKataOc(s.sel), env.failing);
    SweepReport(s.nodes, SyncKataOc(s.sel), env.failing);
    var log1 := LogIf(u.changed, Log(s.log, InstallPath), Relabelled(DaemonSetMode));
    InstallDsMarkKeeps(s.(nodes := u.nodes, finalizer := true, log := log1), env);
  }

  lemma InstallDsMarkKeeps(s: State, env: Env)
    ensures var r := InstallDsMark(s, env);
            && r.present == s.present && r.finalizer == s.finalizer
            && r.deleting == s.deleting && r.sel == s.sel && r.installDs
  {
    hide Log, Sweep, PoolInState;
  }
}
