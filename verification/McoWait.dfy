/** The operator never outruns the Machine Config Operator (MachineConfig mode).

Two guards carry the proofs.  A label removal the worker pool has not answered yet is
remembered either by the persisted wait flag or by a selected node that still has its
label; a label change of an install pass is remembered by the flag or by a worker that is
still out of date.  An interrupted pass persists no flag, but leaves the failing node, so
the next pass finds work, reports a change, and sets the flag then.

Each guard survives a pass exactly when the pass does not forget (`ForgetsRemoval`,
`ForgetsChange`), and a run in which no pass forgets waits as it should.
*/
module McoWait {
  import opened Labels
  import opened History
  import opened Reconciler
  import opened OneWayDoor

  predicate RemovalGuard(s: State) {
    s.present && View(s.log, UNINSTALL).owed ==>
      Deleted(s.log) && (s.status.waiting || Work(s.nodes, DropKataOc(s.sel)))
  }

  predicate ChangeGuard(s: State) {
    View(s.log, INSTALL).owed && !TakesDelete(s) ==>
      s.status.waiting || Work(s.nodes, SyncKataOc(s.sel))
  }

  /** A delete pass that removes the last labels and then forgets that it did: either it
      returned on a MachineConfig read error before setting the flag, or it saw the pool idle
      and could not write the status.
   */
  predicate ForgetsRemoval(s: State, env: Env) {
    && DeleteStarts(s, env)
    && Work(s.nodes, DropKataOc(s.sel)) && !Trips(s.nodes, DropKataOc(s.sel), env.failing)
    && !s.status.waiting
    && (!env.afterLabelsOk || (env.firstPool != PoolUpdating && !env.statusWriteOk))
  }

  /** An install pass that completes the labels and then forgets that it did: both pool reads
      missed the update, and it returned on a kata-oc pool error or could not write the status.
   */
  predicate ForgetsChange(s: State, env: Env) {
    && InstallStarts(env)
    && Work(s.nodes, SyncKataOc(s.sel)) && !Trips(s.nodes, SyncKataOc(s.sel), env.failing)
    && !s.status.waiting && env.firstPool != PoolUpdating
    && (!env.afterLabelsOk || (env.secondPool != PoolUpdating && !env.statusWriteOk))
  }

  // ---------------------------------------------------------------- uninstall

  /** What a delete pass does once unlabelNodes has returned, in terms of what it found. */
  lemma DeleteTail(log: History, st: Status, u: Swept, env: Env)
    requires env.mode == MachineConfigMode
    ensures var d, v := DeleteUnlabelled(log, st, u, env), View(log, UNINSTALL);
            && View(d.log, UNINSTALL).owed
                == ((v.owed || u.changed) && (u.failed || !env.afterLabelsOk || env.firstPool != PoolUpdating))
            && (v.waited && (v.owed ==> st.waiting || u.changed || u.failed) ==> View(d.log, UNINSTALL).waited)
            && d.saved
            && (!d.gone && View(d.log, UNINSTALL).owed ==>
                  d.st.waiting == (st.waiting || (!u.failed && env.afterLabelsOk && (u.changed || st.waiting))))
  {}

  /** The guard survives a delete pass exactly when the pass does not forget. */
  lemma DeleteKeepsGuard(s: State, env: Env)
    requires s.present && env.mode == MachineConfigMode && RemovalGuard(s)
    ensures RemovalGuard(DeleteMc(s, env)) <==> !ForgetsRemoval(s, env)
  {
    var e := DropKataOc(s.sel);
    SweepReport(s.nodes, e, env.failing);
    if !Trips(s.nodes, e, env.failing) {
      DropDone(s.nodes, s.sel, env.failing);
    }
    DeleteTail(Log(s.log, DeletePath), s.status, Sweep(s.nodes, e, env.failing), env);
  }

  /** Behind the guard, a delete pass removes the finalizer only after the wait. */
  lemma DeleteWaits(s: State, env: Env)
    requires s.present && env.mode == MachineConfigMode && RemovalGuard(s) && View(s.log, UNINSTALL).waited
    ensures View(DeleteMc(s, env).log, UNINSTALL).waited
  {
    SweepReport(s.nodes, DropKataOc(s.sel), env.failing);
    DeleteTail(Log(s.log, DeletePath), s.status, Sweep(s.nodes, DropKataOc(s.sel), env.failing), env);
  }

  /** A delete pass publishes nothing. */
  lemma DeletePublishesNothing(s: State, env: Env)
    requires View(s.log, INSTALL).waited
    ensures View(DeleteMc(s, env).log, INSTALL).waited
  {
    var u := Sweep(s.nodes, DropKataOc(s.sel), env.failing);
    var log0 := Log(s.log, DeletePath);
    var log1 := LogIf(u.changed, log0, Unlabelled(MachineConfigMode));
    var log2 := Log(log1, PoolSeen(WorkerPool, env.firstPool));
    assert DeleteUnlabelled(log0, s.status, u, env).log in {log1, log2, Log(log2, FinalizerRemoved(env.mode))};
  }

  // ---------------------------------------------------------------- install

  /** Once updateNodeLabels has returned, the pass publishes only when nothing is owed. */
  lemma InstallTail(log: History, st: Status, u: Swept, env: Env)
    requires env.mode == MachineConfigMode
    requires View(log, INSTALL).waited && (View(log, INSTALL).owed ==> st.waiting || u.changed || u.failed)
    ensures View(InstallLabelled(log, st, u, env).log, INSTALL).waited
  {
    var log1 := LogIf(u.changed, log, Relabelled(MachineConfigMode));
    var log2 := LogIf(u.changed, log1, PoolSeen(KataOcPool, env.firstPool));
    assert !u.failed && env.afterLabelsOk ==>
             InstallLabelled(log, st, u, env)
                 == InstallWait(log2, Status(st.cond, st.waiting || (u.changed && env.firstPool != PoolUpdating)), env);
  }

  /** A pass that completed the labels and does not forget leaves the flag up while the change is owed. */
  lemma InstallTailFlag(log: History, st: Status, u: Swept, env: Env)
    requires View(log, INSTALL).owed ==> st.waiting || u.changed
    requires !u.failed
    requires u.changed && !st.waiting && env.firstPool != PoolUpdating ==>
               env.afterLabelsOk && (env.secondPool == PoolUpdating || env.statusWriteOk)
    ensures var d := InstallLabelled(log, st, u, env);
            View(d.log, INSTALL).owed ==> if d.saved && env.statusWriteOk then d.st.waiting else st.waiting
  {}

  /** A pass that was interrupted leaves the flag as it was. */
  lemma InstallTailFailed(log: History, st: Status, u: Swept, env: Env)
    requires u.failed
    ensures var d := InstallLabelled(log, st, u, env);
            d == Return(LogIf(u.changed, log, Relabelled(MachineConfigMode)), st)
  {}

  /** An install pass that does not forget keeps the guard. */
  lemma InstallKeepsGuard(s: State, env: Env)
    requires env.mode == MachineConfigMode && ChangeGuard(s) && !TakesDelete(s)
    requires !ForgetsChange(s, env)
    ensures ChangeGuard(InstallMc(s, env))
  {
    if InstallStarts(env) {
      var e, log, st := SyncKataOc(s.sel), Log(s.log, InstallPath), InstallStatus(s.status, env);
      var u := Sweep(s.nodes, e, env.failing);
      SweepReport(s.nodes, e, env.failing);
      if u.failed {
        InstallTailFailed(log, st, u, env);
      } else {
        InstallTailFlag(log, st, u, env);
      }
    }
  }

  /** And one that forgets breaks it, if the selector is stable: the condition is exact. */
  lemma ForgettingBreaksGuard(s: State, env: Env)
    requires env.mode == MachineConfigMode && !TakesDelete(s) && Stable(s.sel)
    requires ForgetsChange(s, env)
    ensures !ChangeGuard(InstallMc(s, env))
  {
    var e, u := SyncKataOc(s.sel), Sweep(s.nodes, SyncKataOc(s.sel), env.failing);
    SweepReport(s.nodes, e, env.failing);
    SyncDone(s.nodes, s.sel, env.failing);
    InstallForgets(Log(s.log, InstallPath), InstallStatus(s.status, env), u, env);
  }

  /** Behind the guard, an install pass publishes only after the wait. */
  lemma InstallWaits(s: State, env: Env)
    requires env.mode == MachineConfigMode && ChangeGuard(s) && !TakesDelete(s) && View(s.log, INSTALL).waited
    ensures View(InstallMc(s, env).log, INSTALL).waited
  {
    if InstallStarts(env) {
      var e := SyncKataOc(s.sel);
      SweepReport(s.nodes, e, env.failing);
      InstallTail(Log(s.log, InstallPath), InstallStatus(s.status, env), Sweep(s.nodes, e, env.failing), env);
    }
  }

  predicate SameRemoval(log: History, log': History) {
    var v, v' := View(log, UNINSTALL), View(log', UNINSTALL);
    v'.owed == v.owed && v'.waited == v.waited
  }

  lemma InstallTailRemoval(log0: History, st: Status, u: Swept, env: Env)
    ensures SameRemoval(log0, InstallLabelled(log0, st, u, env).log)
  {
    var log1 := LogIf(u.changed, log0, Relabelled(MachineConfigMode));
    var log2 := LogIf(u.changed, log1, PoolSeen(KataOcPool, env.firstPool));
    var log3 := Log(log2, PoolSeen(KataOcPool, env.secondPool));
    assert InstallLabelled(log0, st, u, env).log in {log1, log2, log3, Log(log3, Published(env.mode))};
  }

  /** An install pass removes no label that uninstall has to answer for, and no finalizer. */
  lemma InstallRemovesNothing(s: State, env: Env)
    ensures SameRemoval(s.log, InstallMc(s, env).log)
  {
    var log, u := Log(s.log, InstallPath), Sweep(s.nodes, SyncKataOc(s.sel), env.failing);
    var d := InstallLabelled(log, InstallStatus(s.status, env), u, env);
    assert InstallMc(s, env).log == if InstallStarts(env) then d.log else log;
    InstallTailRemoval(log, InstallStatus(s.status, env), u, env);
  }

  // ---------------------------------------------------------------- runs

  /** The failure model: node writes may fail at any node in any pass; no pass forgets; and while
      an unanswered label change is remembered by outstanding work only, nobody else does all of
      that work for the operator.
   */
  predicate Careful(s: State, step: Step) {
    match step
    case Reconcile(env) =>
      env.mode == MachineConfigMode && if TakesDelete(s) then !ForgetsRemoval(s, env) else !ForgetsChange(s, env)
    case RequestDeletion => true
    case Edit(sel, ns) =>
      && (View(s.log, UNINSTALL).owed && !s.status.waiting ==> Work(ns, DropKataOc(sel)))
      && (View(s.log, INSTALL).owed && !s.status.waiting && !TakesDelete(s) ==> Work(ns, SyncKataOc(sel)))
  }

  predicate CarefulRun(s: State, steps: seq<Step>) {
    steps == [] ||
    (CarefulRun(s, steps[..|steps| - 1]) && Careful(Run(s, steps[..|steps| - 1]), steps[|steps| - 1]))
  }

  /** The invariant of careful runs. */
  predicate Guarded(s: State) {
    && DoorShut(s) && RemovalGuard(s) && ChangeGuard(s)
    && View(s.log, UNINSTALL).waited && View(s.log, INSTALL).waited
  }

  lemma PassGuarded(s: State, env: Env)
    requires s.present && Guarded(s) && Careful(s, Reconcile(env))
    ensures Guarded(Pass(s, env))
  {
    StepShuts(s, Reconcile(env));
    if TakesDelete(s) {
      DeleteKeepsGuard(s, env);
      DeleteWaits(s, env);
      DeletePublishesNothing(s, env);
      DeletedAfter(s, env);
    } else {
      InstallKeepsGuard(s, env);
      InstallWaits(s, env);
      InstallRemovesNothing(s, env);
    }
  }

  lemma DeletedAfter(s: State, env: Env)
    ensures Deleted(DeleteMc(s, env).log)
  {
    DeletedTail(Log(s.log, DeletePath), s.status, Sweep(s.nodes, DropKataOc(s.sel), env.failing), env);
  }

  lemma DeletedTail(log: History, st: Status, u: Swept, env: Env)
    requires Deleted(log)
    ensures Deleted(DeleteUnlabelled(log, st, u, env).log)
  {}

  lemma EditGuarded(s: State, sel: Selector, ns: seq<Node>)
    requires s.present && Guarded(s) && Careful(s, Step.Edit(sel, ns))
    ensures Guarded(Do(s, Step.Edit(sel, ns)))
  {}

  lemma {:induction false} RunGuarded(s: State, steps: seq<Step>)
    requires s.log == Start && CarefulRun(s, steps)
    ensures Guarded(Run(s, steps))
  {
    if steps != [] {
      var prev, step := Run(s, steps[..|steps| - 1]), steps[|steps| - 1];
      RunGuarded(s, steps[..|steps| - 1]);
      if prev.present {
        match step
        case Reconcile(env) => PassGuarded(prev, env);
        case RequestDeletion =>
        case Edit(sel, ns) => EditGuarded(prev, sel, ns);
      }
    }
  }

  // ---------------------------------------------------------------- what the deciding read showed

  /** The guards on the way to removeFinalizer. */
  predicate RemovalDue(s: State, env: Env) {
    && DeleteStarts(s, env) && !Work(s.nodes, DropKataOc(s.sel)) && env.afterLabelsOk
    && env.firstPool != PoolUpdating && !s.status.waiting && env.cleanupOk && env.finalizerWriteOk
  }

  /** The guards on the way to postKataInstallation. */
  predicate PublicationDue(s: State, env: Env) {
    && InstallStarts(env) && !Trips(s.nodes, SyncKataOc(s.sel), env.failing) && env.afterLabelsOk
    && env.secondPool != PoolUpdating
    && !s.status.waiting && (Work(s.nodes, SyncKataOc(s.sel)) ==> env.firstPool == PoolUpdating)
  }

  lemma DeleteTailIdle(log: History, st: Status, u: Swept, env: Env)
    requires env.mode == MachineConfigMode
    ensures var d := DeleteUnlabelled(log, st, u, env);
            && (d.gone <==> !u.failed && env.afterLabelsOk && env.firstPool != PoolUpdating && !st.waiting && !u.changed
                            && env.cleanupOk && env.finalizerWriteOk)
            && (ActsIdle(d.log, UNINSTALL) <==> ActsIdle(log, UNINSTALL) && !(d.gone && env.firstPool == Unreadable))
            && ActsIdle(d.log, INSTALL) == ActsIdle(log, INSTALL)
  {}

  /** A delete pass removes the finalizer exactly when its guards hold, and then right after an
      idle read exactly when that read did not fail.
   */
  lemma RemovedExactlyWhen(s: State, env: Env)
    requires s.present && env.mode == MachineConfigMode
    ensures !DeleteMc(s, env).present <==> RemovalDue(s, env)
    ensures ActsIdle(DeleteMc(s, env).log, UNINSTALL) <==>
              ActsIdle(s.log, UNINSTALL) && !(RemovalDue(s, env) && env.firstPool == Unreadable)
    ensures ActsIdle(DeleteMc(s, env).log, INSTALL) == ActsIdle(s.log, INSTALL)
  {
    hide ActsIdle, DeleteUnlabelled, Sweep, Log;
    var e := DropKataOc(s.sel);
    SweepReport(s.nodes, e, env.failing);
    Indifferent(s.log, DeletePath, UNINSTALL);
    Indifferent(s.log, DeletePath, INSTALL);
    DeleteTailIdle(Log(s.log, DeletePath), s.status, Sweep(s.nodes, e, env.failing), env);
  }

  lemma InstallTailIdle(log: History, st: Status, u: Swept, env: Env)
    requires env.mode == MachineConfigMode
    ensures var d := InstallLabelled(log, st, u, env);
            && (ActsIdle(d.log, INSTALL) <==>
                  ActsIdle(log, INSTALL) &&
                  !(!u.failed && env.afterLabelsOk && env.secondPool == Unreadable
                    && !st.waiting && (u.changed ==> env.firstPool == PoolUpdating)))
            && ActsIdle(d.log, UNINSTALL) == ActsIdle(log, UNINSTALL)
  {
    var log1 := LogIf(u.changed, log, Relabelled(MachineConfigMode));
    var log2 := LogIf(u.changed, log1, PoolSeen(KataOcPool, env.firstPool));
    assert ActsIdle(log2, INSTALL) == ActsIdle(log1, INSTALL) == ActsIdle(log, INSTALL);
    assert ActsIdle(log2, UNINSTALL) == ActsIdle(log1, UNINSTALL) == ActsIdle(log, UNINSTALL);
  }

  /** The same for publication, with the second pool read. */
  lemma PublishedIdleExactlyWhen(s: State, env: Env)
    requires env.mode == MachineConfigMode
    ensures ActsIdle(InstallMc(s, env).log, INSTALL) <==>
              ActsIdle(s.log, INSTALL) && !(PublicationDue(s, env) && env.secondPool == Unreadable)
    ensures ActsIdle(InstallMc(s, env).log, UNINSTALL) == ActsIdle(s.log, UNINSTALL)
  {
    hide ActsIdle, InstallLabelled, Sweep, Log;
    var e := SyncKataOc(s.sel);
    SweepReport(s.nodes, e, env.failing);
    Indifferent(s.log, InstallPath, UNINSTALL);
    Indifferent(s.log, InstallPath, INSTALL);
    InstallTailIdle(Log(s.log, InstallPath), InstallStatus(s.status, env), Sweep(s.nodes, e, env.failing), env);
  }

  /** A pass acts although the read that decides about it failed. */
  predicate ActsBlindly(s: State, step: Step, p: Protocol) {
    && s.present && step.Reconcile? && step.env.mode == MachineConfigMode
    && if TakesDelete(s) then p == UNINSTALL && RemovalDue(s, step.env) && step.env.firstPool == Unreadable
       else p == INSTALL && PublicationDue(s, step.env) && step.env.secondPool == Unreadable
  }

  predicate NeverBlind(s: State, steps: seq<Step>, p: Protocol) {
    steps == [] ||
    (NeverBlind(s, steps[..|steps| - 1], p) && !ActsBlindly(Run(s, steps[..|steps| - 1]), steps[|steps| - 1], p))
  }

  /** Passes in DaemonSet mode read no pool and do not act for this protocol. */
  lemma DaemonSetDeleteIdle(s: State, env: Env, p: Protocol)
    requires env.mode == DaemonSetMode && p in {UNINSTALL, INSTALL}
    ensures ActsIdle(DeleteDs(s, env).log, p) == ActsIdle(s.log, p)
  {
    hide ActsIdle, Sweep, PoolInState, Log, DeleteDsUnlabelled;
    var u := Sweep(s.nodes, DropKataOcAndState(s.sel), env.failing);
    var log, st := Log(s.log, DeletePath), Status(WithImage(RESET, env.image), s.status.waiting);
    assert DeleteDs(s, env).log in {log, DeleteDsUnlabelled(log, st, u, env).log};
    Indifferent(s.log, DeletePath, p);
    DaemonSetTailIdle(log, st, u, env, p);
  }

  lemma DaemonSetTailIdle(log: History, st: Status, u: Swept, env: Env, p: Protocol)
    requires env.mode == DaemonSetMode && p in {UNINSTALL, INSTALL}
    ensures ActsIdle(DeleteDsUnlabelled(log, st, u, env).log, p) == ActsIdle(log, p)
  {
    hide ActsIdle, Log;
    var log1 := LogIf(u.changed, log, Unlabelled(DaemonSetMode));
    Indifferent(log, Unlabelled(DaemonSetMode), p);
    Indifferent(log1, FinalizerRemoved(env.mode), p);
  }

  lemma DaemonSetInstallIdle(s: State, env: Env, p: Protocol)
    requires env.mode == DaemonSetMode && p in {UNINSTALL, INSTALL}
    ensures ActsIdle(InstallDs(s, env).log, p) == ActsIdle(s.log, p)
  {
    hide ActsIdle, InstallDsMark, Sweep, Log;
    var u := Sweep(s.nodes, SyncKataOc(s.sel), env.failing);
    var log := Log(s.log, InstallPath);
    var log1 := LogIf(u.changed, log, Relabelled(DaemonSetMode));
    Indifferent(s.log, InstallPath, p);
    Indifferent(log, Relabelled(DaemonSetMode), p);
    DaemonSetMarkIdle(s.(nodes := u.nodes, finalizer := true, log := log1), env, p);
  }

  lemma DaemonSetMarkIdle(s: State, env: Env, p: Protocol)
    requires env.mode == DaemonSetMode && p in {UNINSTALL, INSTALL}
    ensures ActsIdle(InstallDsMark(s, env).log, p) == ActsIdle(s.log, p)
  {
    hide ActsIdle, Sweep, PoolInState, Log;
    assert InstallDsMark(s, env).log in {s.log, Log(s.log, Published(env.mode))};
    Indifferent(s.log, Published(env.mode), p);
  }

  lemma StepIdle(s: State, step: Step, p: Protocol)
    requires p in {UNINSTALL, INSTALL}
    ensures ActsIdle(Do(s, step).log, p) <==> ActsIdle(s.log, p) && !ActsBlindly(s, step, p)
  {
    hide ActsIdle, DeleteMc, DeleteDs, InstallMc, InstallDs, RemovalDue, PublicationDue;
    if s.present && step.Reconcile? {
      var env := step.env;
      if env.mode == DaemonSetMode {
        DaemonSetDeleteIdle(s, env, p);
        DaemonSetInstallIdle(s, env, p);
      } else if TakesDelete(s) {
        RemovedExactlyWhen(s, env);
      } else {
        PublishedIdleExactlyWhen(s, env);
      }
    }
  }

  /** Over every run, careful or not: each act comes right after a read that showed its pool idle,
      exactly when no pass acts with its deciding read failed.
   */
  lemma {:induction false} ActsIdleExactlyWhen(s: State, steps: seq<Step>, p: Protocol)
    requires s.log == Start && p in {UNINSTALL, INSTALL}
    ensures IdleBefore(Events(Run(s, steps).log), p) <==> NeverBlind(s, steps, p)
  {
    RunIdle(s, steps, p);
    ActsIdleSound(Run(s, steps).log, p);
  }

  lemma {:induction false} RunIdle(s: State, steps: seq<Step>, p: Protocol)
    requires s.log == Start && p in {UNINSTALL, INSTALL}
    ensures ActsIdle(Run(s, steps).log, p) <==> NeverBlind(s, steps, p)
  {
    if steps != [] {
      RunIdle(s, steps[..|steps| - 1], p);
      StepIdle(Run(s, steps[..|steps| - 1]), steps[|steps| - 1], p);
    }
  }

  /** Uninstall never outruns the Machine Config Operator and install publishes no runtime
      class too early: over every careful run, however many passes are interrupted part-way,
      the finalizer is removed only with the worker pool seen updating since the last label
      removal and then no longer, and the runtime classes are published only with the kata-oc
      pool seen updating since the last label change and then no longer.  "No longer" is an idle
      read, provided that no pass acts on a failed one.
   */
  lemma NeverOutrunsMco(s: State, steps: seq<Step>)
    requires s.log == Start && CarefulRun(s, steps)
    ensures Waited(Events(Run(s, steps).log), UNINSTALL)
    ensures Waited(Events(Run(s, steps).log), INSTALL)
    ensures IdleBefore(Events(Run(s, steps).log), UNINSTALL) <==> NeverBlind(s, steps, UNINSTALL)
    ensures IdleBefore(Events(Run(s, steps).log), INSTALL) <==> NeverBlind(s, steps, INSTALL)
  {
    RunGuarded(s, steps);
    ViewSound(Run(s, steps).log, UNINSTALL);
    ViewSound(Run(s, steps).log, INSTALL);
    ActsIdleExactlyWhen(s, steps, UNINSTALL);
    ActsIdleExactlyWhen(s, steps, INSTALL);
  }

  /** A failed pool read passes for idle: with no label work and no wait pending, one clear pass
      whose reads of the pool fail removes the finalizer.
   */
  lemma UnreadablePoolRemovesFinalizer(s: State, env: Env)
    requires s.present && TakesDelete(s) && !s.status.waiting && !Work(s.nodes, DropKataOc(s.sel))
        && Clear(env, Unreadable)
    ensures var r := Pass(s, env);
            !r.present && Careful(s, Reconcile(env)) && !IdleBefore(Events(r.log), UNINSTALL)
  {
    RemovedExactlyWhen(s, env);
    ActsIdleSound(Pass(s, env).log, UNINSTALL);
  }

  /** Likewise for publication. */
  lemma UnreadablePoolPublishes(s: State, env: Env)
    requires s.present && !TakesDelete(s) && !s.status.waiting && !Work(s.nodes, SyncKataOc(s.sel))
        && Clear(env, Unreadable)
    ensures Careful(s, Reconcile(env)) && !IdleBefore(Events(Pass(s, env).log), INSTALL)
  {
    SweepReport(s.nodes, SyncKataOc(s.sel), env.failing);
    PublishedIdleExactlyWhen(s, env);
    ActsIdleSound(Pass(s, env).log, INSTALL);
  }

  // ---------------------------------------------------------------- the failure model is exact

  /** A pass in MachineConfig mode in which every call succeeds and the pool reads as `pool`. */
  predicate Clear(env: Env, pool: Pool) {
    && env.mode == MachineConfigMode && env.preflightOk && env.setupOk && !env.kataPods && env.mc == McKept
    && env.failing == {} && env.afterLabelsOk && env.firstPool == pool && env.secondPool == pool
    && env.cleanupOk && env.finalizerWriteOk && env.statusWriteOk
  }

  /** Forgetting a removal is always fatal: the next clear pass that finds the pool idle removes
      the finalizer although no read ever showed the pool updating.
   */
  lemma ForgettingRemovalIsFatal(s: State, env: Env, next: Env)
    requires s.present && TakesDelete(s) && env.mode == MachineConfigMode
    requires ForgetsRemoval(s, env) && Clear(next, PoolIdle)
    ensures var r := Pass(Pass(s, env), next);
            !r.present && !Waited(Events(r.log), UNINSTALL)
  {
    var e, u := DropKataOc(s.sel), Sweep(s.nodes, DropKataOc(s.sel), env.failing);
    SweepReport(s.nodes, e, env.failing);
    DropDone(s.nodes, s.sel, env.failing);
    var s1 := Pass(s, env);
    DeleteForgets(Log(s.log, DeletePath), s.status, u, env);
    SweepNoOp(s1.nodes, e, {});
    DeleteFinishes(Log(s1.log, DeletePath), s1.status, next);
    ViewSound(Pass(s1, next).log, UNINSTALL);
  }

  lemma DeleteForgets(log: History, st: Status, u: Swept, env: Env)
    requires u.changed && !u.failed && !st.waiting && !Busy(st.cond)
    requires !env.afterLabelsOk || (env.firstPool != PoolUpdating && !env.statusWriteOk)
    ensures var d := DeleteUnlabelled(log, st, u, env);
            && View(d.log, UNINSTALL).owed && !d.gone && !Busy(d.st.cond)
            && (env.statusWriteOk ==> !d.st.waiting)
  {}

  lemma DeleteFinishes(log: History, st: Status, env: Env)
    requires Clear(env, PoolIdle) && !st.waiting
    ensures var d := DeleteUnlabelled(log, st, Swept([], false, false), env);
            d.gone && View(d.log, UNINSTALL).waited == (View(log, UNINSTALL).waited && !View(log, UNINSTALL).owed)
    ensures forall ns ::
              DeleteUnlabelled(log, st, Swept(ns, false, false), env)
              == DeleteUnlabelled(log, st, Swept([], false, false), env)
  {}

  /** Uninstall finishes: a delete pass whose calls succeed and which finds the worker pool
      updating, followed by one that finds it idle, removes the finalizer.
   */
  lemma UninstallFinishes(s: State, first: Env, second: Env)
    requires s.present && TakesDelete(s)
    requires Clear(first, PoolUpdating) && Clear(second, PoolIdle)
    ensures !Pass(Pass(s, first), second).present
  {
    var e, u := DropKataOc(s.sel), Sweep(s.nodes, DropKataOc(s.sel), {});
    SweepReport(s.nodes, e, {});
    DropDone(s.nodes, s.sel, {});
    var s1 := Pass(s, first);
    DeleteSeesUpdate(Log(s.log, DeletePath), s.status, u, first);
    SweepNoOp(s1.nodes, e, {});
    DeleteFinishes(Log(s1.log, DeletePath), s1.status, second);
  }

  lemma DeleteSeesUpdate(log: History, st: Status, u: Swept, env: Env)
    requires Clear(env, PoolUpdating) && !u.failed
    ensures var d := DeleteUnlabelled(log, st, u, env);
            !d.gone && d.saved && !d.st.waiting && !Busy(d.st.cond)
  {}

  /** The clause on edits is exact too: an edit keeps the guards exactly when it is careful. */
  lemma EditKeepsGuardsExactlyWhen(s: State, sel: Selector, ns: seq<Node>)
    requires s.present && RemovalGuard(s) && ChangeGuard(s)
    ensures var s' := Do(s, Step.Edit(sel, ns));
            RemovalGuard(s') && ChangeGuard(s') <==> Careful(s, Step.Edit(sel, ns))
  {}

  /** An edit that ends the outstanding removal work, say because the last node to unlabel leaves
      the cluster, makes the next clear pass remove the finalizer without the wait.
   */
  lemma LosingRemovalWorkIsFatal(s: State, sel: Selector, ns: seq<Node>, next: Env)
    requires s.present && TakesDelete(s) && View(s.log, UNINSTALL).owed && !s.status.waiting
    requires !Work(ns, DropKataOc(sel)) && Clear(next, PoolIdle)
    ensures var r := Pass(Do(s, Step.Edit(sel, ns)), next);
            !r.present && !Waited(Events(r.log), UNINSTALL)
  {
    var s1 := Do(s, Step.Edit(sel, ns));
    SweepNoOp(ns, DropKataOc(sel), {});
    DeleteFinishes(Log(s1.log, DeletePath), s1.status, next);
    ViewSound(Pass(s1, next).log, UNINSTALL);
  }

  /** And one that ends the outstanding labelling work makes it publish without the wait. */
  lemma LosingLabelWorkIsFatal(s: State, sel: Selector, ns: seq<Node>, next: Env)
    requires s.present && !TakesDelete(s) && View(s.log, INSTALL).owed && !s.status.waiting
    requires !Work(ns, SyncKataOc(sel)) && Clear(next, PoolIdle)
    ensures !Waited(Events(Pass(Do(s, Step.Edit(sel, ns)), next).log), INSTALL)
  {
    var s1 := Do(s, Step.Edit(sel, ns));
    SweepNoOp(ns, SyncKataOc(sel), {});
    InstallPublishes(Log(s1.log, InstallPath), s1.status, s1.nodes, next);
    ViewSound(Pass(s1, next).log, INSTALL);
  }

  /** Forgetting a label change is fatal in the same way: the next clear pass that finds the
      kata-oc pool idle publishes the runtime classes.
   */
  lemma ForgettingChangeIsFatal(s: State, env: Env, next: Env)
    requires s.present && !TakesDelete(s) && env.mode == MachineConfigMode && Stable(s.sel)
    requires ForgetsChange(s, env) && Clear(next, PoolIdle)
    ensures !Waited(Events(Pass(Pass(s, env), next).log), INSTALL)
  {
    var e, u := SyncKataOc(s.sel), Sweep(s.nodes, SyncKataOc(s.sel), env.failing);
    SweepReport(s.nodes, e, env.failing);
    SyncDone(s.nodes, s.sel, env.failing);
    var s1 := Pass(s, env);
    InstallForgets(Log(s.log, InstallPath), InstallStatus(s.status, env), u, env);
    SweepNoOp(s1.nodes, e, {});
    InstallPublishes(Log(s1.log, InstallPath), s1.status, s1.nodes, next);
    ViewSound(Pass(s1, next).log, INSTALL);
  }

  lemma InstallForgets(log: History, st: Status, u: Swept, env: Env)
    requires u.changed && !u.failed && env.firstPool != PoolUpdating
    requires !env.afterLabelsOk || (env.secondPool != PoolUpdating && !env.statusWriteOk)
    ensures var d := InstallLabelled(log, st, u, env);
            View(d.log, INSTALL).owed && !d.gone && !(d.saved && env.statusWriteOk)
  {}

  lemma InstallPublishes(log: History, st: Status, ns: seq<Node>, env: Env)
    requires Clear(env, PoolIdle) && !st.waiting && View(log, INSTALL).owed
    ensures !View(InstallLabelled(log, st, Swept(ns, false, false), env).log, INSTALL).waited
  {}
}
