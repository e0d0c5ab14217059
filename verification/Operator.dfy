/** The reconciler as the object it is: one instance with the KataConfig status in memory,
acting step by step on what the API server holds.  Each method is proved to do exactly what
the corresponding function of `Reconciler` says, so everything proved there about runs holds
of this code.
*/
module Operator {
  import opened Labels
  import opened History
  import opened Reconciler

  class KataConfigReconciler {
    // what the API server holds
    var present: bool
    var deleting: bool
    var finalizer: bool
    var status: Status
    var sel: Selector
    var nodes: seq<Node>
    var installDs: bool
    var uninstallDs: bool
    // r.kataConfig.Status, in memory until it is written
    var mem: Status
    ghost var log: History

    ghost function Snapshot(): State
      reads this
    {
      State(present, deleting, finalizer, status, sel, nodes, installDs, uninstallDs, log)
    }

    /** The state the status write at the end of Reconcile turns this one into. */
    ghost function Written(saved: bool, env: Env): State
      reads this
    {
      Snapshot().(status := if saved && env.statusWriteOk then mem else status)
    }

    /** The object is as the draft of a pass that writes its status has it. */
    ghost predicate Drafted(d: Draft, hadFinalizer: bool, wasPresent: bool)
      reads this
    {
      log == d.log && mem == d.st && d.saved && finalizer == (hadFinalizer && !d.gone)
          && present == (wasPresent && !d.gone)
    }

    /** The same for a pass that may return an error. */
    ghost predicate DraftedOr(err: bool, d: Draft)
      reads this
    {
      log == d.log && mem == d.st && d.saved == !err && !d.gone
    }

    constructor (s: State)
      ensures Snapshot() == s
    {
      present, deleting, finalizer, status := s.present, s.deleting, s.finalizer, s.status;
      sel, nodes, installDs, uninstallDs, log := s.sel, s.nodes, s.installDs, s.uninstallDs, s.log;
      mem := s.status;
    }

    // -------------------------------------------------------------- node label loops

    /** updateNodeLabels */
    method UpdateNodeLabels(failing: set<string>) returns (labelingChanged: bool, err: bool)
      modifies this`nodes
      ensures Swept(nodes, labelingChanged, err) == Sweep(old(nodes), SyncKataOc(sel), failing)
    {
      hide Resumes, Sweep, Matches;
      var list := nodes;
      labelingChanged, err := false, false;
      ResumeStart(list, SyncKataOc(sel), failing);
      assert nodes[..0] == [];
      for i := 0 to |list|
        invariant |nodes| == |list| && nodes[i..] == list[i..] && !err
        invariant Resumes(list, i, SyncKataOc(sel), failing, nodes[..i], labelingChanged)
      {
        ResumeStep(list, i, SyncKataOc(sel), failing, nodes[..i], labelingChanged);
        var node := list[i];
        if ListedWorker(node) {
          var matchesKata := Matches(sel, node.labels);
          var labeled := HasKataOc(node);
          if matchesKata != labeled {
            if matchesKata {
              node := node.(labels := node.labels[KATA_OC := ""]);
            } else {
              node := node.(labels := node.labels - {KATA_OC});
            }
            if node.name in failing {
              assert nodes == nodes[..i] + list[i..];
              return labelingChanged, true;
            }
            nodes := nodes[i := node];
            labelingChanged := true;
          }
        }
        assert nodes[..i + 1] == nodes[..i] + [nodes[i]] && nodes[i + 1..] == list[i + 1..];
      }
      assert nodes == nodes[..|list|];
      ResumeEnd(list, SyncKataOc(sel), failing, nodes, labelingChanged);
    }

    /** unlabelNodes */
    method UnlabelNodes(failing: set<string>) returns (labelingChanged: bool, err: bool)
      modifies this`nodes
      ensures Swept(nodes, labelingChanged, err) == Sweep(old(nodes), DropKataOc(sel), failing)
    {
      hide Resumes, Sweep, Matches;
      var list := nodes;
      labelingChanged, err := false, false;
      ResumeStart(list, DropKataOc(sel), failing);
      assert nodes[..0] == [];
      for i := 0 to |list|
        invariant |nodes| == |list| && nodes[i..] == list[i..] && !err
        invariant Resumes(list, i, DropKataOc(sel), failing, nodes[..i], labelingChanged)
      {
        ResumeStep(list, i, DropKataOc(sel), failing, nodes[..i], labelingChanged);
        var node := list[i];
        if Matches(sel, node.labels) && KATA_OC in node.labels {
          node := node.(labels := node.labels - {KATA_OC});
          if node.name in failing {
            assert nodes == nodes[..i] + list[i..];
            return labelingChanged, true;
          }
          nodes := nodes[i := node];
          labelingChanged := true;
        }
        assert nodes[..i + 1] == nodes[..i] + [nodes[i]] && nodes[i + 1..] == list[i + 1..];
      }
      assert nodes == nodes[..|list|];
      ResumeEnd(list, DropKataOc(sel), failing, nodes, labelingChanged);
    }

    /** unlabelNodesDaemonSet; whether a node was written is history only. */
    method UnlabelNodesDaemonSet(failing: set<string>) returns (err: bool, ghost wrote: bool)
      modifies this`nodes
      ensures Swept(nodes, wrote, err) == Sweep(old(nodes), DropKataOcAndState(sel), failing)
    {
      hide Resumes, Sweep, Matches;
      var list := nodes;
      err, wrote := false, false;
      ResumeStart(list, DropKataOcAndState(sel), failing);
      assert nodes[..0] == [];
      for i := 0 to |list|
        invariant |nodes| == |list| && nodes[i..] == list[i..] && !err
        invariant Resumes(list, i, DropKataOcAndState(sel), failing, nodes[..i], wrote)
      {
        ResumeStep(list, i, DropKataOcAndState(sel), failing, nodes[..i], wrote);
        var node := list[i];
        if Matches(sel, node.labels) && KATA_OC in node.labels {
          node := node.(labels := node.labels - {KATA_OC} - {DS_STATE});
          assert list[i].labels - {KATA_OC} - {DS_STATE} == list[i].labels - {KATA_OC, DS_STATE};
          if node.name in failing {
            assert nodes == nodes[..i] + list[i..];
            return true, wrote;
          }
          nodes := nodes[i := node];
          wrote := true;
        }
        assert nodes[..i + 1] == nodes[..i] + [nodes[i]] && nodes[i + 1..] == list[i + 1..];
      }
      assert nodes == nodes[..|list|];
      ResumeEnd(list, DropKataOcAndState(sel), failing, nodes, wrote);
    }

    /** labelNodes; the callers only log its error. */
    method LabelNodes(state: string, failing: set<string>)
      modifies this`nodes
      ensures nodes == Sweep(old(nodes), SetState(sel, state), failing).nodes
    {
      hide Resumes, Sweep, Matches;
      var list := nodes;
      ghost var wrote := false;
      ResumeStart(list, SetState(sel, state), failing);
      assert nodes[..0] == [];
      for i := 0 to |list|
        invariant |nodes| == |list| && nodes[i..] == list[i..]
        invariant Resumes(list, i, SetState(sel, state), failing, nodes[..i], wrote)
      {
        ResumeStep(list, i, SetState(sel, state), failing, nodes[..i], wrote);
        var node := list[i];
        if Matches(sel, node.labels) {
          if node.name in failing {
            assert nodes == nodes[..i] + list[i..];
            return;
          }
          nodes := nodes[i := node.(labels := node.labels[DS_STATE := state])];
          wrote := true;
        }
        assert nodes[..i + 1] == nodes[..i] + [nodes[i]] && nodes[i + 1..] == list[i + 1..];
      }
      assert nodes == nodes[..|list|];
      ResumeEnd(list, SetState(sel, state), failing, nodes, wrote);
    }

    /** isKataNodePoolInState: count the nodes of the pool that are in the state. */
    method IsKataNodePoolInState(state: string) returns (all: bool)
      ensures all == PoolInState(nodes, state)
    {
      var pool := KataPool(nodes);
      var matched := 0;
      for i := 0 to |pool|
        invariant 0 <= matched <= i
        invariant matched == i <==> forall k :: 0 <= k < i ==> DsState(pool[k]) == state
      {
        if DsState(pool[i]) == state {
          matched := matched + 1;
        }
      }
      all := matched == |pool|;
      KataPoolContents(nodes);
      assert all <==> forall n | n in pool :: DsState(n) == state;
    }

    // -------------------------------------------------------------- MachineConfig mode

    /** processKataConfigDeleteRequest */
    method ProcessDeleteRequest(env: Env)
      requires mem == status && env.mode == MachineConfigMode
      modifies this
      ensures Written(true, env) == DeleteMc(old(Snapshot()), env)
    {
      hide DeleteUnlabelled, Sweep;
      log := Log(log, DeletePath);
      if !env.preflightOk {
        return;
      }
      if finalizer && env.kataPods {
        mem := Status(InProgress(CondFalse, BlockedByExistingKataPods), mem.waiting);
        return;
      }
      var labelingChanged, err := UnlabelNodes(env.failing);
      AfterUnlabelNodes(labelingChanged, err, env);
    }

    /** From the end of unlabelNodes on. */
    method AfterUnlabelNodes(labelingChanged: bool, err: bool, env: Env)
      requires env.mode == MachineConfigMode
      modifies this`log, this`mem, this`finalizer, this`present
      ensures Drafted(DeleteUnlabelled(old(log), old(mem), Swept(nodes, labelingChanged, err), env), old(finalizer),
          old(present))
    {
      log := LogIf(labelingChanged, log, Unlabelled(MachineConfigMode));
      if err {
        return;
      }
      mem := Status(InProgress(CondTrue, Uninstalling), mem.waiting);
      if !env.afterLabelsOk {
        return;
      }
      if labelingChanged {
        mem := Status(mem.cond, true);
      }
      FinishDeleteRequest(env);
    }

    /** From the read of the worker pool on. */
    method FinishDeleteRequest(env: Env)
      requires env.mode == MachineConfigMode
      modifies this`log, this`mem, this`finalizer, this`present
      ensures Drafted(DeleteWait(old(log), old(mem), env), old(finalizer), old(present))
    {
      var isMcoUpdating := env.firstPool == PoolUpdating;
      log := Log(log, PoolSeen(WorkerPool, env.firstPool));
      if !isMcoUpdating && mem.waiting {
        return;
      }
      mem := Status(mem.cond, false);
      if env.degraded {
        mem := Status(InProgress(CondTrue, Failed), mem.waiting);
      }
      if isMcoUpdating {
        return;
      }
      mem := Status(WithImage(RESET, env.image), mem.waiting);
      if !env.cleanupOk {
        return;
      }
      if env.finalizerWriteOk {
        log := Log(log, FinalizerRemoved(env.mode));
        finalizer, present := false, false;
      }
    }

    /** processKataConfigInstallRequest */
    method ProcessInstallRequest(env: Env) returns (err: bool)
      requires mem == status && present && env.mode == MachineConfigMode
      modifies this
      ensures Written(!err, env) == InstallMc(old(Snapshot()), env)
    {
      hide InstallLabelled, Sweep;
      log := Log(log, InstallPath);
      if !env.preflightOk {
        return true;
      }
      finalizer := true;
      if !env.setupOk {
        return true;
      }
      if env.mc == McError {
        return false;
      }
      if env.mc == McCreated {
        mem := Status(InProgress(CondTrue, Installing), mem.waiting);
      }
      var labelingChanged, failed := UpdateNodeLabels(env.failing);
      err := AfterUpdateNodeLabels(labelingChanged, failed, env);
    }

    /** From the end of updateNodeLabels on. */
    method AfterUpdateNodeLabels(labelingChanged: bool, failed: bool, env: Env) returns (err: bool)
      modifies this`log, this`mem
      ensures DraftedOr(err, InstallLabelled(old(log), old(mem), Swept(nodes, labelingChanged, failed), env))
    {
      log := LogIf(labelingChanged, log, Relabelled(MachineConfigMode));
      if failed {
        return false;
      }
      if labelingChanged {
        log := Log(log, PoolSeen(KataOcPool, env.firstPool));
        if env.firstPool != PoolUpdating {
          mem := Status(mem.cond, true);
        }
      }
      if !env.afterLabelsOk {
        return true;
      }
      err := FinishInstallRequest(env);
    }

    /** From the second read of the kata-oc pool on. */
    method FinishInstallRequest(env: Env) returns (err: bool)
      modifies this`log, this`mem
      ensures DraftedOr(err, InstallWait(old(log), old(mem), env))
    {
      var isMcoUpdating := env.secondPool == PoolUpdating;
      log := Log(log, PoolSeen(KataOcPool, env.secondPool));
      if isMcoUpdating && mem.cond.InProgress? && mem.cond.status == CondFalse {
        mem := Status(InProgress(CondTrue, Updating), mem.waiting);
      }
      if !isMcoUpdating && mem.waiting {
        return false;
      }
      mem := Status(mem.cond, false);
      if env.degraded {
        mem := Status(InProgress(CondTrue, Failed), mem.waiting);
      }
      if isMcoUpdating {
        return false;
      }
      err := PostKataInstallation(env);
    }

    /** postKataInstallation */
    method PostKataInstallation(env: Env) returns (err: bool)
      modifies this`log, this`mem
      ensures DraftedOr(err, PostInstall(old(log), old(mem), env))
    {
      log := Log(log, Published(env.mode));
      mem := Status(RESET, mem.waiting);
      match env.post
      case PostError => err := true;
      case PostDone => err := false;
      case PostImagePending =>
        mem := Status(InProgress(CondTrue, PodVm(JobRunning)), mem.waiting);
        err := false;
    }

    // -------------------------------------------------------------- DaemonSet mode

    /** processKataConfigDeleteRequestDaemonSet */
    method ProcessDeleteRequestDaemonSet(env: Env)
      requires mem == status && present && env.mode == DaemonSetMode
      modifies this
      ensures Written(true, env) == DeleteDs(old(Snapshot()), env)
    {
      hide DeleteDsWait;
      log := Log(log, DeletePath);
      if finalizer && env.kataPods {
        mem := Status(InProgress(CondFalse, BlockedByExistingKataPods), mem.waiting);
        return;
      }
      mem := Status(InProgress(CondTrue, Uninstalling), mem.waiting);
      if !env.preflightOk {
        return;
      }
      installDs := false;
      if !env.setupOk {
        return;
      }
      WaitForUninstall(env);
    }

    /** From the uninstall DaemonSet on. */
    method WaitForUninstall(env: Env)
      requires present && env.mode == DaemonSetMode
      modifies this`log, this`mem, this`finalizer, this`present, this`nodes, this`uninstallDs
      ensures Written(true, env) == DeleteDsWait(old(Snapshot()), old(mem), env)
    {
      hide DeleteDsFinish, Sweep, PoolInState;
      var justCreated := !uninstallDs;
      if justCreated {
        uninstallDs := true;
        LabelNodes("waiting_to_uninstall", env.markFailing);
      }
      if !env.nodesReadable {
        return;
      }
      var allUninstalled := IsKataNodePoolInState("uninstalled");
      if justCreated || !allUninstalled {
        return;
      }
      FinishDeleteRequestDaemonSet(env);
    }

    /** Once every node of the pool reads "uninstalled". */
    method FinishDeleteRequestDaemonSet(env: Env)
      requires present && env.mode == DaemonSetMode
      modifies this`log, this`mem, this`finalizer, this`present, this`nodes
      ensures Written(true, env) ==
                DeleteDsFinish(old(Snapshot()), SetCond(old(mem), WithImage(RESET, env.image)), env)
    {
      hide Sweep, WithImage;
      mem := Status(WithImage(RESET, env.image), mem.waiting);
      if !env.cleanupOk {
        return;
      }
      var err, wrote := UnlabelNodesDaemonSet(env.failing);
      log := LogIf(wrote, log, Unlabelled(DaemonSetMode));
      if err {
        return;
      }
      if env.finalizerWriteOk {
        log := Log(log, FinalizerRemoved(env.mode));
        finalizer, present := false, false;
      }
    }

    /** processKataConfigInstallRequestDaemonSet */
    method ProcessInstallRequestDaemonSet(env: Env) returns (err: bool)
      requires mem == status && present && env.mode == DaemonSetMode
      modifies this
      ensures Written(!err, env) == InstallDs(old(Snapshot()), env)
    {
      hide InstallDsMark, Sweep;
      log := Log(log, InstallPath);
      if !env.preflightOk {
        return true;
      }
      var labelingChanged, failed := UpdateNodeLabels(env.failing);
      log := LogIf(labelingChanged, log, Relabelled(DaemonSetMode));
      if failed {
        return false;
      }
      if !env.finalizerWriteOk {
        return true;
      }
      finalizer := true;
      if !env.setupOk {
        return true;
      }
      err := FinishInstallRequestDaemonSet(env);
    }

    /** From the install DaemonSet on. */
    method FinishInstallRequestDaemonSet(env: Env) returns (err: bool)
      requires mem == status && present && finalizer
      modifies this`log, this`mem, this`installDs, this`nodes
      ensures Written(!err, env) == InstallDsMark(old(Snapshot()), env)
    {
      if !installDs {
        installDs := true;
        mem := Status(InProgress(CondTrue, Installing), mem.waiting);
        LabelNodes("waiting_to_install", env.markFailing);
      }
      if !env.nodesReadable {
        return true;
      }
      var allInstalled := IsKataNodePoolInState("installed");
      if !allInstalled && mem.cond.InProgress? && mem.cond.status == CondFalse {
        mem := Status(InProgress(CondTrue, Updating), mem.waiting);
      }
      if allInstalled {
        err := PostKataInstallation(env);
      } else {
        err := false;
      }
    }

    // -------------------------------------------------------------- Reconcile

    /** Reconcile: fetch the KataConfig, take a path, write the status. */
    method DoReconcile(env: Env)
      modifies this
      ensures Snapshot() == Do(old(Snapshot()), Reconcile(env))
    {
      hide DeleteMc, DeleteDs, InstallMc, InstallDs;
      if !present {
        return;
      }
      mem := status;
      var save := true;
      if deleting && !Busy(mem.cond) {
        if env.mode == MachineConfigMode {
          ProcessDeleteRequest(env);
        } else {
          ProcessDeleteRequestDaemonSet(env);
        }
      } else {
        var err;
        if env.mode == MachineConfigMode {
          err := ProcessInstallRequest(env);
        } else {
          err := ProcessInstallRequestDaemonSet(env);
        }
        save := !err;
      }
      assert Written(save, env) == Pass(old(Snapshot()), env);
      if save && env.statusWriteOk {
        status := mem;
      }
    }
  }

  // ---------------------------------------------------------------- helpers of the loops

  /** Node `i` is next: what was done before it, followed by a sweep of the rest, is a sweep of the whole list. */
  ghost predicate Resumes(list: seq<Node>, i: nat, e: Edit, failing: set<string>, done: seq<Node>, changed: bool)
    requires i <= |list|
  {
    var rest := Sweep(list[i..], e, failing);
    Sweep(list, e, failing) == Swept(done + rest.nodes, changed || rest.changed, rest.failed)
  }

  lemma ResumeStart(list: seq<Node>, e: Edit, failing: set<string>)
    ensures Resumes(list, 0, e, failing, [], false)
  {
    assert list[0..] == list;
    assert [] + Sweep(list, e, failing).nodes == Sweep(list, e, failing).nodes;
  }

  lemma ResumeEnd(list: seq<Node>, e: Edit, failing: set<string>, done: seq<Node>, changed: bool)
    requires Resumes(list, |list|, e, failing, done, changed)
    ensures Sweep(list, e, failing) == Swept(done, changed, false)
  {
    assert done + [] == done;
  }

  lemma ResumeStep(list: seq<Node>, i: nat, e: Edit, failing: set<string>, done: seq<Node>, changed: bool)
    requires i < |list| && Resumes(list, i, e, failing, done, changed)
    ensures !Applies(e, list[i]) ==> Resumes(list, i + 1, e, failing, done + [list[i]], changed)
    ensures Applies(e, list[i]) && list[i].name !in failing
        ==> Resumes(list, i + 1, e, failing, done + [Apply(e, list[i])], true)
    ensures Applies(e, list[i]) && list[i].name in failing
        ==> Sweep(list, e, failing) == Swept(done + list[i..], changed, true)
  {
    var tail := list[i..];
    assert tail[0] == list[i] && tail[1..] == list[i + 1..];
    var rest := Sweep(list[i + 1..], e, failing);
    assert done + ([list[i]] + rest.nodes) == done + [list[i]] + rest.nodes;
    assert done + ([Apply(e, list[i])] + rest.nodes) == done + [Apply(e, list[i])] + rest.nodes;
  }
}
