/** DaemonSet mode: when an installation is published, what the operator itself writes into the state
labels, and why it can neither publish nor uninstall without the DaemonSets having done their work.
*/
module DaemonSetInstall {
  import opened Labels
  import opened History
  import opened Reconciler
  import opened OneWayDoor
  import opened PassEffects
  import opened DaemonSetUninstall

  /** Every node with kata-oc="" has the state label "installed". */
  predicate AllInstalled(ns: seq<Node>) {
    forall n | n in ns && KATA_OC in n.labels && n.labels[KATA_OC] == "" ::
      DS_STATE in n.labels && n.labels[DS_STATE] == "installed"
  }

  /** The install pass gets as far as the finalizer, and as far as the DaemonSet. */
  predicate Guards(s: State, env: Env) {
    env.preflightOk && !Trips(s.nodes, SyncKataOc(s.sel), env.failing) && env.finalizerWriteOk
  }

  predicate Deploys(s: State, env: Env) {
    Guards(s, env) && env.setupOk
  }

  // ---------------------------------------------------------------- publication

  /** From the DaemonSet on: publication follows exactly if the nodes can be read and all are installed. */
  lemma MarkPublishes(s: State, env: Env)
    requires env.mode == DaemonSetMode
    ensures var r := InstallDsMark(s, env);
            r.log == if env.nodesReadable && AllInstalled(r.nodes) then Log(s.log, Published(DaemonSetMode)) else s.log
  {
    hide Sweep, Log;
    var r := InstallDsMark(s, env);
    assert AllInstalled(r.nodes) <==> PoolInState(r.nodes, "installed");
  }

  /** A DaemonSet install pass publishes exactly when every call up to there succeeds, every label
      was written, and every kata node reads "installed".
   */
  lemma PublishedExactlyWhen(s: State, env: Env)
    requires env.mode == DaemonSetMode
    ensures var r := InstallDs(s, env);
            r.log.Then? && (r.log.event == Published(DaemonSetMode) <==>
                              Deploys(s, env) && env.nodesReadable && AllInstalled(r.nodes))
  {
    hide InstallDs, InstallDsMark, AllInstalled, Deploys, Sweep;
    InstallDsIs(s, env);
    if Deploys(s, env) {
      LastLogged(s.log, Sweep(s.nodes, SyncKataOc(s.sel), env.failing).changed);
      MarkPublishes(Deployed(s, env), env);
    }
  }

  /** The history ends with another event; so it does after every other kind of pass. */
  predicate Unpublished(h: History) {
    h.Then? && h.event != Published(DaemonSetMode)
  }

  lemma DeleteTailLast(log: History, st: Status, u: Swept, env: Env)
    requires Unpublished(log)
    ensures Unpublished(DeleteUnlabelled(log, st, u, env).log)
  {}

  lemma DeleteDsTailLast(log: History, st: Status, u: Swept, env: Env)
    requires Unpublished(log)
    ensures Unpublished(DeleteDsUnlabelled(log, st, u, env).log)
  {}

  lemma DeleteMcLast(s: State, env: Env)
    ensures Unpublished(DeleteMc(s, env).log)
  {
    hide Sweep, DeleteUnlabelled;
    var u := Sweep(s.nodes, DropKataOc(s.sel), env.failing);
    DeleteTailLast(Log(s.log, DeletePath), s.status, u, env);
  }

  lemma DeleteDsLast(s: State, env: Env)
    ensures Unpublished(DeleteDs(s, env).log)
  {
    hide Sweep, PoolInState, DeleteDsUnlabelled;
    var u := Sweep(s.nodes, DropKataOcAndState(s.sel), env.failing);
    DeleteDsTailLast(Log(s.log, DeletePath), Status(WithImage(RESET, env.image), s.status.waiting), u, env);
  }

  lemma InstallTailLast(log: History, st: Status, u: Swept, env: Env)
    requires Unpublished(log) && env.mode == MachineConfigMode
    ensures Unpublished(InstallLabelled(log, st, u, env).log)
  {
    var log1 := LogIf(u.changed, log, Relabelled(MachineConfigMode));
    var log2 := LogIf(u.changed, log1, PoolSeen(KataOcPool, env.firstPool));
    assert Unpublished(log1) && Unpublished(log2);
  }

  lemma MachineConfigInstallLast(s: State, env: Env)
    requires env.mode == MachineConfigMode
    ensures Unpublished(InstallMc(s, env).log)
  {
    hide Sweep, InstallLabelled;
    var u := Sweep(s.nodes, SyncKataOc(s.sel), env.failing);
    InstallTailLast(Log(s.log, InstallPath), InstallStatus(s.status, env), u, env);
  }

  /** In every run: a reconcile that publishes in DaemonSet mode leaves every kata node with the state
      label "installed", and the finalizer on.
   */
  lemma PublishedOnlyWhenInstalled(s: State, steps: seq<Step>, i: nat)
    requires i < |steps| && Run(s, steps[..i]).present && steps[i].Reconcile?
    requires var r := Run(s, steps[..i + 1]); r.log.Then? && r.log.event == Published(DaemonSetMode)
    ensures AllInstalled(Run(s, steps[..i + 1]).nodes) && Run(s, steps[..i + 1]).finalizer
  {
    hide DeleteMc, DeleteDs, InstallMc, InstallDs, AllInstalled;
    var before, env := Run(s, steps[..i]), steps[i].env;
    assert steps[..i + 1][..i] == steps[..i] && steps[..i + 1][i] == steps[i];
    assert Run(s, steps[..i + 1]) == Pass(before, env);
    DeleteMcLast(before, env);
    DeleteDsLast(before, env);
    if env.mode == MachineConfigMode {
      MachineConfigInstallLast(before, env);
    } else {
      PublishedExactlyWhen(before, env);
      InstallDsLeaves(before, env);
    }
  }

  // ---------------------------------------------------------------- what an install pass leaves

  lemma MarkLeaves(s: State, env: Env)
    ensures var r := InstallDsMark(s, env);
            && r.installDs && r.finalizer == s.finalizer && r.present == s.present
            && r.deleting == s.deleting && r.sel == s.sel && r.uninstallDs == s.uninstallDs
            && (!env.nodesReadable || !env.statusWriteOk ==> r.status == s.status)
            && (env.nodesReadable && env.statusWriteOk ==>
                  r.status ==
                  if AllInstalled(r.nodes) then
                    match env.post
                    case PostError => s.status
                    case PostDone => Status(InProgress(CondFalse, NoReason), s.status.waiting)
                    case PostImagePending => Status(InProgress(CondTrue, PodVm(JobRunning)), s.status.waiting)
                  else if !s.installDs then Status(InProgress(CondTrue, Installing), s.status.waiting)
                  else if s.status.cond.InProgress? && s.status.cond.status == CondFalse then
                    Status(InProgress(CondTrue, Updating), s.status.waiting)
                  else s.status)
            && (!s.installDs ==>
                  r.nodes == Sweep(s.nodes, SetState(s.sel, "waiting_to_install"), env.markFailing).nodes)
            && (s.installDs ==> r.nodes == s.nodes)
  {
    hide Sweep, Log;
    var r := InstallDsMark(s, env);
    assert AllInstalled(r.nodes) <==> PoolInState(r.nodes, "installed");
  }

  /** What a DaemonSet install pass leaves of the object, the DaemonSet and the status. */
  lemma InstallDsLeaves(s: State, env: Env)
    requires env.mode == DaemonSetMode
    ensures var r := InstallDs(s, env);
            && r.present == s.present && r.deleting == s.deleting && r.sel == s.sel && r.uninstallDs == s.uninstallDs
            && (r.finalizer <==> s.finalizer || Guards(s, env))
            && (r.installDs <==> s.installDs || Deploys(s, env))
            && (!Deploys(s, env) || !env.nodesReadable || !env.statusWriteOk ==> r.status == s.status)
            && (Deploys(s, env) && env.nodesReadable && env.statusWriteOk ==>
                  r.status ==
                  if AllInstalled(r.nodes) then
                    match env.post
                    case PostError => s.status
                    case PostDone => Status(InProgress(CondFalse, NoReason), s.status.waiting)
                    case PostImagePending => Status(InProgress(CondTrue, PodVm(JobRunning)), s.status.waiting)
                  else if !s.installDs then Status(InProgress(CondTrue, Installing), s.status.waiting)
                  else if s.status.cond.InProgress? && s.status.cond.status == CondFalse then
                    Status(InProgress(CondTrue, Updating), s.status.waiting)
                  else s.status)
  {
    hide InstallDs, InstallDsMark, AllInstalled, Deploys, Guards, Sweep;
    InstallDsIs(s, env);
    if Deploys(s, env) {
      MarkLeaves(Deployed(s, env), env);
    }
    assert Deploys(s, env) ==> Guards(s, env) by { DeploysGuards(s, env); }
  }

  /** The state in which the pass comes to the install DaemonSet. */
  function Deployed(s: State, env: Env): State {
    var u := Sweep(s.nodes, SyncKataOc(s.sel), env.failing);
    s.(nodes := u.nodes, finalizer := true, log := LogIf(u.changed, Log(s.log, InstallPath), Relabelled(DaemonSetMode)))
  }

  lemma InstallDsIs(s: State, env: Env)
    ensures Deploys(s, env) ==> InstallDs(s, env) == InstallDsMark(Deployed(s, env), env)
    ensures !Deploys(s, env) ==>
              var r := InstallDs(s, env);
              && r.status == s.status && r.finalizer == (s.finalizer || Guards(s, env)) && r.present == s.present
              && r.deleting == s.deleting && r.sel == s.sel
              && r.installDs == s.installDs && r.uninstallDs == s.uninstallDs && r.log.Then?
              && r.log.event != Published(DaemonSetMode)
  {
    hide Sweep, Trips, InstallDsMark;
    SweepReport(s.nodes, SyncKataOc(s.sel), env.failing);
  }

  /** A finished installation can be deleted; one that was just started cannot yet. */
  lemma DeletionAfterInstall(s: State, env: Env)
    requires s.present && !TakesDelete(s) && env.mode == DaemonSetMode
    requires env.statusWriteOk && Deploys(s, env) && env.nodesReadable
    ensures var r := Pass(s, env);
            && Do(r, RequestDeletion).present
            && (AllInstalled(r.nodes) && env.post == PostDone ==> TakesDelete(Do(r, RequestDeletion)))
            && (!AllInstalled(r.nodes) && !s.installDs ==> !TakesDelete(Do(r, RequestDeletion)))
  {
    hide InstallDs, AllInstalled, Deploys, Guards;
    InstallDsLeaves(s, env);
    assert Deploys(s, env) ==> Guards(s, env) by { DeploysGuards(s, env); }
  }

  lemma DeploysGuards(s: State, env: Env)
    ensures Deploys(s, env) ==> Guards(s, env)
  {}

  // ---------------------------------------------------------------- what a delete pass leaves

  /** A DaemonSet delete pass gets past the pods and the calls up to the uninstall DaemonSet. */
  predicate Works(s: State, env: Env) {
    !(s.finalizer && env.kataPods) && env.preflightOk && env.setupOk
  }

  /** What a DaemonSet delete pass leaves of the object, the nodes and the DaemonSets.  With kata pods
      around it changes none of them; the pass that creates the uninstall DaemonSet marks the nodes
      and goes no further.
   */
  lemma DeleteDsLeaves(s: State, env: Env)
    requires s.present && env.mode == DaemonSetMode
    ensures var r := DeleteDs(s, env);
            && r.deleting == s.deleting && r.sel == s.sel && r.finalizer == (s.finalizer && r.present)
            && (r.installDs <==> s.installDs && ((s.finalizer && env.kataPods) || !env.preflightOk))
            && (r.uninstallDs <==> s.uninstallDs || Works(s, env))
            && (!Works(s, env) ==> r.present && r.nodes == s.nodes)
            && (Works(s, env) && !s.uninstallDs ==>
                  && r.present
                  && r.nodes == Sweep(s.nodes, SetState(s.sel, "waiting_to_uninstall"), env.markFailing).nodes)
            && (s.uninstallDs && !(env.nodesReadable && Uninstalled(s)) ==> r.present && r.nodes == s.nodes)
  {
    hide Sweep, Log, PoolInState, DeleteDsWait;
    var log, st := Log(s.log, DeletePath), Status(InProgress(CondTrue, Uninstalling), s.status.waiting);
    DeleteDsWaitLeaves(s.(installDs := false, log := log), st, env);
  }

  lemma DeleteDsWaitLeaves(s: State, st: Status, env: Env)
    requires s.present
    ensures var r := DeleteDsWait(s, st, env);
            && r.deleting == s.deleting && r.sel == s.sel && r.finalizer == (s.finalizer && r.present)
            && r.installDs == s.installDs && r.uninstallDs
            && (!s.uninstallDs ==>
                  && r.present
                  && r.nodes == Sweep(s.nodes, SetState(s.sel, "waiting_to_uninstall"), env.markFailing).nodes)
            && (s.uninstallDs && !(env.nodesReadable && Uninstalled(s)) ==> r.present && r.nodes == s.nodes)
  {
    hide Sweep, Log, PoolInState, DeleteDsUnlabelled;
  }

  /** And of the status. */
  lemma DeleteDsStatus(s: State, env: Env)
    requires s.present && env.mode == DaemonSetMode
    ensures var r := DeleteDs(s, env);
            && (!env.statusWriteOk ==> r.status == s.status)
            && (env.statusWriteOk && s.finalizer && env.kataPods ==>
                  r.status == Status(InProgress(CondFalse, BlockedByExistingKataPods), s.status.waiting))
            && (env.statusWriteOk && !(s.finalizer && env.kataPods)
                && !(Works(s, env) && env.nodesReadable && Uninstalled(s)) ==>
                  r.status == Status(InProgress(CondTrue, Uninstalling), s.status.waiting))
            && (env.statusWriteOk && Works(s, env) && env.nodesReadable && Uninstalled(s) ==>
                  r.status == Status(Cleared(env.image), s.status.waiting))
  {
    hide Sweep, Log, PoolInState, DeleteDsUnlabelled;
    var st := Status(WithImage(RESET, env.image), s.status.waiting);
    DeleteDsTailStatus(Log(s.log, DeletePath), st, Sweep(s.nodes, DropKataOcAndState(s.sel), env.failing), env);
  }

  lemma DeleteDsTailStatus(log: History, st: Status, u: Swept, env: Env)
    ensures DeleteDsUnlabelled(log, st, u, env).saved && DeleteDsUnlabelled(log, st, u, env).st == st
  {
    hide Log;
  }

  // ---------------------------------------------------------------- the operator alone

  /** After the pass that creates the uninstall DaemonSet the pool reads as uninstalled only if no
      kata node was marked and all had that state before.
   */
  lemma MarkedReadsUninstalledExactlyWhen(s: State, env: Env)
    requires s.present && env.mode == DaemonSetMode && !s.uninstallDs && DeleteDs(s, env).uninstallDs
    ensures Uninstalled(DeleteDs(s, env)) <==>
            forall i :: 0 <= i < |s.nodes| && InKataPool(s.nodes[i]) ==>
              && DsState(s.nodes[i]) == "uninstalled"
              && (Matches(s.sel, s.nodes[i].labels) ==>
                    i >= Reach(s.nodes, SetState(s.sel, "waiting_to_uninstall"), env.markFailing))
  {
    hide DeleteDs, Sweep, Reach, Matches, PoolInState;
    DeleteDsLeaves(s, env);
    assert "waiting_to_uninstall"[0] != "uninstalled"[0];
    MarkReadsExactlyWhen(s.nodes, s.sel, "waiting_to_uninstall", env.markFailing, "uninstalled");
  }

  /** Node i is a kata node that is still to be uninstalled, or will be marked so. */
  predicate ToUninstall(s: State, i: nat) {
    && i < |s.nodes| && InKataPool(s.nodes[i])
    && if s.uninstallDs then DsState(s.nodes[i]) != "uninstalled" else Matches(s.sel, s.nodes[i].labels)
  }

  lemma DeletePassWaits(s: State, env: Env, i: nat)
    requires s.present && env.mode == DaemonSetMode && env.markFailing == {} && ToUninstall(s, i)
    ensures DeleteDs(s, env).present && ToUninstall(DeleteDs(s, env), i)
  {
    hide DeleteDs, Sweep, Matches;
    DeleteDsLeaves(s, env);
    assert s.nodes[i] in s.nodes;
    LabelsAfter(s.nodes, SetState(s.sel, "waiting_to_uninstall"), {}, i);
    assert "waiting_to_uninstall"[0] != "uninstalled"[0] && |KATA_OC| != |DS_STATE|;
  }

  /** The operator alone never finishes an uninstall: while nobody else writes the state labels, no
      number of delete passes removes an object with a kata node to uninstall.
   */
  lemma {:induction false} NeverUninstallsAlone(s: State, envs: seq<Env>, i: nat)
    requires s.present && TakesDelete(s) && ToUninstall(s, i)
    requires forall env | env in envs :: env.mode == DaemonSetMode && env.markFailing == {}
    ensures Passes(s, envs).present
    decreases |envs|
  {
    hide DeleteDs, ToUninstall;
    if envs != [] {
      assert envs[0] in envs;
      DeletePassWaits(s, envs[0], i);
      DeleteDsTakes(s, envs[0]);
      NeverUninstallsAlone(DeleteDs(s, envs[0]), envs[1..], i);
    }
  }

  /** Node i is a kata node that is still to be installed, or will be labelled and marked so. */
  predicate ToInstall(sel: Selector, ns: seq<Node>, installDs: bool, i: nat) {
    && i < |ns| && ListedWorker(ns[i]) && Matches(sel, ns[i].labels)
    && if installDs then InKataPool(ns[i]) && DsState(ns[i]) != "installed" else HasKataOc(ns[i]) ==> InKataPool(ns[i])
  }

  /** Labelling leaves such a node to be installed, and puts it into the pool if it completes. */
  lemma SyncLeavesToInstall(sel: Selector, ns: seq<Node>, installDs: bool, failing: set<string>, i: nat)
    requires ToInstall(sel, ns, installDs, i) && Stable(sel)
    ensures var u := Sweep(ns, SyncKataOc(sel), failing);
            ToInstall(sel, u.nodes, installDs, i) && (!u.failed ==> InKataPool(u.nodes[i]))
  {
    hide Matches, Sweep, Reach;
    var e, m := SyncKataOc(sel), ns[i].labels;
    SweepAt(ns, e, failing);
    assert |WORKER| != |KATA_OC| && |KATA_OC| != |DS_STATE|;
    if KATA_OC !in m {
      assert Matches(sel, Labelled(m, ""));
    }
  }

  lemma MarkLeavesToInstall(s: State, env: Env, i: nat)
    requires ToInstall(s.sel, s.nodes, s.installDs, i) && InKataPool(s.nodes[i])
    requires env.markFailing == {} && !Mentions(s.sel, DS_STATE)
    ensures ToInstall(s.sel, InstallDsMark(s, env).nodes, true, i) && !AllInstalled(InstallDsMark(s, env).nodes)
  {
    hide InstallDsMark, Sweep, Matches;
    var r, m := InstallDsMark(s, env), s.nodes[i].labels;
    MarkLeaves(s, env);
    LabelsAfter(s.nodes, SetState(s.sel, "waiting_to_install"), {}, i);
    MatchesIgnores(s.sel, DS_STATE, m, "waiting_to_install");
    assert "waiting_to_install"[0] != "installed"[0] && |KATA_OC| != |DS_STATE| && |WORKER| != |DS_STATE|;
    assert r.nodes[i] in r.nodes;
  }

  lemma InstallPassWaits(s: State, env: Env, i: nat)
    requires env.mode == DaemonSetMode && env.markFailing == {} && Stable(s.sel) && !Mentions(s.sel, DS_STATE)
    requires ToInstall(s.sel, s.nodes, s.installDs, i)
    ensures var r := InstallDs(s, env);
            && ToInstall(r.sel, r.nodes, r.installDs, i)
            && Happened(r.log, Published(DaemonSetMode)) == Happened(s.log, Published(DaemonSetMode))
  {
    hide Sweep, InstallDsMark, ToInstall, AllInstalled, Happened, Log;
    var u, p := Sweep(s.nodes, SyncKataOc(s.sel), env.failing), Published(DaemonSetMode);
    SyncLeavesToInstall(s.sel, s.nodes, s.installDs, env.failing, i);
    var log0 := Log(s.log, InstallPath);
    var log1 := LogIf(u.changed, log0, Relabelled(DaemonSetMode));
    HappenedLog(s.log, InstallPath, p);
    HappenedLog(log0, Relabelled(DaemonSetMode), p);
    if env.preflightOk && !u.failed && env.finalizerWriteOk && env.setupOk {
      var s1 := s.(nodes := u.nodes, finalizer := true, log := log1);
      assert i < |s1.nodes| by { InRange(s.sel, u.nodes, s.installDs, i); }
      MarkLeavesToInstall(s1, env, i);
      MarkLeaves(s1, env);
      MarkPublishes(s1, env);
    }
  }

  lemma InRange(sel: Selector, ns: seq<Node>, installDs: bool, i: nat)
    requires ToInstall(sel, ns, installDs, i)
    ensures i < |ns|
  {}

  lemma LastLogged(h: History, changed: bool)
    ensures LogIf(changed, Log(h, InstallPath), Relabelled(DaemonSetMode)).event != Published(DaemonSetMode)
  {}

  /** Nor does it ever finish an installation alone: while nobody else writes the state labels, no
      number of install passes publishes with a kata node to install.
   */
  lemma {:induction false} NeverPublishesAlone(s: State, envs: seq<Env>, i: nat)
    requires !s.deleting && ToInstall(s.sel, s.nodes, s.installDs, i) && Stable(s.sel) && !Mentions(s.sel, DS_STATE)
    requires forall env | env in envs :: env.mode == DaemonSetMode && env.markFailing == {}
    ensures Happened(Passes(s, envs).log, Published(DaemonSetMode)) == Happened(s.log, Published(DaemonSetMode))
    decreases |envs|
  {
    hide InstallDs, ToInstall, Happened, Stable, Mentions;
    if envs != [] && s.present {
      assert envs[0] in envs;
      InstallPassWaits(s, envs[0], i);
      InstallDsLeaves(s, envs[0]);
      NeverPublishesAlone(InstallDs(s, envs[0]), envs[1..], i);
    } else if envs != [] {
      GoneStaysGone(s, envs);
    }
  }
}
