/** DaemonSet mode: uninstall is safe and it finishes.

The finalizer goes only in a pass that found the uninstall DaemonSet already there and every
node of the kata pool uninstalled.  From then on no failed write sends a later pass back to
waiting, because a node that lost its label has left the pool and a node that kept it still
reads as uninstalled; so the passes only have to outnumber the nodes.
*/
module DaemonSetUninstall {
  import opened Labels
  import opened History
  import opened Reconciler
  import opened OneWayDoor

  /** The uninstall DaemonSet is there and has finished on every node of the pool. */
  predicate Uninstalled(s: State) {
    s.uninstallDs && PoolInState(s.nodes, "uninstalled")
  }

  /** The pass gets as far as looking at the nodes. */
  predicate Looks(s: State, env: Env) {
    !(s.finalizer && env.kataPods) && env.preflightOk && env.setupOk && env.nodesReadable
  }

  /** The pass gets as far as unlabelling them, if they are uninstalled. */
  predicate Able(s: State, env: Env) {
    Looks(s, env) && env.cleanupOk && env.finalizerWriteOk && env.mode == DaemonSetMode
  }

  /** The finalizer is removed exactly in an able pass that found every node uninstalled by a
      DaemonSet from an earlier pass, and whose own label writes all succeeded.
   */
  lemma FinalizerRemovedExactlyWhen(s: State, env: Env)
    requires s.present && env.mode == DaemonSetMode
    ensures !DeleteDs(s, env).present <==>
              Able(s, env) && Uninstalled(s) && !Trips(s.nodes, DropKataOcAndState(s.sel), env.failing)
  {
    SweepReport(s.nodes, DropKataOcAndState(s.sel), env.failing);
  }

  /** When the object goes, no selected node is left with the label. */
  lemma FinalizerLeavesNoSelectedLabel(s: State, env: Env)
    requires s.present && env.mode == DaemonSetMode && !DeleteDs(s, env).present
    ensures forall n | n in DeleteDs(s, env).nodes :: !(Matches(s.sel, n.labels) && HasKataOc(n))
  {
    var e := DropKataOcAndState(s.sel);
    FinalizerRemovedExactlyWhen(s, env);
    SweepSettles(s.nodes, e, env.failing);
    forall n | n in s.nodes ensures Settles(e, n) { DropSettles(s.sel, n); }
    forall n | n in DeleteDs(s, env).nodes ensures !Applies(e, n) {}
  }

  lemma UnlabelKeepsUninstalled(ns: seq<Node>, sel: Selector, failing: set<string>)
    requires PoolInState(ns, "uninstalled")
    ensures PoolInState(Sweep(ns, DropKataOcAndState(sel), failing).nodes, "uninstalled")
  {
    var e := DropKataOcAndState(sel);
    var out := Sweep(ns, e, failing).nodes;
    SweepAt(ns, e, failing);
    forall n | n in out && InKataPool(n) ensures DsState(n) == "uninstalled" {
      var i :| 0 <= i < |out| && out[i] == n;
      assert ns[i] in ns;
    }
  }

  /** No pass leaves the uninstalled state, whatever fails in it; a pass that looks does not go
      back to waiting; and each pass that wrote a node leaves fewer to write.
   */
  lemma UninstalledStays(s: State, env: Env)
    requires s.present && env.mode == DaemonSetMode && Uninstalled(s)
    ensures var r, e := DeleteDs(s, env), DropKataOcAndState(s.sel);
            && Uninstalled(r) && r.sel == s.sel
            && WorkCount(r.nodes, e) <= WorkCount(s.nodes, e)
            && (r.nodes != s.nodes ==> WorkCount(r.nodes, e) < WorkCount(s.nodes, e))
            && (Looks(s, env) && r.present && env.statusWriteOk ==> r.status.cond == WithImage(RESET, env.image))
  {
    var e := DropKataOcAndState(s.sel);
    UnlabelKeepsUninstalled(s.nodes, s.sel, env.failing);
    forall n | n in s.nodes ensures Settles(e, n) { DropSettles(s.sel, n); }
    SweepShrinks(s.nodes, e, env.failing);
    if !Sweep(s.nodes, e, env.failing).changed {
      UnchangedIsSame(s.nodes, e, env.failing);
    }
  }

  lemma {:induction false} UnchangedIsSame(ns: seq<Node>, e: Edit, failing: set<string>)
    requires !Sweep(ns, e, failing).changed
    ensures Sweep(ns, e, failing).nodes == ns
  {
    if ns != [] {
      assert ns == [ns[0]] + ns[1..];
      if !Applies(e, ns[0]) {
        UnchangedIsSame(ns[1..], e, failing);
      }
    }
  }

  function Passes(s: State, envs: seq<Env>): State
    decreases |envs|
  {
    if envs == [] then s else Passes(Do(s, Reconcile(envs[0])), envs[1..])
  }

  /** Every pass is able, and either wrote a node or met no failing write. */
  predicate MakesProgress(s: State, envs: seq<Env>)
    decreases |envs|
  {
    envs != [] && s.present ==>
      && Able(s, envs[0])
      && (Sweep(s.nodes, DropKataOcAndState(s.sel), envs[0].failing).changed
          || !Trips(s.nodes, DropKataOcAndState(s.sel), envs[0].failing))
      && MakesProgress(Do(s, Reconcile(envs[0])), envs[1..])
  }

  lemma {:induction false} GoneStaysGone(s: State, envs: seq<Env>)
    requires !s.present
    ensures Passes(s, envs) == s
  {
    if envs != [] {
      GoneStaysGone(s, envs[1..]);
    }
  }

  /** Uninstall finishes: once the nodes are uninstalled, more passes than there are labels left
      remove the object, even if every one of them but the last fails part-way.
   */
  lemma {:induction false} UninstallFinishes(s: State, envs: seq<Env>)
    requires TakesDelete(s) && Uninstalled(s)
    requires MakesProgress(s, envs) && |envs| > WorkCount(s.nodes, DropKataOcAndState(s.sel))
    ensures !Passes(s, envs).present
    decreases |envs|
  {
    if !s.present {
      GoneStaysGone(s, envs);
    } else {
      var e, env := DropKataOcAndState(s.sel), envs[0];
      var r := Do(s, Reconcile(env));
      assert r == DeleteDs(s, env);
      FinalizerRemovedExactlyWhen(s, env);
      if Trips(s.nodes, e, env.failing) {
        DeleteDsTakes(s, env);
        UnlabelProgress(s, env);
        UninstallFinishes(r, envs[1..]);
      } else {
        GoneStaysGone(r, envs[1..]);
      }
    }
  }

  lemma DeleteDsTakes(s: State, env: Env)
    requires TakesDelete(s)
    ensures TakesDelete(DeleteDs(s, env))
  {
    var st := Status(WithImage(RESET, env.image), s.status.waiting);
    DeleteDsUnlabelledCalm(Log(s.log, DeletePath), st, Sweep(s.nodes, DropKataOcAndState(s.sel), env.failing), env);
  }

  lemma UnlabelProgress(s: State, env: Env)
    requires s.present && Uninstalled(s) && Able(s, env)
    requires Sweep(s.nodes, DropKataOcAndState(s.sel), env.failing).changed
    ensures var r, e := DeleteDs(s, env), DropKataOcAndState(s.sel);
            Uninstalled(r) && r.sel == s.sel && WorkCount(r.nodes, e) < WorkCount(s.nodes, e)
  {
    var e := DropKataOcAndState(s.sel);
    UninstalledStays(s, env);
    forall n | n in s.nodes ensures Settles(e, n) { DropSettles(s.sel, n); }
    SweepShrinks(s.nodes, e, env.failing);
  }
}
