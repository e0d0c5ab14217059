/** Uninstall is a one-way door.  No pass that deletes can leave an Installing or Updating
condition behind, so once one delete pass was taken no install pass follows: whatever fails,
whatever others edit, in either deployment mode and even switching between them.
*/
module OneWayDoor {
  import opened Labels
  import opened History
  import opened Reconciler

  /** A delete pass has been taken: the path choice is settled for good. */
  predicate DoorShut(s: State) {
    Path(s.log) && (Deleted(s.log) ==> TakesDelete(s))
  }

  /** A part of a pass that records no path. */
  predicate SamePath(log: History, log': History) {
    Deleted(log') == Deleted(log) && Path(log') == Path(log)
  }

  lemma DeleteUnlabelledCalm(log: History, st: Status, u: Swept, env: Env)
    requires !Busy(st.cond)
    ensures var d := DeleteUnlabelled(log, st, u, env);
            SamePath(log, d.log) && !Busy(d.st.cond)
  {}

  lemma DeleteDsUnlabelledCalm(log: History, st: Status, u: Swept, env: Env)
    requires !Busy(st.cond)
    ensures var d := DeleteDsUnlabelled(log, st, u, env);
            SamePath(log, d.log) && !Busy(d.st.cond)
  {}

  lemma InstallLabelledCalm(log: History, st: Status, u: Swept, env: Env)
    ensures SamePath(log, InstallLabelled(log, st, u, env).log)
  {
    var log1 := LogIf(u.changed, log, Relabelled(MachineConfigMode));
    var log2 := LogIf(u.changed, log1, PoolSeen(KataOcPool, env.firstPool));
    var log3 := Log(log2, PoolSeen(KataOcPool, env.secondPool));
    assert InstallLabelled(log, st, u, env).log in {log1, log2, log3, Log(log3, Published(env.mode))};
  }

  lemma DeleteMcShuts(s: State, env: Env)
    requires DoorShut(s) && TakesDelete(s)
    ensures DoorShut(DeleteMc(s, env))
  {
    DeleteUnlabelledCalm(Log(s.log, DeletePath), s.status, Sweep(s.nodes, DropKataOc(s.sel), env.failing), env);
  }

  lemma DeleteDsShuts(s: State, env: Env)
    requires DoorShut(s) && TakesDelete(s)
    ensures DoorShut(DeleteDs(s, env))
  {
    var st := Status(WithImage(RESET, env.image), s.status.waiting);
    DeleteDsUnlabelledCalm(Log(s.log, DeletePath), st, Sweep(s.nodes, DropKataOcAndState(s.sel), env.failing), env);
  }

  lemma InstallMcShuts(s: State, env: Env)
    requires DoorShut(s) && !TakesDelete(s)
    ensures DoorShut(InstallMc(s, env))
  {
    InstallLabelledCalm(Log(s.log, InstallPath), InstallStatus(s.status, env),
        Sweep(s.nodes, SyncKataOc(s.sel), env.failing), env);
  }

  lemma InstallDsMarkPath(s: State, env: Env)
    ensures SamePath(s.log, InstallDsMark(s, env).log)
  {
    assert InstallDsMark(s, env).log in {s.log, Log(s.log, Published(env.mode))};
  }

  lemma InstallDsShuts(s: State, env: Env)
    requires DoorShut(s) && !TakesDelete(s)
    ensures DoorShut(InstallDs(s, env))
  {
    var u := Sweep(s.nodes, SyncKataOc(s.sel), env.failing);
    var log := LogIf(u.changed, Log(s.log, InstallPath), Relabelled(DaemonSetMode));
    InstallDsMarkPath(s.(nodes := u.nodes, finalizer := true, log := log), env);
  }

  /** Every step keeps the door shut. */
  lemma StepShuts(s: State, step: Step)
    requires DoorShut(s)
    ensures DoorShut(Do(s, step))
  {
    if s.present && step.Reconcile? {
      if TakesDelete(s) {
        DeleteMcShuts(s, step.env);
        DeleteDsShuts(s, step.env);
      } else {
        InstallMcShuts(s, step.env);
        InstallDsShuts(s, step.env);
      }
    }
  }

  lemma {:induction false} RunShuts(s: State, steps: seq<Step>)
    requires DoorShut(s)
    ensures DoorShut(Run(s, steps))
  {
    if steps != [] {
      RunShuts(s, steps[..|steps| - 1]);
      StepShuts(Run(s, steps[..|steps| - 1]), steps[|steps| - 1]);
    }
  }

  /** In every run, from any persisted status, no install pass comes after a delete pass. */
  lemma UninstallIsOneWay(s: State, steps: seq<Step>)
    requires s.log == Start
    ensures OneWay(Events(Run(s, steps).log))
  {
    RunShuts(s, steps);
    PathSound(Run(s, steps).log);
  }
}
