/** What the reconciler did, in order, and the properties of such histories that the
operator is built to keep.  A history property is stated over the whole sequence of
events; `View` and `Path` are what of it can be kept up event by event, and
`ViewSound` and `PathSound` tie the two together.
*/
module History {

  datatype Mode = MachineConfigMode | DaemonSetMode

  datatype PoolName = WorkerPool | KataOcPool

  /** What a MachineConfigPool read gives; `isMcpUpdating` takes `Unreadable` for not updating. */
  datatype Pool = PoolUpdating | PoolIdle | Unreadable

  datatype Event =
    | InstallPath
    | DeletePath
    | Relabelled(mode: Mode)       // updateNodeLabels wrote a node
    | Unlabelled(mode: Mode)       // unlabelNodes or unlabelNodesDaemonSet wrote a node
    | PoolSeen(pool: PoolName, pstate: Pool)
    | Published(mode: Mode)        // postKataInstallation was entered
    | FinalizerRemoved(mode: Mode)

  /** A history, newest event last. */
  datatype History = Start | Then(past: History, event: Event)

  function Events(h: History): seq<Event> {
    match h
    case Start => []
    case Then(past, e) => Events(past) + [e]
  }

  /** A change that has to be seen through by a pool before an act may follow. */
  datatype Protocol = Protocol(change: Event, pool: PoolName, act: Event)

  /** Nodes that lose the label rejoin "worker"; the finalizer goes last. */
  const UNINSTALL := Protocol(Unlabelled(MachineConfigMode), WorkerPool, FinalizerRemoved(MachineConfigMode))

  /** Nodes whose label changed join or leave "kata-oc"; the runtime classes come last. */
  const INSTALL := Protocol(Relabelled(MachineConfigMode), KataOcPool, Published(MachineConfigMode))

  /** Each act comes right after a read of the pool that did not say "updating" (it may have failed), and between
      any earlier change and the act the pool was seen updating.
   */
  ghost predicate Waited(log: seq<Event>, p: Protocol) {
    forall f :: 0 <= f < |log| ==> WaitedAt(log, f, p)
  }

  ghost predicate WaitedAt(log: seq<Event>, f: nat, p: Protocol)
    requires f < |log|
  {
    log[f] == p.act ==>
      && 0 < f && log[f - 1].PoolSeen? && log[f - 1].pool == p.pool && log[f - 1].pstate != PoolUpdating
      && forall i :: 0 <= i < f && log[i] == p.change ==>
           exists k :: i < k < f && log[k] == PoolSeen(p.pool, PoolUpdating)
  }

  /** Each act comes right after a read that showed the pool idle, not after one that failed. */
  ghost predicate IdleBefore(log: seq<Event>, p: Protocol) {
    forall f :: 0 <= f < |log| && log[f] == p.act ==> 0 < f && log[f - 1] == PoolSeen(p.pool, PoolIdle)
  }

  /** No install pass comes after a delete pass. */
  ghost predicate OneWay(log: seq<Event>) {
    forall i, j :: 0 <= i < j < |log| && log[i] == DeletePath ==> log[j] != InstallPath
  }

  /** Some change has not been followed by a sight of the pool updating. */
  predicate Owed(log: seq<Event>, p: Protocol) {
    exists i :: 0 <= i < |log| && log[i] == p.change && PoolSeen(p.pool, PoolUpdating) !in log[i..]
  }

  /** The last event is a read of the pool that did not say "updating". */
  predicate JustIdle(log: seq<Event>, p: Protocol) {
    log != [] && var e := log[|log| - 1]; e.PoolSeen? && e.pool == p.pool && e.pstate != PoolUpdating
  }

  datatype Standing = Standing(owed: bool, idle: bool, waited: bool)

  function View(h: History, p: Protocol): Standing {
    match h
    case Start => Standing(false, false, true)
    case Then(past, e) => Seen(View(past, p), p, e)
  }

  function Seen(v: Standing, p: Protocol, e: Event): Standing {
    Standing(
      e == p.change || (v.owed && e != PoolSeen(p.pool, PoolUpdating)),
      e.PoolSeen? && e.pool == p.pool && e.pstate != PoolUpdating,
      v.waited && (e == p.act ==> v.idle && !v.owed))
  }

  predicate ActsIdle(h: History, p: Protocol) {
    match h
    case Start => true
    case Then(past, e) => ActsIdle(past, p) && (e == p.act ==> past.Then? && past.event == PoolSeen(p.pool, PoolIdle))
  }

  predicate Deleted(h: History) {
    match h
    case Start => false
    case Then(past, e) => Deleted(past) || e == DeletePath
  }

  predicate Path(h: History) {
    match h
    case Start => true
    case Then(past, e) => Path(past) && !(e == InstallPath && Deleted(past))
  }

  /** Append an event. */
  function Log(h: History, e: Event): (r: History)
    ensures View(r, UNINSTALL) == Seen(View(h, UNINSTALL), UNINSTALL, e)
    ensures View(r, INSTALL) == Seen(View(h, INSTALL), INSTALL, e)
    ensures Deleted(r) == (Deleted(h) || e == DeletePath)
    ensures Path(r) == (Path(h) && !(e == InstallPath && Deleted(h)))
  {
    Then(h, e)
  }

  /** The event is in the history. */
  predicate Happened(h: History, e: Event) {
    match h
    case Start => false
    case Then(past, x) => Happened(past, e) || x == e
  }

  lemma HappenedLog(h: History, x: Event, e: Event)
    ensures Happened(Log(h, x), e) == (Happened(h, e) || x == e)
  {}

  predicate Proper(p: Protocol) {
    !p.change.PoolSeen? && !p.act.PoolSeen?
  }

  /** The running view tells the truth about the whole history. */
  lemma {:induction false} ViewSound(h: History, p: Protocol)
    requires Proper(p)
    ensures View(h, p).owed <==> Owed(Events(h), p)
    ensures View(h, p).idle <==> JustIdle(Events(h), p)
    ensures View(h, p).waited <==> Waited(Events(h), p)
  {
    match h
    case Start =>
    case Then(past, e) =>
      ViewSound(past, p);
      OwedSnoc(Events(past), e, p);
      WaitedSnoc(Events(past), e, p);
  }

  lemma {:induction false} ActsIdleSound(h: History, p: Protocol)
    ensures ActsIdle(h, p) <==> IdleBefore(Events(h), p)
  {
    match h
    case Start =>
    case Then(past, e) =>
      ActsIdleSound(past, p);
      LastEvent(past);
      IdleSnoc(Events(past), e, p);
  }

  lemma LastEvent(h: History)
    ensures h.Then? <==> Events(h) != []
    ensures h.Then? ==> Events(h)[|Events(h)| - 1] == h.event
  {}

  lemma IdleSnoc(log: seq<Event>, e: Event, p: Protocol)
    ensures IdleBefore(log + [e], p) <==>
              IdleBefore(log, p) && (e == p.act ==> log != [] && log[|log| - 1] == PoolSeen(p.pool, PoolIdle))
  {
    var log' := log + [e];
    assert log'[|log|] == e && (log != [] ==> log'[|log| - 1] == log[|log| - 1]);
    if IdleBefore(log, p) && (e == p.act ==> log != [] && log[|log| - 1] == PoolSeen(p.pool, PoolIdle)) {
      forall f | 0 <= f < |log'| && log'[f] == p.act ensures 0 < f && log'[f - 1] == PoolSeen(p.pool, PoolIdle) {
        if f < |log| {
          assert log[f] == p.act && log'[f - 1] == log[f - 1];
        }
      }
    }
    if IdleBefore(log', p) {
      forall f | 0 <= f < |log| && log[f] == p.act ensures 0 < f && log[f - 1] == PoolSeen(p.pool, PoolIdle) {
        assert log'[f] == p.act && log'[f - 1] == log[f - 1];
      }
    }
  }

  /** An event that is not the act changes nothing. */
  lemma Indifferent(h: History, e: Event, p: Protocol)
    requires e != p.act
    ensures ActsIdle(Log(h, e), p) == ActsIdle(h, p)
  {}

  lemma OwedSnoc(log: seq<Event>, e: Event, p: Protocol)
    requires Proper(p)
    ensures Owed(log + [e], p) <==> e == p.change || (Owed(log, p) && e != PoolSeen(p.pool, PoolUpdating))
  {
    var log', seen := log + [e], PoolSeen(p.pool, PoolUpdating);
    assert forall i :: 0 <= i <= |log| ==> log'[i..] == log[i..] + [e];
    if e == p.change {
      assert log'[|log|] == p.change && seen !in log'[|log|..];
    } else if Owed(log, p) && e != seen {
      var i :| 0 <= i < |log| && log[i] == p.change && seen !in log[i..];
      assert log'[i] == p.change && seen !in log'[i..];
    }
  }

  lemma WaitedSnoc(log: seq<Event>, e: Event, p: Protocol)
    requires Proper(p)
    ensures Waited(log + [e], p) <==> Waited(log, p) && (e == p.act ==> JustIdle(log, p) && !Owed(log, p))
  {
    forall f | 0 <= f < |log| ensures WaitedAt(log + [e], f, p) <==> WaitedAt(log, f, p) {
      WaitedPrefix(log, e, f, p);
    }
    WaitedLast(log, e, p);
  }

  lemma WaitedPrefix(log: seq<Event>, e: Event, f: nat, p: Protocol)
    requires f < |log|
    ensures WaitedAt(log + [e], f, p) <==> WaitedAt(log, f, p)
  {
    var log', seen := log + [e], PoolSeen(p.pool, PoolUpdating);
    if WaitedAt(log', f, p) && log[f] == p.act {
      forall i | 0 <= i < f && log[i] == p.change ensures exists k :: i < k < f && log[k] == seen {
        assert log'[i] == p.change;
        var k :| i < k < f && log'[k] == seen;
        assert log[k] == log'[k];
      }
    }
    if WaitedAt(log, f, p) && log[f] == p.act {
      forall i | 0 <= i < f && log'[i] == p.change ensures exists k :: i < k < f && log'[k] == seen {
        assert log[i] == p.change;
        var k :| i < k < f && log[k] == seen;
        assert log'[k] == log[k];
      }
    }
  }

  lemma WaitedLast(log: seq<Event>, e: Event, p: Protocol)
    requires Proper(p)
    ensures WaitedAt(log + [e], |log|, p) <==> (e == p.act ==> JustIdle(log, p) && !Owed(log, p))
  {
    var log', seen := log + [e], PoolSeen(p.pool, PoolUpdating);
    if Owed(log, p) {
      var i :| 0 <= i < |log| && log[i] == p.change && seen !in log[i..];
      assert log'[i] == p.change;
      forall k | i < k < |log| ensures log'[k] != seen {
        assert log[i..][k - i] == log'[k];
      }
    } else {
      forall i | 0 <= i < |log| && log'[i] == p.change ensures exists k :: i < k < |log| && log'[k] == seen {
        assert log[i] == p.change && seen in log[i..];
        var d :| 0 <= d < |log[i..]| && log[i..][d] == seen;
        assert log'[i + d] == seen;
      }
    }
  }

  lemma {:induction false} PathSound(h: History)
    ensures Deleted(h) <==> DeletePath in Events(h)
    ensures Path(h) <==> OneWay(Events(h))
  {
    match h
    case Start =>
    case Then(past, e) =>
      PathSound(past);
      OneWaySnoc(Events(past), e);
  }

  lemma OneWaySnoc(log: seq<Event>, e: Event)
    ensures OneWay(log + [e]) <==> OneWay(log) && !(e == InstallPath && DeletePath in log)
  {
    var log' := log + [e];
    assert forall i :: 0 <= i < |log| ==> log'[i] == log[i];
    if e == InstallPath && DeletePath in log {
      var i :| 0 <= i < |log| && log[i] == DeletePath;
      assert log'[i] == DeletePath && log'[|log|] == InstallPath;
    } else if OneWay(log') {
      forall i, j | 0 <= i < j < |log| && log[i] == DeletePath ensures log[j] != InstallPath {
        assert log'[i] == DeletePath && log'[j] == log[j];
      }
    }
  }
}
