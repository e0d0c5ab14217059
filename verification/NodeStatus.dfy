/** The node status lists of the KataConfig and the installation-success metric.

`updateStatus` puts every worker on at most one of seven lists; `updateStatusDaemonSet`
does the same from the state labels of the kata pool.  The metric compares two counters, and
the theorems say when equal counters mean that every kata node is installed.
*/
module NodeStatus {
  import opened Labels
  import opened Sorting

  const CURRENT := "machineconfiguration.openshift.io/currentConfig"

  datatype Class =
    | Installed | NotInstalled | Installing | Uninstalling
    | WaitingToInstall | WaitingToUninstall | FailedToInstall | FailedToUninstall

  /** The eight predicates of the source, over MCO state, current and target config, and whether kata is enabled. */
  predicate Is(c: Class, state: string, curr: string, target: string, kata: bool) {
    match c
    case Installed => state == "Done" && curr == target && kata
    case NotInstalled => state == "Done" && curr == target && !kata
    case Installing => state == "Working" && kata
    case Uninstalling => state == "Working" && !kata
    case WaitingToInstall => state == "Done" && curr != target && kata
    case WaitingToUninstall => state == "Done" && curr != target && !kata
    case FailedToInstall => state == "Degraded" && kata
    case FailedToUninstall => state == "Degraded" && !kata
  }

  datatype Verdict = Error | Unclassified | Of(c: Class)

  /** The if-chain that tries the predicates one after the other. */
  function Classify(state: string, curr: string, target: string, kata: bool): Verdict {
    if Is(Installed, state, curr, target, kata) then Of(Installed)
    else if Is(NotInstalled, state, curr, target, kata) then Of(NotInstalled)
    else if Is(Installing, state, curr, target, kata) then Of(Installing)
    else if Is(Uninstalling, state, curr, target, kata) then Of(Uninstalling)
    else if Is(WaitingToInstall, state, curr, target, kata) then Of(WaitingToInstall)
    else if Is(WaitingToUninstall, state, curr, target, kata) then Of(WaitingToUninstall)
    else if Is(FailedToInstall, state, curr, target, kata) then Of(FailedToInstall)
    else if Is(FailedToUninstall, state, curr, target, kata) then Of(FailedToUninstall)
    else Unclassified
  }

  /** The predicates are exclusive always and exhaustive exactly for the three MCO states, so
      the order of the chain does not matter: it finds the one that holds.
   */
  lemma ClassesPartition(state: string, curr: string, target: string, kata: bool)
    ensures forall c :: Is(c, state, curr, target, kata) <==> Classify(state, curr, target, kata) == Of(c)
    ensures Classify(state, curr, target, kata) == Unclassified <==> state !in {"Done", "Working", "Degraded"}
  {
    assert "Done"[0] != "Working"[0] && "Done"[1] != "Degraded"[1] && "Working"[0] != "Degraded"[0];
  }

  /** Where the lists come from: the MCO's pools (their target config by name), or the DaemonSet state labels. */
  datatype Basis = Mco(pools: map<string, string>) | DsInstall | DsUninstall

  function Judge(b: Basis, n: Node): Verdict {
    match b
    case Mco(pools) =>
      var pool := if HasKataOc(n) then "kata-oc" else "worker";
      if pool !in pools || MCO_STATE !in n.annotations || CURRENT !in n.annotations then Error
      else Classify(n.annotations[MCO_STATE], n.annotations[CURRENT], pools[pool], HasKataOc(n))
    case DsInstall =>
      if DsState(n) == "installing" then Of(Installing)
      else if DsState(n) == "installed" then Of(Installed)
      else Of(WaitingToInstall)
    case DsUninstall =>
      if DsState(n) == "uninstalling" then Of(Uninstalling)
      else if DsState(n) == "uninstalled" then Of(NotInstalled)
      else Of(WaitingToUninstall)
  }

  /** What a node shows in each class: whether it has the kata-oc label, its MCO state, and whether
      its config is the target of its pool, "kata-oc" with the label and "worker" without.
   */
  predicate Shows(n: Node, pools: map<string, string>, c: Class) {
    var pool := if KATA_OC in n.labels then "kata-oc" else "worker";
    && pool in pools && MCO_STATE in n.annotations && CURRENT in n.annotations
    && (c in {Installed, Installing, WaitingToInstall, FailedToInstall} <==> KATA_OC in n.labels)
    && (c in {Installing, Uninstalling} <==> n.annotations[MCO_STATE] == "Working")
    && (c in {FailedToInstall, FailedToUninstall} <==> n.annotations[MCO_STATE] == "Degraded")
    && (c in {Installed, NotInstalled} <==> n.annotations[MCO_STATE] == "Done" && n.annotations[CURRENT] == pools[pool])
    && (c in {WaitingToInstall, WaitingToUninstall} <==>
          n.annotations[MCO_STATE] == "Done" && n.annotations[CURRENT] != pools[pool])
  }

  /** A node is in the class whose picture it shows, and is an error if it cannot be told. */
  lemma JudgedByWhatItShows(n: Node, pools: map<string, string>, c: Class)
    ensures Judge(Mco(pools), n) == Of(c) <==> Shows(n, pools, c)
    ensures Judge(Mco(pools), n) == Error <==>
              || (if KATA_OC in n.labels then "kata-oc" else "worker") !in pools
              || MCO_STATE !in n.annotations || CURRENT !in n.annotations
  {
    assert "Done"[0] != "Working"[0] && "Done"[1] != "Degraded"[1] && "Working"[0] != "Degraded"[0];
    match c
    case Installed => case NotInstalled => case Installing => case Uninstalling =>
    case WaitingToInstall => case WaitingToUninstall => case FailedToInstall => case FailedToUninstall =>
  }

  /** In DaemonSet mode a node is in the class its state label names; any other state is waiting. */
  lemma JudgedByStateLabel(n: Node)
    ensures Judge(DsInstall, n) ==
            Of(if DsState(n) == "installed" then Installed
               else if DsState(n) == "installing" then Installing else WaitingToInstall)
    ensures Judge(DsUninstall, n) ==
            Of(if DsState(n) == "uninstalled" then NotInstalled
               else if DsState(n) == "uninstalling" then Uninstalling else WaitingToUninstall)
  {
    assert "installed"[7] != "installing"[7] && "uninstalled"[9] != "uninstalling"[9];
  }

  /** The names with the verdict, in list order. */
  function On(ns: seq<Node>, b: Basis, v: Verdict): seq<string> {
    if ns == [] then []
    else (if Judge(b, ns[0]) == v then [ns[0].name] else []) + On(ns[1..], b, v)
  }

  lemma {:induction false} OnMembers(ns: seq<Node>, b: Basis, v: Verdict, x: string)
    ensures x in On(ns, b, v) <==> exists n | n in ns :: n.name == x && Judge(b, n) == v
  {
    hide Judge;
    if ns != [] {
      assert ns == [ns[0]] + ns[1..];
      OnMembers(ns[1..], b, v, x);
    }
  }

  lemma {:induction false} OnAppend(ns: seq<Node>, n: Node, b: Basis, v: Verdict)
    ensures On(ns + [n], b, v) == On(ns, b, v) + (if Judge(b, n) == v then [n.name] else [])
  {
    hide Judge;
    if ns == [] {
      assert [n][1..] == [];
    } else {
      OnAppend(ns[1..], n, b, v);
      assert (ns + [n])[1..] == ns[1..] + [n];
    }
  }

  lemma OnLength(ns: seq<Node>, b: Basis, v: Verdict)
    requires ns != []
    ensures |On(ns, b, v)| == |On(ns[1..], b, v)| + Hit(Judge(b, ns[0]), v)
  {}

  function Hit(v: Verdict, u: Verdict): nat {
    if v == u then 1 else 0
  }

  /** Every verdict is one of the ten. */
  lemma OneVerdict(v: Verdict)
    ensures Hit(v, Of(Installed)) + Hit(v, Of(NotInstalled)) + Hit(v, Of(Installing)) + Hit(v, Of(Uninstalling))
            + Hit(v, Of(WaitingToInstall)) + Hit(v, Of(WaitingToUninstall)) + Hit(v, Of(FailedToInstall))
            + Hit(v, Of(FailedToUninstall)) + Hit(v, Unclassified) + Hit(v, Error) == 1
  {
    match v
    case Error =>
    case Unclassified =>
    case Of(c) =>
      match c
      case Installed => case NotInstalled => case Installing => case Uninstalling =>
      case WaitingToInstall => case WaitingToUninstall => case FailedToInstall => case FailedToUninstall =>
  }

  predicate DistinctNames(ns: seq<Node>) {
    forall i, j :: 0 <= i < j < |ns| ==> ns[i].name != ns[j].name
  }

  lemma NameDecides(ns: seq<Node>, m: Node, n: Node)
    requires DistinctNames(ns) && m in ns && n in ns && m.name == n.name
    ensures m == n
  {
    var i :| 0 <= i < |ns| && ns[i] == m;
    var j :| 0 <= j < |ns| && ns[j] == n;
  }

  /** The lists are pairwise disjoint. */
  lemma ListsDisjoint(ns: seq<Node>, b: Basis, v: Verdict, v': Verdict, x: string)
    requires DistinctNames(ns) && v != v' && x in On(ns, b, v)
    ensures x !in On(ns, b, v')
  {
    hide Judge;
    OnMembers(ns, b, v, x);
    OnMembers(ns, b, v', x);
    forall m, n | m in ns && n in ns && m.name == x == n.name ensures m == n {
      NameDecides(ns, m, n);
    }
  }

  function Count(ns: seq<Node>, b: Basis, c: Class): nat {
    |On(ns, b, Of(c))|
  }

  /** The seven lists, the nodes that are not installed, the unclassified and the erroring ones make up all nodes. */
  lemma {:induction false} ListsCoverAll(ns: seq<Node>, b: Basis)
    ensures Count(ns, b, Installed) + Count(ns, b, NotInstalled) + Count(ns, b, Installing) + Count(ns, b, Uninstalling)
            + Count(ns, b, WaitingToInstall) + Count(ns, b, WaitingToUninstall) + Count(ns, b, FailedToInstall)
            + Count(ns, b, FailedToUninstall) + |On(ns, b, Unclassified)| + |On(ns, b, Error)| == |ns|
  {
    if ns != [] {
      hide Judge, On, Hit;
      ListsCoverAll(ns[1..], b);
      OneVerdict(Judge(b, ns[0]));
      forall u ensures |On(ns, b, u)| == |On(ns[1..], b, u)| + Hit(Judge(b, ns[0]), u) { OnLength(ns, b, u); }
    }
  }

  /** getNodes: the nodes with worker="". */
  function Workers(ns: seq<Node>): seq<Node> {
    if ns == [] then [] else (if ListedWorker(ns[0]) then [ns[0]] else []) + Workers(ns[1..])
  }

  // ---------------------------------------------------------------- the status object

  /** KataNodesStatus */
  class KataNodes {
    var nodeCount: int
    var readyNodeCount: int
    var installed: seq<string>
    var installing: seq<string>
    var waitingToInstall: seq<string>
    var failedToInstall: seq<string>
    var uninstalling: seq<string>
    var waitingToUninstall: seq<string>
    var failedToUninstall: seq<string>

    /** Each list holds the names with its verdict, in order. */
    ghost predicate Lists(ns: seq<Node>, b: Basis)
      reads this
    {
      && installed == On(ns, b, Of(Installed))
      && installing == On(ns, b, Of(Installing))
      && waitingToInstall == On(ns, b, Of(WaitingToInstall))
      && failedToInstall == On(ns, b, Of(FailedToInstall))
      && uninstalling == On(ns, b, Of(Uninstalling))
      && waitingToUninstall == On(ns, b, Of(WaitingToUninstall))
      && failedToUninstall == On(ns, b, Of(FailedToUninstall))
    }

    method Clear()
      modifies this
      ensures Lists([], DsInstall) && nodeCount == old(nodeCount) && readyNodeCount == old(readyNodeCount)
    {
      installed, installing, waitingToInstall, failedToInstall := [], [], [], [];
      uninstalling, waitingToUninstall, failedToUninstall := [], [], [];
    }

    /** putNodeOnStatusList and its two DaemonSet forms: append the name to the list of its class. */
    method Put(node: Node, b: Basis, ghost before: seq<Node>) returns (err: bool)
      requires Lists(before, b)
      modifies this
      ensures Lists(before + [node], b) && err == (Judge(b, node) == Error)
      ensures nodeCount == old(nodeCount) && readyNodeCount == old(readyNodeCount)
    {
      hide Judge, On;
      var v := Judge(b, node);
      err := false;
      forall u ensures On(before + [node], b, u) == On(before, b, u) + (if v == u then [node.name] else []) {
        OnAppend(before, node, b, u);
      }
      match v
      case Error => err := true;
      case Unclassified =>
      case Of(c) =>
        match c
        case Installed => installed := installed + [node.name];
        case NotInstalled =>
        case Installing => installing := installing + [node.name];
        case Uninstalling => uninstalling := uninstalling + [node.name];
        case WaitingToInstall => waitingToInstall := waitingToInstall + [node.name];
        case WaitingToUninstall => waitingToUninstall := waitingToUninstall + [node.name];
        case FailedToInstall => failedToInstall := failedToInstall + [node.name];
        case FailedToUninstall => failedToUninstall := failedToUninstall + [node.name];
    }

    method PutAll(list: seq<Node>, b: Basis) returns (err: bool)
      modifies this
      ensures Lists(list, b) && nodeCount == old(nodeCount)
      ensures err <==> exists n | n in list :: Judge(b, n) == Error
    {
      hide Judge;
      Clear();
      err := false;
      for i := 0 to |list|
        invariant Lists(list[..i], b) && nodeCount == old(nodeCount)
        invariant err <==> exists n | n in list[..i] :: Judge(b, n) == Error
      {
        var e := Put(list[i], b, list[..i]);
        assert list[..i + 1] == list[..i] + [list[i]];
        if e {
          err := true;
        }
      }
      assert list[..|list|] == list;
    }

    /** updateStatus on a regular cluster: without the list of workers nothing is changed, without
        the list of kata nodes their number is taken for 0.
     */
    method UpdateStatus(ns: seq<Node>, pools: map<string, string>, workersReadable: bool, poolReadable: bool)
      returns (err: bool)
      modifies this
      ensures !workersReadable ==> err && unchanged(this)
      ensures workersReadable ==>
                && Lists(Workers(ns), Mco(pools))
                && nodeCount == (if poolReadable then |KataPool(ns)| else 0) && readyNodeCount == |installed|
                && (err <==> exists n | n in Workers(ns) :: Judge(Mco(pools), n) == Error)
    {
      if !workersReadable {
        return true;
      }
      nodeCount := if poolReadable then |KataPool(ns)| else 0;
      err := PutAll(Workers(ns), Mco(pools));
      readyNodeCount := |installed|;
    }

    /** The six lists that are sorted are sorted permutations of the names with their verdict. */
    ghost predicate SortedLists(ns: seq<Node>, b: Basis)
      reads this
    {
      && Sorts(On(ns, b, Of(Installed)), installed)
      && Sorts(On(ns, b, Of(Installing)), installing)
      && Sorts(On(ns, b, Of(WaitingToInstall)), waitingToInstall)
      && Sorts(On(ns, b, Of(Uninstalling)), uninstalling)
      && Sorts(On(ns, b, Of(WaitingToUninstall)), waitingToUninstall)
      && Sorts(On(ns, b, Of(FailedToInstall)), failedToInstall)
      && failedToUninstall == On(ns, b, Of(FailedToUninstall))
    }

    /** updateStatusDaemonSet: without the list of kata nodes nothing is changed. */
    method UpdateStatusDaemonSet(ns: seq<Node>, install: bool, poolReadable: bool) returns (err: bool)
      modifies this
      ensures err == !poolReadable
      ensures err ==> unchanged(this)
      ensures !err ==>
                && SortedLists(KataPool(ns), if install then DsInstall else DsUninstall)
                && nodeCount == |KataPool(ns)| && readyNodeCount == |installed|
    {
      hide On, Judge, SortStrings, Sorts, KataPool;
      if !poolReadable {
        return true;
      }
      nodeCount := |KataPool(ns)|;
      err := PutAll(KataPool(ns), if install then DsInstall else DsUninstall);
      DaemonSetNeverErrs(KataPool(ns), install);
      waitingToInstall := SortStrings(waitingToInstall);
      installing := SortStrings(installing);
      installed := SortStrings(installed);
      waitingToUninstall := SortStrings(waitingToUninstall);
      uninstalling := SortStrings(uninstalling);
      failedToInstall := SortStrings(failedToInstall);
      readyNodeCount := |installed|;
    }
  }

  lemma DaemonSetNeverErrs(ns: seq<Node>, install: bool)
    ensures forall n | n in ns :: Judge(if install then DsInstall else DsUninstall, n) != Error
  {}

  /** After updateStatus a name is on a list exactly when a worker of that name shows the list's picture. */
  lemma ListedExactlyWhen(ns: seq<Node>, pools: map<string, string>, c: Class, x: string)
    ensures x in On(Workers(ns), Mco(pools), Of(c)) <==>
            exists n :: n in ns && WORKER in n.labels && n.labels[WORKER] == "" && n.name == x && Shows(n, pools, c)
  {
    hide Judge, Shows, On, Workers;
    WorkersContents(ns);
    OnMembers(Workers(ns), Mco(pools), Of(c), x);
    forall n ensures Judge(Mco(pools), n) == Of(c) <==> Shows(n, pools, c) {
      JudgedByWhatItShows(n, pools, c);
    }
  }

  // ---------------------------------------------------------------- the metric

  /** The installation-success part of Collect. */
  method InstallationSuccess(conditions: seq<(string, string)>, nodeCount: int, readyNodeCount: int)
      returns (success: bool)
    ensures success <==> ("InProgress", "True") !in conditions && nodeCount > 0 && readyNodeCount == nodeCount
  {
    var inProgress := false;
    var i := 0;
    while i < |conditions|
      invariant 0 <= i <= |conditions| && !inProgress
      invariant ("InProgress", "True") !in conditions[..i]
    {
      if conditions[i].0 == "InProgress" && conditions[i].1 == "True" {
        inProgress := true;
        break;
      }
      i := i + 1;
    }
    assert !inProgress ==> conditions[..i] == conditions;
    success := !inProgress && nodeCount > 0 && readyNodeCount == nodeCount;
  }

  /** Every kata-oc label on a worker has the value the operator writes. */
  predicate PlainLabels(ns: seq<Node>) {
    forall n | n in ns && ListedWorker(n) && HasKataOc(n) :: InKataPool(n)
  }

  /** A worker counts as ready. */
  predicate Ready(b: Basis, n: Node) {
    ListedWorker(n) && Judge(b, n) == Of(Installed)
  }

  /** With plain labels the ready workers are among the kata nodes, so equal counts mean that all of them are ready. */
  lemma {:induction false} EqualCountsMeanAll(ns: seq<Node>, pools: map<string, string>)
    requires PlainLabels(ns)
    ensures Count(Workers(ns), Mco(pools), Installed) <= |KataPool(ns)|
    ensures Count(Workers(ns), Mco(pools), Installed) == |KataPool(ns)| <==>
              forall n | n in ns && InKataPool(n) :: Ready(Mco(pools), n)
  {
    var b := Mco(pools);
    if ns != [] {
      assert ns == [ns[0]] + ns[1..];
      assert forall n :: n in ns[1..] ==> n in ns;
      EqualCountsMeanAll(ns[1..], pools);
      if Judge(b, ns[0]) == Of(Installed) {
        ClassesMco(ns[0], pools);
      }
      CountWorkers(ns, b);
    }
  }

  lemma ClassesMco(n: Node, pools: map<string, string>)
    requires Judge(Mco(pools), n) == Of(Installed)
    ensures HasKataOc(n)
  {}

  lemma CountWorkers(ns: seq<Node>, b: Basis)
    requires ns != []
    ensures Count(Workers(ns), b, Installed) == Count(Workers(ns[1..]), b, Installed) + if Ready(b, ns[0]) then 1 else 0
  {
    hide Judge;
    var rest := Workers(ns[1..]);
    if ListedWorker(ns[0]) {
      assert Workers(ns) == [ns[0]] + rest;
      assert Workers(ns)[1..] == rest;
      assert On(Workers(ns), b, Of(Installed)) == (if Ready(b, ns[0]) then [ns[0].name] else [])
          + On(rest, b, Of(Installed));
    } else {
      assert Workers(ns) == rest;
    }
  }

  /** With distinct names and plain labels, equal counters mean exactly that every kata node is on
      the Installed list.
   */
  lemma MetricTellsTruth(ns: seq<Node>, pools: map<string, string>)
    requires DistinctNames(ns) && PlainLabels(ns)
    ensures var installed := On(Workers(ns), Mco(pools), Of(Installed));
            |installed| == |KataPool(ns)| <==> forall n | n in ns && InKataPool(n) :: n.name in installed
  {
    var b := Mco(pools);
    hide Judge;
    EqualCountsMeanAll(ns, pools);
    WorkersContents(ns);
    forall n | n in ns ensures n.name in On(Workers(ns), b, Of(Installed)) <==> Ready(b, n) {
      OnMembers(Workers(ns), b, Of(Installed), n.name);
      forall m | m in ns && m.name == n.name ensures m == n { NameDecides(ns, m, n); }
    }
  }

  lemma {:induction false} WorkersContents(ns: seq<Node>)
    ensures forall n :: n in Workers(ns) <==> n in ns && ListedWorker(n)
  {
    if ns != [] {
      assert ns == [ns[0]] + ns[1..];
      WorkersContents(ns[1..]);
    }
  }

  /** What the metric is taken for: equal counters mean that every kata node is installed. */
  predicate Truthful(ns: seq<Node>, pools: map<string, string>) {
    var installed := On(Workers(ns), Mco(pools), Of(Installed));
    |installed| == |KataPool(ns)| ==> forall n | n in ns && InKataPool(n) :: n.name in installed
  }

  /** The same nodes with the same labels, in whatever state the MCO has them. */
  predicate SameLabels(ns: seq<Node>, ns': seq<Node>) {
    |ns| == |ns'| && forall k :: 0 <= k < |ns| ==> ns'[k].name == ns[k].name && ns'[k].labels == ns[k].labels
  }

  /** The success metric tells the truth: the gauge read off a status just updated is 1 exactly when
      nothing is in progress, there are kata nodes, and every one of them is on the Installed list.
   */
  method GaugeAfterUpdate(conditions: seq<(string, string)>, ns: seq<Node>, pools: map<string, string>,
      poolReadable: bool)
    returns (success: bool, installed: seq<string>)
    requires DistinctNames(ns) && PlainLabels(ns)
    ensures installed == On(Workers(ns), Mco(pools), Of(Installed))
    ensures success <==>
              && ("InProgress", "True") !in conditions && poolReadable && KataPool(ns) != []
              && forall n | n in ns && InKataPool(n) :: n.name in installed
  {
    hide Judge, On;
    var status := new KataNodes;
    var _ := status.UpdateStatus(ns, pools, true, poolReadable);
    installed := status.installed;
    success := InstallationSuccess(conditions, status.nodeCount, status.readyNodeCount);
    MetricTellsTruth(ns, pools);
  }

  /** A worker whose kata-oc label has a value of its own: listed, but not counted. */
  predicate Foreign(n: Node) {
    ListedWorker(n) && HasKataOc(n) && !InKataPool(n)
  }

  /** Kata nodes, by whether they are workers. */
  predicate KataWorker(n: Node) {
    ListedWorker(n) && InKataPool(n)
  }

  predicate KataNonWorker(n: Node) {
    !ListedWorker(n) && InKataPool(n)
  }

  function Foreigns(ns: seq<Node>): nat {
    if ns == [] then 0 else (if Foreign(ns[0]) then 1 else 0) + Foreigns(ns[1..])
  }

  function KataWorkers(ns: seq<Node>): nat {
    if ns == [] then 0 else (if KataWorker(ns[0]) then 1 else 0) + KataWorkers(ns[1..])
  }

  function KataNonWorkers(ns: seq<Node>): nat {
    if ns == [] then 0 else (if KataNonWorker(ns[0]) then 1 else 0) + KataNonWorkers(ns[1..])
  }

  /** Enough foreign labels to make up for a kata node that is not installed. */
  predicate CanBeFooled(ns: seq<Node>) {
    || (KataNonWorkers(ns) >= 1 && Foreigns(ns) >= KataNonWorkers(ns))
    || (KataNonWorkers(ns) == 0 && Foreigns(ns) >= 1 && KataWorkers(ns) >= 1)
  }

  /** The kata pool is its workers and the others, and only workers with the label can be ready. */
  lemma {:induction false} CountsBound(ns: seq<Node>, ns': seq<Node>, pools: map<string, string>)
    requires SameLabels(ns, ns')
    ensures |KataPool(ns')| == KataWorkers(ns) + KataNonWorkers(ns)
    ensures Count(Workers(ns'), Mco(pools), Installed) <= KataWorkers(ns) + Foreigns(ns)
  {
    if ns != [] {
      CountsBound(ns[1..], ns'[1..], pools);
      CountWorkers(ns', Mco(pools));
      if Judge(Mco(pools), ns'[0]) == Of(Installed) {
        ClassesMco(ns'[0], pools);
      }
    }
  }

  lemma {:induction false} NoForeigns(ns: seq<Node>)
    ensures Foreigns(ns) == 0 <==> PlainLabels(ns)
  {
    if ns != [] {
      assert ns == [ns[0]] + ns[1..];
      NoForeigns(ns[1..]);
    }
  }

  const READY_STATE := map[MCO_STATE := "Done", CURRENT := "new"]
  const BUSY_STATE := map[MCO_STATE := "Working", CURRENT := "old"]
  const ONE_POOL := Mco(map["kata-oc" := "new"])

  /** The first `a` foreign workers and the first `b` kata workers are done, everything else is busy. */
  function Stage(ns: seq<Node>, a: nat, b: nat): seq<Node> {
    if ns == [] then []
    else if Foreign(ns[0]) && a > 0 then [ns[0].(annotations := READY_STATE)] + Stage(ns[1..], a - 1, b)
    else if KataWorker(ns[0]) && b > 0 then [ns[0].(annotations := READY_STATE)] + Stage(ns[1..], a, b - 1)
    else [ns[0].(annotations := BUSY_STATE)] + Stage(ns[1..], a, b)
  }

  lemma StateJudged(n: Node)
    ensures HasKataOc(n) ==> Judge(ONE_POOL, n.(annotations := READY_STATE)) == Of(Installed)
    ensures Judge(ONE_POOL, n.(annotations := BUSY_STATE)) != Of(Installed)
  {
    assert |MCO_STATE| != |CURRENT| && "Done"[0] != "Working"[0];
  }

  lemma {:induction false} StageCounts(ns: seq<Node>, a: nat, b: nat)
    requires a <= Foreigns(ns) && b <= KataWorkers(ns)
    ensures SameLabels(ns, Stage(ns, a, b))
    ensures Count(Workers(Stage(ns, a, b)), ONE_POOL, Installed) == a + b
  {
    hide Judge;
    if ns != [] {
      var a1 := if Foreign(ns[0]) && a > 0 then a - 1 else a;
      var b1 := if KataWorker(ns[0]) && b > 0 then b - 1 else b;
      var out := Stage(ns, a, b);
      assert out[1..] == Stage(ns[1..], a1, b1);
      StageCounts(ns[1..], a1, b1);
      CountWorkers(out, ONE_POOL);
      StateJudged(ns[0]);
    }
  }

  /** Unless all kata nodes are workers and all are to be done, one is left that is not ready. */
  lemma {:induction false} StageLeavesOne(ns: seq<Node>, a: nat, b: nat) returns (n: Node)
    requires KataNonWorkers(ns) >= 1 || b < KataWorkers(ns)
    ensures n in Stage(ns, a, b) && InKataPool(n) && !Ready(ONE_POOL, n)
  {
    hide Judge;
    StateJudged(ns[0]);
    var out := Stage(ns, a, b);
    if KataNonWorker(ns[0]) || (KataWorker(ns[0]) && b == 0) {
      n := out[0];
    } else {
      var a1 := if Foreign(ns[0]) && a > 0 then a - 1 else a;
      var b1 := if KataWorker(ns[0]) && b > 0 then b - 1 else b;
      n := StageLeavesOne(ns[1..], a1, b1);
      assert out == [out[0]] + Stage(ns[1..], a1, b1);
    }
  }

  lemma Fools(ns: seq<Node>) returns (ns': seq<Node>)
    requires DistinctNames(ns) && CanBeFooled(ns)
    ensures SameLabels(ns, ns') && !Truthful(ns', ONE_POOL.pools)
  {
    hide Judge, Stage, Workers, KataPool, Ready, Truthful;
    var p := KataWorkers(ns) + KataNonWorkers(ns);
    var a := if Foreigns(ns) <= p then Foreigns(ns) else p;
    ns' := Stage(ns, a, p - a);
    StageCounts(ns, a, p - a);
    CountsBound(ns, ns', ONE_POOL.pools);
    var n := StageLeavesOne(ns, a, p - a);
    HidesOne(ns', n);
  }

  lemma HidesOne(ns: seq<Node>, n: Node)
    requires DistinctNames(ns) && n in ns && InKataPool(n) && !Ready(ONE_POOL, n)
    requires Count(Workers(ns), ONE_POOL, Installed) == |KataPool(ns)|
    ensures !Truthful(ns, ONE_POOL.pools)
  {
    hide Judge;
    WorkersContents(ns);
    OnMembers(Workers(ns), ONE_POOL, Of(Installed), n.name);
    forall m | m in ns && m.name == n.name ensures m == n { NameDecides(ns, m, n); }
  }

  lemma CannotBeFooled(ns: seq<Node>, ns': seq<Node>, pools: map<string, string>)
    requires DistinctNames(ns) && !CanBeFooled(ns) && SameLabels(ns, ns')
    ensures Truthful(ns', pools)
  {
    hide Judge, On, Workers;
    CountsBound(ns, ns', pools);
    KataPoolContents(ns');
    if Foreigns(ns) == 0 {
      NoForeigns(ns);
      forall n | n in ns' ensures ListedWorker(n) && HasKataOc(n) ==> InKataPool(n) {
        var k :| 0 <= k < |ns'| && ns'[k] == n;
        assert ns[k] in ns;
      }
      MetricTellsTruth(ns', pools);
    }
  }

  /** How many labels with a value of their own the metric bears: for given labels it is truthful in
      every state of the MCO exactly when they cannot make up for a kata node.  One such label on a
      worker is enough if there are kata workers and all kata nodes are workers.
   */
  lemma MetricTrustworthyExactlyWhen(ns: seq<Node>)
    requires DistinctNames(ns)
    ensures (forall ns', pools :: SameLabels(ns, ns') ==> Truthful(ns', pools)) <==> !CanBeFooled(ns)
  {
    hide Truthful, CanBeFooled;
    if CanBeFooled(ns) {
      var ns' := Fools(ns);
    } else {
      forall ns', pools | SameLabels(ns, ns') ensures Truthful(ns', pools) {
        CannotBeFooled(ns, ns', pools);
      }
    }
  }

  // ---------------------------------------------------------------- DaemonSet mode

  lemma {:induction false} AllCounted(ns: seq<Node>, b: Basis, v: Verdict)
    ensures |On(ns, b, v)| <= |ns|
    ensures |On(ns, b, v)| == |ns| <==> forall n | n in ns :: Judge(b, n) == v
    ensures On(ns, b, v) == [] <==> forall n | n in ns :: Judge(b, n) != v
  {
    hide Judge;
    if ns != [] {
      assert ns == [ns[0]] + ns[1..];
      AllCounted(ns[1..], b, v);
    }
  }

  /** DaemonSet status agrees with progress: installation is finished exactly when the ready
      count reaches the node count, and uninstallation exactly when both uninstall lists are empty.
   */
  lemma StatusAgreesWithProgress(ns: seq<Node>)
    ensures PoolInState(ns, "installed") <==> Count(KataPool(ns), DsInstall, Installed) == |KataPool(ns)|
    ensures PoolInState(ns, "uninstalled") <==>
              On(KataPool(ns), DsUninstall, Of(WaitingToUninstall)) == []
                  && On(KataPool(ns), DsUninstall, Of(Uninstalling)) == []
  {
    var pool := KataPool(ns);
    KataPoolContents(ns);
    AllCounted(pool, DsInstall, Of(Installed));
    AllCounted(pool, DsUninstall, Of(WaitingToUninstall));
    AllCounted(pool, DsUninstall, Of(Uninstalling));
    assert "installed" != "installing" && "uninstalled" != "uninstalling";
  }

  /** The three install lists make up the kata pool. */
  lemma InstallListsCoverPool(pool: seq<Node>)
    ensures Count(pool, DsInstall, Installed) + Count(pool, DsInstall, Installing)
        + Count(pool, DsInstall, WaitingToInstall) == |pool|
  {
    ListsCoverAll(pool, DsInstall);
    AllCounted(pool, DsInstall, Of(NotInstalled));
    AllCounted(pool, DsInstall, Of(Uninstalling));
    AllCounted(pool, DsInstall, Of(WaitingToUninstall));
    AllCounted(pool, DsInstall, Of(FailedToInstall));
    AllCounted(pool, DsInstall, Of(FailedToUninstall));
    AllCounted(pool, DsInstall, Unclassified);
    AllCounted(pool, DsInstall, Error);
  }

  /** In DaemonSet mode the metric needs no assumption on the labels: the counter and the list come
      from the same nodes.
   */
  lemma MetricTellsTruthDaemonSet(ns: seq<Node>)
    requires DistinctNames(KataPool(ns))
    ensures var installed := On(KataPool(ns), DsInstall, Of(Installed));
            |installed| == |KataPool(ns)| <==> forall n | n in ns && InKataPool(n) :: n.name in installed
  {
    var pool := KataPool(ns);
    hide Judge;
    KataPoolContents(ns);
    AllCounted(pool, DsInstall, Of(Installed));
    forall n | n in pool
      ensures n.name in On(pool, DsInstall, Of(Installed)) <==> Judge(DsInstall, n) == Of(Installed)
    {
      OnMembers(pool, DsInstall, Of(Installed), n.name);
      forall m | m in pool && m.name == n.name ensures m == n { NameDecides(pool, m, n); }
    }
  }

  /** The same end to end for a DaemonSet install, whatever the labels. */
  method GaugeAfterUpdateDaemonSet(conditions: seq<(string, string)>, ns: seq<Node>)
      returns (success: bool, installed: seq<string>)
    requires DistinctNames(KataPool(ns))
    ensures Sorts(On(KataPool(ns), DsInstall, Of(Installed)), installed)
    ensures success <==>
              && ("InProgress", "True") !in conditions && KataPool(ns) != []
              && forall n | n in ns && InKataPool(n) :: n.name in installed
  {
    hide Judge, On, Sorts;
    var status := new KataNodes;
    var _ := status.UpdateStatusDaemonSet(ns, true, true);
    installed := status.installed;
    success := InstallationSuccess(conditions, status.nodeCount, status.readyNodeCount);
    MetricTellsTruthDaemonSet(ns);
    SameMembers(On(KataPool(ns), DsInstall, Of(Installed)), installed);
  }

  lemma SameMembers(s: seq<string>, t: seq<string>)
    requires Sorts(s, t)
    ensures |s| == |t| && forall x :: x in s <==> x in t
  {
    assert |multiset(s)| == |s| && |multiset(t)| == |t|;
    forall x ensures x in s <==> x in t {
      assert x in multiset(s) <==> x in multiset(t);
    }
  }
}
