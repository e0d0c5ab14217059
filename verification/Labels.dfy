/** Nodes, label selectors, and the node-by-node label edits of the operator.

Every loop of the operator that edits node labels has the same shape: list the
nodes, and for each node the edit applies to, change its labels and write the
node back, giving up at the first write that fails.  `Sweep` is that shape;
the four edits are the constructors of `Edit`.
*/
module Labels {

  const WORKER := "node-role.kubernetes.io/worker"
  const KATA_OC := "node-role.kubernetes.io/kata-oc"
  const MCO_STATE := "machineconfiguration.openshift.io/state"
  const DS_STATE := "kataconfiguration.openshift.io/kata-ds-rpm-install"

  type LabelMap = map<string, string>

  /** One requirement of a Kubernetes label selector; `matchLabels` entries are `In` with one value. */
  datatype Requirement =
    | In(key: string, values: set<string>)
    | NotIn(key: string, values: set<string>)
    | Exists(key: string)
    | DoesNotExist(key: string)

  type Selector = seq<Requirement>

  predicate Satisfies(r: Requirement, m: LabelMap) {
    match r
    case In(k, vs) => k in m && m[k] in vs
    case NotIn(k, vs) => k in m ==> m[k] !in vs
    case Exists(k) => k in m
    case DoesNotExist(k) => k !in m
  }

  /** Requirements as Kubernetes documents them: a missing key satisfies the two negative ones. */
  lemma RequirementLaws(k: string, vs: set<string>, v: string, m: LabelMap)
    ensures Satisfies(NotIn(k, vs), m) == !Satisfies(In(k, vs), m)
    ensures Satisfies(DoesNotExist(k), m) == !Satisfies(Exists(k), m)
    ensures Satisfies(In(k, vs), m) ==> Satisfies(Exists(k), m)
    ensures Satisfies(In(k, vs), m[k := v]) == (v in vs) && Satisfies(Exists(k), m[k := v])
    ensures !Satisfies(Exists(k), m - {k})
  {}

  predicate Matches(s: Selector, m: LabelMap) {
    forall r | r in s :: Satisfies(r, m)
  }

  predicate Mentions(s: Selector, key: string) {
    exists r | r in s :: r.key == key
  }

  /** A selector is blind to the keys it does not mention. */
  lemma MatchesIgnores(s: Selector, key: string, m: LabelMap, v: string)
    requires !Mentions(s, key)
    ensures Matches(s, m[key := v]) == Matches(s, m)
  {
    forall r | r in s ensures Satisfies(r, m[key := v]) == Satisfies(r, m) {
      assert r.key != key;
    }
  }

  function Labelled(m: LabelMap, v: string): LabelMap {
    m[KATA_OC := v]
  }

  /** The labels of a worker without the kata-oc label. */
  predicate BareWorker(m: LabelMap) {
    WORKER in m && m[WORKER] == "" && KATA_OC !in m
  }

  /** Giving a worker the kata-oc label, with whatever value, does not make it stop matching. */
  ghost predicate Stable(s: Selector) {
    forall m: LabelMap, v: string :: BareWorker(m) && Matches(s, m) ==> Matches(s, Labelled(m, v))
  }

  /** The requirements that the kata-oc label can break. */
  predicate Rejects(r: Requirement) {
    r.key == KATA_OC && (r.DoesNotExist? || (r.NotIn? && r.values != {}))
  }

  /** A selector without such a requirement is stable; so is every one that does not mention the label. */
  lemma StableSelectors(s: Selector)
    ensures (forall r | r in s :: !Rejects(r)) ==> Stable(s)
    ensures !Mentions(s, KATA_OC) ==> Stable(s)
  {
    if forall r | r in s :: !Rejects(r) {
      forall m: LabelMap, v: string | BareWorker(m) && Matches(s, m) ensures Matches(s, Labelled(m, v)) {
        forall r | r in s ensures Satisfies(r, Labelled(m, v)) {
          assert Satisfies(r, m) && !Rejects(r);
        }
      }
    }
  }

  datatype Node = Node(name: string, labels: LabelMap, annotations: map<string, string>)

  /** The worker list is fetched with the selector `worker=""`. */
  predicate ListedWorker(n: Node) {
    WORKER in n.labels && n.labels[WORKER] == ""
  }

  predicate HasKataOc(n: Node) {
    KATA_OC in n.labels
  }

  /** The kata pool is fetched with the selector `kata-oc=""`. */
  predicate InKataPool(n: Node) {
    KATA_OC in n.labels && n.labels[KATA_OC] == ""
  }

  /** The DaemonSet-mode state label; a missing label reads as "". */
  function DsState(n: Node): string {
    if DS_STATE in n.labels then n.labels[DS_STATE] else ""
  }

  datatype Edit =
    | SyncKataOc(sel: Selector)              // updateNodeLabels
    | DropKataOc(sel: Selector)              // unlabelNodes
    | DropKataOcAndState(sel: Selector)      // unlabelNodesDaemonSet
    | SetState(sel: Selector, state: string) // labelNodes

  /** Does the loop write node `n`? */
  predicate Applies(e: Edit, n: Node) {
    match e
    case SyncKataOc(sel) => ListedWorker(n) && Matches(sel, n.labels) != HasKataOc(n)
    case DropKataOc(sel) => Matches(sel, n.labels) && HasKataOc(n)
    case DropKataOcAndState(sel) => Matches(sel, n.labels) && HasKataOc(n)
    case SetState(sel, _) => Matches(sel, n.labels)
  }

  function Apply(e: Edit, n: Node): Node {
    match e
    case SyncKataOc(_) =>
      if HasKataOc(n) then n.(labels := n.labels - {KATA_OC}) else n.(labels := n.labels[KATA_OC := ""])
    case DropKataOc(_) => n.(labels := n.labels - {KATA_OC})
    case DropKataOcAndState(_) => n.(labels := n.labels - {KATA_OC, DS_STATE})
    case SetState(_, state) => n.(labels := n.labels[DS_STATE := state])
  }

  datatype Swept = Swept(nodes: seq<Node>, changed: bool, failed: bool)

  /** The loop: write the nodes the edit applies to, stop at the first whose write fails. */
  function Sweep(ns: seq<Node>, e: Edit, failing: set<string>): Swept {
    if ns == [] then Swept([], false, false)
    else if !Applies(e, ns[0]) then
      var r := Sweep(ns[1..], e, failing);
      r.(nodes := [ns[0]] + r.nodes)
    else if ns[0].name in failing then Swept(ns, false, true)
    else
      var r := Sweep(ns[1..], e, failing);
      Swept([Apply(e, ns[0])] + r.nodes, true, r.failed)
  }

  /** Some node is left for the edit. */
  predicate Work(ns: seq<Node>, e: Edit) {
    exists n | n in ns :: Applies(e, n)
  }

  /** How many nodes the edit applies to. */
  function WorkCount(ns: seq<Node>, e: Edit): nat {
    if ns == [] then 0 else (if Applies(e, ns[0]) then 1 else 0) + WorkCount(ns[1..], e)
  }

  /** A write is attempted that fails. */
  predicate Trips(ns: seq<Node>, e: Edit, failing: set<string>) {
    exists n | n in ns :: Applies(e, n) && n.name in failing
  }

  lemma {:induction false} SweepFails(ns: seq<Node>, e: Edit, failing: set<string>)
    ensures Sweep(ns, e, failing).failed <==> Trips(ns, e, failing)
    ensures Sweep(ns, e, failing).failed ==> Work(Sweep(ns, e, failing).nodes, e)
  {
    if ns != [] {
      SweepFails(ns[1..], e, failing);
      var r := Sweep(ns[1..], e, failing);
      assert ns == [ns[0]] + ns[1..];
      if Applies(e, ns[0]) && ns[0].name in failing {
        assert ns[0] in ns;
      } else if r.failed {
        var n :| n in r.nodes && Applies(e, n);
        assert n in Sweep(ns, e, failing).nodes;
      }
    }
  }

  /** How far the loop gets: the first node whose write is attempted and fails, or all of them. */
  function Reach(ns: seq<Node>, e: Edit, failing: set<string>): (k: nat)
    ensures k <= |ns|
    ensures k < |ns| ==> Applies(e, ns[k]) && ns[k].name in failing
    ensures forall i :: 0 <= i < k && Applies(e, ns[i]) ==> ns[i].name !in failing
  {
    if ns == [] then 0
    else if Applies(e, ns[0]) && ns[0].name in failing then 0
    else 1 + Reach(ns[1..], e, failing)
  }

  /** The nodes before the reached point are done; the failing node and all after it are untouched. */
  lemma {:induction false} SweepAt(ns: seq<Node>, e: Edit, failing: set<string>)
    ensures |Sweep(ns, e, failing).nodes| == |ns|
    ensures forall i :: 0 <= i < |ns| ==>
              Sweep(ns, e, failing).nodes[i] == if i < Reach(ns, e, failing) && Applies(e, ns[i]) then Apply(e, ns[i])
                  else ns[i]
    ensures Sweep(ns, e, failing).failed <==> Reach(ns, e, failing) < |ns|
  {
    if ns == [] || (Applies(e, ns[0]) && ns[0].name in failing) {
    } else {
      SweepAt(ns[1..], e, failing);
      var out, rest := Sweep(ns, e, failing).nodes, Sweep(ns[1..], e, failing).nodes;
      assert out == [out[0]] + rest;
      forall i | 0 <= i < |ns|
        ensures out[i] == if i < Reach(ns, e, failing) && Applies(e, ns[i]) then Apply(e, ns[i]) else ns[i]
      {
        if i > 0 {
          assert out[i] == rest[i - 1] && ns[i] == ns[1..][i - 1];
        }
      }
    }
  }

  lemma {:induction false} NoWork(ns: seq<Node>, e: Edit)
    ensures Work(ns, e) <==> WorkCount(ns, e) > 0
  {
    if ns != [] {
      NoWork(ns[1..], e);
      assert ns == [ns[0]] + ns[1..];
    }
  }

  /** A sweep over nodes that need nothing changes nothing and cannot fail. */
  lemma {:induction false} SweepNoOp(ns: seq<Node>, e: Edit, failing: set<string>)
    requires !Work(ns, e)
    ensures Sweep(ns, e, failing) == Swept(ns, false, false)
  {
    if ns != [] {
      assert ns == [ns[0]] + ns[1..];
      assert forall n :: n in ns[1..] ==> n in ns;
      SweepNoOp(ns[1..], e, failing);
    }
  }

  /** A sweep changes a node exactly when the first node it applies to can be written. */
  lemma {:induction false} SweepChanges(ns: seq<Node>, e: Edit, failing: set<string>)
    ensures !Trips(ns, e, failing) ==> (Sweep(ns, e, failing).changed <==> Work(ns, e))
    ensures Sweep(ns, e, failing).changed ==> Work(ns, e)
  {
    if ns != [] {
      SweepChanges(ns[1..], e, failing);
      assert ns == [ns[0]] + ns[1..];
      assert forall n :: n in ns[1..] ==> n in ns;
    }
  }

  /** Does writing the edit settle node `n`, so that the edit no longer applies to it? */
  predicate Settles(e: Edit, n: Node) {
    !Applies(e, Apply(e, n))
  }

  /** A completed sweep leaves work exactly when some node it wrote is not settled by the write. */
  lemma SweepSettles(ns: seq<Node>, e: Edit, failing: set<string>)
    requires !Trips(ns, e, failing)
    ensures Work(Sweep(ns, e, failing).nodes, e) <==> exists n | n in ns :: Applies(e, n) && !Settles(e, n)
  {
    SweepAt(ns, e, failing);
    SweepFails(ns, e, failing);
    var out := Sweep(ns, e, failing).nodes;
    if Work(out, e) {
      var n :| n in out && Applies(e, n);
      var i :| 0 <= i < |out| && out[i] == n;
      assert ns[i] in ns;
    }
    if n :| n in ns && Applies(e, n) && !Settles(e, n) {
      var i :| 0 <= i < |ns| && ns[i] == n;
      assert out[i] in out;
    }
  }

  /** With edits that settle what they write, the work never grows, and shrinks whenever a node was written. */
  lemma {:induction false} SweepShrinks(ns: seq<Node>, e: Edit, failing: set<string>)
    requires forall n :: n in ns && Applies(e, n) ==> Settles(e, n)
    ensures WorkCount(Sweep(ns, e, failing).nodes, e) <= WorkCount(ns, e)
    ensures Sweep(ns, e, failing).changed ==> WorkCount(Sweep(ns, e, failing).nodes, e) < WorkCount(ns, e)
  {
    if ns != [] {
      assert ns == [ns[0]] + ns[1..];
      assert forall n :: n in ns[1..] ==> n in ns;
      SweepShrinks(ns[1..], e, failing);
      assert Sweep(ns, e, failing).nodes != [] ==>
               Sweep(ns, e, failing).nodes[1..] == if Applies(e, ns[0]) && ns[0].name in failing then ns[1..]
                   else Sweep(ns[1..], e, failing).nodes;
    }
  }

  /** Dropping the label always settles. */
  lemma DropSettles(sel: Selector, n: Node)
    ensures Settles(DropKataOc(sel), n) && Settles(DropKataOcAndState(sel), n)
  {}

  /** What a pass over the labels tells its caller: it failed exactly when a write did, a
      failure leaves work, and otherwise a change is reported exactly when there was work.
   */
  lemma SweepReport(ns: seq<Node>, e: Edit, failing: set<string>)
    ensures var u := Sweep(ns, e, failing);
            && (u.failed <==> Trips(ns, e, failing))
            && (u.failed ==> Work(u.nodes, e))
            && (u.changed ==> Work(ns, e))
            && (!u.failed ==> (u.changed <==> Work(ns, e)))
  {
    SweepFails(ns, e, failing);
    SweepChanges(ns, e, failing);
  }

  /** A completed removal leaves nothing to remove. */
  lemma DropDone(ns: seq<Node>, sel: Selector, failing: set<string>)
    requires !Trips(ns, DropKataOc(sel), failing)
    ensures !Work(Sweep(ns, DropKataOc(sel), failing).nodes, DropKataOc(sel))
  {
    SweepSettles(ns, DropKataOc(sel), failing);
    forall n | n in ns ensures Settles(DropKataOc(sel), n) { DropSettles(sel, n); }
  }

  /** A completed labelling leaves nothing to label, if the selector is stable. */
  lemma SyncDone(ns: seq<Node>, sel: Selector, failing: set<string>)
    requires Stable(sel)
    requires !Trips(ns, SyncKataOc(sel), failing)
    ensures !Work(Sweep(ns, SyncKataOc(sel), failing).nodes, SyncKataOc(sel))
  {
    SweepSettles(ns, SyncKataOc(sel), failing);
    forall n | n in ns && Applies(SyncKataOc(sel), n) ensures Settles(SyncKataOc(sel), n) { SyncSettles(sel, n); }
  }

  /** Labelling converges: for a stable selector, a pass
      that meets no failing write leaves label presence equal to selector match on every
      worker, reports a change exactly when some worker was out of date, and makes every
      further pass a no-op.
   */
  lemma LabellingConverges(ns: seq<Node>, sel: Selector, failing: set<string>, failing': set<string>)
    requires Stable(sel)
    requires !Trips(ns, SyncKataOc(sel), failing)
    ensures var out := Sweep(ns, SyncKataOc(sel), failing);
            && !out.failed
            && (out.changed <==> exists n | n in ns :: ListedWorker(n) && Matches(sel, n.labels) != HasKataOc(n))
            && (forall n | n in out.nodes && ListedWorker(n) :: Matches(sel, n.labels) == HasKataOc(n))
            && Sweep(out.nodes, SyncKataOc(sel), failing') == Swept(out.nodes, false, false)
  {
    var e := SyncKataOc(sel);
    var out := Sweep(ns, e, failing);
    SweepReport(ns, e, failing);
    SyncDone(ns, sel, failing);
    assert forall n | n in out.nodes :: !Applies(e, n);
    SweepNoOp(out.nodes, e, failing');
  }

  lemma SyncSettles(sel: Selector, n: Node)
    requires Stable(sel)
    requires Applies(SyncKataOc(sel), n)
    ensures Settles(SyncKataOc(sel), n)
  {
    assert |WORKER| != |KATA_OC|;
    var bare := n.labels - {KATA_OC};
    if HasKataOc(n) {
      assert n.labels == Labelled(bare, n.labels[KATA_OC]);
    } else {
      assert Matches(sel, Labelled(n.labels, ""));
    }
  }

  /** Stable selectors are exactly those for which every completed pass over every list of nodes
      leaves nothing to do.
   */
  lemma LabellingConvergesExactlyWhen(sel: Selector)
    ensures (forall ns: seq<Node>, failing: set<string> | !Trips(ns, SyncKataOc(sel), failing) ::
               !Work(Sweep(ns, SyncKataOc(sel), failing).nodes, SyncKataOc(sel))) <==> Stable(sel)
  {
    if Stable(sel) {
      forall ns: seq<Node>, failing: set<string> | !Trips(ns, SyncKataOc(sel), failing)
        ensures !Work(Sweep(ns, SyncKataOc(sel), failing).nodes, SyncKataOc(sel))
      {
        SyncDone(ns, sel, failing);
      }
    } else {
      var m: LabelMap, v: string :| BareWorker(m) && Matches(sel, m) && !Matches(sel, Labelled(m, v));
      assert |WORKER| != |KATA_OC| && Labelled(m, v) - {KATA_OC} == m;
      UnstableOscillates(sel, Node("", Labelled(m, v), map[]));
    }
  }

  /** A worker that stops matching because of its label loses it and then needs it again. */
  lemma UnstableOscillates(sel: Selector, n: Node)
    requires ListedWorker(n) && HasKataOc(n) && !Matches(sel, n.labels) && Matches(sel, n.labels - {KATA_OC})
    ensures !Trips([n], SyncKataOc(sel), {}) && Work(Sweep([n], SyncKataOc(sel), {}).nodes, SyncKataOc(sel))
  {
    var e := SyncKataOc(sel);
    SweepSettles([n], e, {});
    assert |WORKER| != |KATA_OC|;
    assert n in [n] && Applies(e, n) && !Settles(e, n);
  }

  /** An interrupted labelling pass leaves the failing worker stale and untouched, never
      adds stale workers, and removes one for each worker it wrote.
   */
  lemma InterruptedLabelling(ns: seq<Node>, sel: Selector, failing: set<string>)
    requires Stable(sel)
    requires Trips(ns, SyncKataOc(sel), failing)
    ensures var e, out := SyncKataOc(sel), Sweep(ns, SyncKataOc(sel), failing);
            var k := Reach(ns, e, failing);
            && out.failed
            && k < |ns| == |out.nodes| && out.nodes[k..] == ns[k..] && Applies(e, out.nodes[k])
            && WorkCount(out.nodes, e) <= WorkCount(ns, e)
            && (out.changed ==> WorkCount(out.nodes, e) < WorkCount(ns, e))
  {
    var e, out := SyncKataOc(sel), Sweep(ns, SyncKataOc(sel), failing);
    SweepFails(ns, e, failing);
    SweepAt(ns, e, failing);
    var k := Reach(ns, e, failing);
    assert out.nodes[k..] == ns[k..];
    forall n | n in ns && Applies(e, n) ensures Settles(e, n) {
      SyncSettles(sel, n);
    }
    SweepShrinks(ns, e, failing);
  }

  /** An edit touches only the kata-oc label and the DaemonSet state; the two kata-oc loops of
      MachineConfig mode leave the DaemonSet state alone as well.
   */
  lemma ApplyFrame(e: Edit, n: Node)
    ensures var n' := Apply(e, n);
            && n'.name == n.name && n'.annotations == n.annotations
            && n'.labels - {KATA_OC, DS_STATE} == n.labels - {KATA_OC, DS_STATE}
            && (e.SyncKataOc? || e.DropKataOc? ==> n'.labels - {KATA_OC} == n.labels - {KATA_OC})
  {}

  /** So every sweep keeps the number, the order, the names and the annotations of the nodes, and all other labels. */
  lemma SweepFrame(ns: seq<Node>, e: Edit, failing: set<string>, i: nat)
    requires i < |ns|
    ensures var out := Sweep(ns, e, failing).nodes;
            && |out| == |ns|
            && out[i].name == ns[i].name && out[i].annotations == ns[i].annotations
            && out[i].labels - {KATA_OC, DS_STATE} == ns[i].labels - {KATA_OC, DS_STATE}
            && (e.SyncKataOc? || e.DropKataOc? ==> out[i].labels - {KATA_OC} == ns[i].labels - {KATA_OC})
            && (!Applies(e, ns[i]) ==> out[i] == ns[i])
  {
    SweepAt(ns, e, failing);
    ApplyFrame(e, ns[i]);
  }

  /** What a label loop that meets no failing write makes of the labels of one node. */
  lemma LabelsAfter(ns: seq<Node>, e: Edit, failing: set<string>, i: nat)
    requires i < |ns| && !Trips(ns, e, failing)
    ensures |Sweep(ns, e, failing).nodes| == |ns|
    ensures var m, out := ns[i].labels, Sweep(ns, e, failing).nodes[i].labels;
            match e
            case SyncKataOc(sel) =>
              if WORKER !in m || m[WORKER] != "" then out == m
              else if !Matches(sel, m) then out == m - {KATA_OC}
              else if KATA_OC in m then out == m
              else out == m[KATA_OC := ""]
            case DropKataOc(sel) => out == if Matches(sel, m) then m - {KATA_OC} else m
            case DropKataOcAndState(sel) =>
              out == if Matches(sel, m) && KATA_OC in m then m - {KATA_OC} - {DS_STATE} else m
            case SetState(sel, state) => out == if Matches(sel, m) then m[DS_STATE := state] else m
  {
    hide Matches;
    SweepAt(ns, e, failing);
    SweepFails(ns, e, failing);
    var m := ns[i].labels;
    assert KATA_OC !in m ==> m - {KATA_OC} == m;
    assert m - {KATA_OC} - {DS_STATE} == m - {KATA_OC, DS_STATE};
  }

  /** Marking the nodes with one state makes the kata pool read as being in another exactly when no
      node of the pool was marked and all were in that state before.
   */
  lemma MarkReadsExactlyWhen(ns: seq<Node>, sel: Selector, mark: string, failing: set<string>, other: string)
    requires mark != other
    ensures var e := SetState(sel, mark);
            PoolInState(Sweep(ns, e, failing).nodes, other) <==>
            forall i :: 0 <= i < |ns| && InKataPool(ns[i]) ==>
              DsState(ns[i]) == other && (Matches(sel, ns[i].labels) ==> i >= Reach(ns, e, failing))
  {
    hide Matches, Sweep, Reach;
    var e := SetState(sel, mark);
    var out := Sweep(ns, e, failing).nodes;
    SweepAt(ns, e, failing);
    assert |KATA_OC| != |DS_STATE|;
    if PoolInState(out, other) {
      forall i | 0 <= i < |ns| && InKataPool(ns[i])
        ensures DsState(ns[i]) == other && (Matches(sel, ns[i].labels) ==> i >= Reach(ns, e, failing))
      {
        assert out[i] in out && InKataPool(out[i]);
      }
    } else {
      var n :| n in out && InKataPool(n) && DsState(n) != other;
      var i :| 0 <= i < |out| && out[i] == n;
      assert InKataPool(ns[i]);
    }
  }

  /** The convergence law needs its hypothesis: a selector that rejects labelled nodes makes
      the operator label a worker in one pass and unlabel it in the next, for ever.
   */
  lemma SelfReferringSelectorOscillates(name: string)
    ensures var sel := [DoesNotExist(KATA_OC)];
            var bare := [Node(name, map[WORKER := ""], map[])];
            var labelled := [Node(name, map[WORKER := "", KATA_OC := ""], map[])];
            && Sweep(bare, SyncKataOc(sel), {}) == Swept(labelled, true, false)
            && Sweep(labelled, SyncKataOc(sel), {}) == Swept(bare, true, false)
  {
    assert |WORKER| != |KATA_OC|;
    var sel := [DoesNotExist(KATA_OC)];
    var e := SyncKataOc(sel);
    var bare := Node(name, map[WORKER := ""], map[]);
    var labelled := Node(name, map[WORKER := "", KATA_OC := ""], map[]);
    assert Satisfies(sel[0], bare.labels) && !Satisfies(sel[0], labelled.labels);
    assert Apply(e, bare) == labelled && Apply(e, labelled) == bare;
    assert Sweep([], e, {}) == Swept([], false, false);
    assert [bare][1..] == [] && [labelled][1..] == [];
  }

  /** getNodesWithLabels(kata-oc="") */
  function KataPool(ns: seq<Node>): seq<Node> {
    if ns == [] then [] else (if InKataPool(ns[0]) then [ns[0]] else []) + KataPool(ns[1..])
  }

  lemma {:induction false} KataPoolContents(ns: seq<Node>)
    ensures forall n :: n in KataPool(ns) <==> n in ns && InKataPool(n)
  {
    if ns != [] {
      assert ns == [ns[0]] + ns[1..];
      KataPoolContents(ns[1..]);
    }
  }

  /** Every node of the kata pool carries the state. */
  predicate PoolInState(ns: seq<Node>, state: string) {
    forall n | n in ns && InKataPool(n) :: DsState(n) == state
  }
}
