/** The life of a RuntimeClass that the operator's finalizer protects, and the list of class
names the operator keeps in the KataConfig status.

The RuntimeClass controller decides on what its reads returned and writes later, so the
decision (`Check`) and the write (`Write`) are separate steps.  Reads may be stale and any
number of decisions may be outstanding, as after a restart.  Everybody else may create,
delete and edit classes in between, but leaves the operator's finalizer alone.
*/
module RuntimeClasses {
  import opened Options

  const FINALIZER := "kataconfig.openshift.io/runtime-class-cleanup"

  datatype Pod = Pod(runtimeClass: Option<string>, phase: string)

  /** A pod that keeps a class in use. */
  predicate Uses(pod: Pod, name: string) {
    pod.runtimeClass == Some(name) && pod.phase in {"Running", "Pending", "Unknown"}
  }

  /** The pod check of the controller. */
  method HasPodsUsingRuntimeClass(podList: Option<seq<Pod>>, name: string) returns (active: bool, err: bool)
    ensures err <==> podList.None?
    ensures active <==> podList.None? || exists pod :: pod in podList.value && Uses(pod, name)
  {
    if podList.None? {
      return true, true;
    }
    var pods := podList.value;
    for i := 0 to |pods|
      invariant forall j :: 0 <= j < i ==> !Uses(pods[j], name)
    {
      var pod := pods[i];
      if pod.runtimeClass.Some? && pod.runtimeClass.value == name {
        if pod.phase == "Running" || pod.phase == "Pending" || pod.phase == "Unknown" {
          assert pod in pods;
          return true, false;
        }
      }
    }
    return false, false;
  }

  // ---------------------------------------------------------------- the API server

  /** `version` is the resource version, new for every write. */
  datatype Class = Class(finalizers: set<string>, deleting: bool, version: nat)

  /** A decision to remove the finalizer: the object as read, and the pods as listed. */
  datatype Decision = Decision(name: string, copy: Class, pods: seq<Pod>)

  datatype State = State(classes: map<string, Class>, decisions: set<Decision>, next: nat)

  function Put(s: State, name: string, finalizers: set<string>, deleting: bool): State {
    if deleting && finalizers == {} then s.(classes := s.classes - {name})
    else s.(classes := s.classes[name := Class(finalizers, deleting, s.next)], next := s.next + 1)
  }

  datatype Step =
    | Check(name: string, copy: Class, podList: Option<seq<Pod>>)
    | Write(decision: Decision)
    | CreateClass(name: string)                        // createRuntimeClass
    | EnsureFinalizer(name: string)                    // ensureRuntimeClassFinalizers
    | DeleteClass(name: string)                        // by the operator or anybody else
    | ForeignEdit(name: string, finalizers: set<string>)

  /** What a read can return: any version of the past, and the present one only as it is. */
  predicate Readable(s: State, name: string, copy: Class) {
    copy.version < s.next && (name in s.classes && s.classes[name].version == copy.version ==> copy == s.classes[name])
  }

  predicate Free(name: string, pods: seq<Pod>) {
    forall pod | pod in pods :: !Uses(pod, name)
  }

  predicate Enabled(s: State, step: Step) {
    match step
    case Check(name, copy, _) => Readable(s, name, copy)
    case Write(d) => d in s.decisions
    case CreateClass(name) => name !in s.classes
    case EnsureFinalizer(name) => name in s.classes && !s.classes[name].deleting
    case DeleteClass(name) => name in s.classes
    case ForeignEdit(name, f) => name in s.classes && (FINALIZER in f <==> FINALIZER in s.classes[name].finalizers)
  }

  function Do(s: State, step: Step): State
    requires Enabled(s, step)
  {
    match step
    case Check(name, copy, podList) =>
      if FINALIZER in copy.finalizers && copy.deleting && podList.Some? && Free(name, podList.value)
      then s.(decisions := s.decisions + {Decision(name, copy, podList.value)})
      else s
    case Write(d) =>
      var s1 := s.(decisions := s.decisions - {d});
      if d.name in s.classes && s.classes[d.name].version == d.copy.version
      then Put(s1, d.name, d.copy.finalizers - {FINALIZER}, d.copy.deleting)
      else s1
    case CreateClass(name) => Put(s, name, {FINALIZER}, false)
    case EnsureFinalizer(name) => Put(s, name, s.classes[name].finalizers + {FINALIZER}, false)
    case DeleteClass(name) => Put(s, name, s.classes[name].finalizers, true)
    case ForeignEdit(name, f) => Put(s, name, f, s.classes[name].deleting)
  }

  /** The controller's two halves, on the API server's state. */
  class RuntimeClassReconciler {
    var api: State

    /** Reconcile up to its decision; `read` is None for a class that is not found. */
    method Reconcile(name: string, read: Option<Class>, podList: Option<seq<Pod>>) returns (decision: Option<Decision>)
      requires read.Some? ==> Readable(api, name, read.value)
      modifies this
      ensures api == if read.Some? then Do(old(api), Check(name, read.value, podList)) else old(api)
      ensures decision.Some? ==> decision.value in api.decisions
    {
      if read.None? || FINALIZER !in read.value.finalizers || !read.value.deleting {
        return None;
      }
      var active, err := HasPodsUsingRuntimeClass(podList, name);
      if err || active {
        return None;
      }
      decision := Some(Decision(name, read.value, podList.value));
      api := api.(decisions := api.decisions + {decision.value});
    }

    /** The write: the finalizer goes from the copy, and the copy goes to the API server. */
    method RemoveFinalizer(d: Decision)
      requires d in api.decisions
      modifies this
      ensures api == Do(old(api), Write(d))
    {
      api := api.(decisions := api.decisions - {d});
      var copy := d.copy.(finalizers := d.copy.finalizers - {FINALIZER});
      if d.name in api.classes && api.classes[d.name].version == copy.version {
        api := Put(api, d.name, copy.finalizers, copy.deleting);
      }
    }
  }

  // ---------------------------------------------------------------- all runs

  /** The class holds the operator's finalizer. */
  predicate Protected(s: State, name: string) {
    name in s.classes && FINALIZER in s.classes[name].finalizers
  }

  /** Every outstanding decision saw no pod, of an object that either is unchanged or was superseded. */
  predicate Valid(s: State) {
    && (forall name | name in s.classes :: s.classes[name].version < s.next)
    && (forall d | d in s.decisions :: Readable(s, d.name, d.copy) && d.copy.deleting && Free(d.name, d.pods))
  }

  lemma PutValid(s: State, name: string, f: set<string>, deleting: bool)
    requires Valid(s)
    ensures Valid(Put(s, name, f, deleting))
  {}

  lemma StepValid(s: State, step: Step)
    requires Valid(s) && Enabled(s, step)
    ensures Valid(Do(s, step))
  {
    hide Put, Uses;
    match step {
      case Check(name, copy, podList) =>
      case Write(d) => PutValid(s.(decisions := s.decisions - {d}), d.name, d.copy.finalizers - {FINALIZER},
          d.copy.deleting);
      case CreateClass(name) => PutValid(s, name, {FINALIZER}, false);
      case EnsureFinalizer(name) => PutValid(s, name, s.classes[name].finalizers + {FINALIZER}, false);
      case DeleteClass(name) => PutValid(s, name, s.classes[name].finalizers, true);
      case ForeignEdit(name, f) => PutValid(s, name, f, s.classes[name].deleting);
    }
  }

  /** A class leaves the operator's protection in one way only: by a write whose pod list had no
      active pod using it, on the very object that was read, which was being deleted.
   */
  predicate ReleasedProperly(s: State, step: Step, name: string) {
    step.Write? && step.decision.name == name && Free(name, step.decision.pods)
    && name in s.classes && step.decision.copy == s.classes[name] && s.classes[name].deleting
  }

  lemma StepReleases(s: State, step: Step, name: string)
    requires Valid(s) && Enabled(s, step) && Protected(s, name) && !Protected(Do(s, step), name)
    ensures ReleasedProperly(s, step, name)
  {
    hide Uses;
  }

  /** A class that the operator creates or finds without it is protected from then on. */
  lemma OperatorProtects(s: State, name: string)
    ensures Enabled(s, CreateClass(name)) ==>
              var r := Do(s, CreateClass(name)); Protected(r, name) && !r.classes[name].deleting
    ensures Enabled(s, EnsureFinalizer(name)) ==> Protected(Do(s, EnsureFinalizer(name)), name)
  {}

  /** The controller leaves alone what is not being deleted or not protected. */
  lemma OthersLeftAlone(s: State, name: string, copy: Class, podList: Option<seq<Pod>>)
    requires Readable(s, name, copy) && !(copy.deleting && FINALIZER in copy.finalizers)
    ensures Do(s, Check(name, copy, podList)) == s
  {}

  /** A run: consecutive states joined by enabled steps. */
  predicate IsRun(states: seq<State>, steps: seq<Step>) {
    |states| == |steps| + 1
    && forall i :: 0 <= i < |steps| ==> Enabled(states[i], steps[i]) && states[i + 1] == Do(states[i], steps[i])
  }

  lemma {:induction false} RunValid(states: seq<State>, steps: seq<Step>, i: nat)
    requires IsRun(states, steps) && i < |states| && Valid(states[0])
    ensures Valid(states[i])
  {
    if i > 0 {
      RunValid(states, steps, i - 1);
      StepValid(states[i - 1], steps[i - 1]);
    }
  }

  /** In every run from a state without outstanding decisions, whenever a protected class
      disappears or loses its finalizer, it was released properly.
   */
  lemma NeverReleasedInUse(states: seq<State>, steps: seq<Step>, i: nat, name: string)
    requires IsRun(states, steps) && i < |steps|
    requires states[0].decisions == {}
        && forall n | n in states[0].classes :: states[0].classes[n].version < states[0].next
    requires Protected(states[i], name) && !Protected(states[i + 1], name)
    ensures ReleasedProperly(states[i], steps[i], name)
    ensures forall pod | pod in steps[i].decision.pods && pod.runtimeClass == Some(name) ::
              pod.phase != "Running" && pod.phase != "Pending" && pod.phase != "Unknown"
  {
    hide Do, Enabled;
    RunValid(states, steps, i);
    StepReleases(states[i], steps[i], name);
    forall pod | pod in steps[i].decision.pods ensures !Uses(pod, name) {}
  }

  /** And it is released: an undisturbed check of a class under deletion leads to a decision
      exactly when the list call worked and showed no active pod, and the write then takes effect.
   */
  lemma ReleasedExactlyWhenFree(s: State, name: string, podList: Option<seq<Pod>>)
    requires Valid(s) && s.decisions == {} && Protected(s, name) && s.classes[name].deleting
    ensures var s1 := Do(s, Check(name, s.classes[name], podList));
            && (s1.decisions != {} <==>
                  podList.Some? && forall pod | pod in podList.value && pod.runtimeClass == Some(name) ::
                                     pod.phase != "Running" && pod.phase != "Pending" && pod.phase != "Unknown")
            && forall d | d in s1.decisions ::
                 var s2 := Do(s1, Write(d));
                 !Protected(s2, name) && (s.classes[name].finalizers == {FINALIZER} ==> name !in s2.classes)
  {
    forall pod: Pod ensures Uses(pod, name) <==>
      pod.runtimeClass == Some(name) && (pod.phase == "Running" || pod.phase == "Pending" || pod.phase == "Unknown")
    {}
  }

  // ---------------------------------------------------------------- Status.RuntimeClasses

  predicate Distinct(names: seq<string>) {
    forall i, j :: 0 <= i < j < |names| ==> names[i] != names[j]
  }

  /** The list without the first occurrence of a name. */
  function WithoutFirst(names: seq<string>, name: string): seq<string> {
    if names == [] then [] else if names[0] == name then names[1..] else [names[0]] + WithoutFirst(names[1..], name)
  }

  /** How the calls of createRuntimeClass or deleteRuntimeClass went. */
  datatype Found = ReadError | NotFound | Exists

  class StatusList {
    var names: seq<string>

    /** createRuntimeClass: `written` is whether the create or the patch it needs goes through. */
    method CreateRuntimeClass(name: string, found: Found, written: bool) returns (err: bool)
      modifies this
      ensures err <==> found == ReadError || !written
      ensures names == AfterCreate(old(names), name, found, written)
    {
      if found == ReadError || !written {
        return true;
      }
      var present := false;
      for i := 0 to |names|
        invariant !present && name !in names[..i]
      {
        if names[i] == name {
          present := true;
          break;
        }
      }
      if !present {
        assert names[..|names|] == names;
        names := names + [name];
      }
      return false;
    }

    /** deleteRuntimeClass: `deletion` is how the delete call answers. */
    method DeleteRuntimeClass(name: string, found: Found, deletion: Found) returns (err: bool)
      modifies this
      ensures err <==> found == ReadError || (found == Exists && deletion == ReadError)
      ensures names == AfterDelete(old(names), name, found, deletion)
    {
      if found != Exists {
        return found == ReadError;
      }
      if deletion != Exists {
        return deletion == ReadError;
      }
      for i := 0 to |names|
        invariant names == old(names) && name !in names[..i]
        invariant WithoutFirst(names, name) == names[..i] + WithoutFirst(names[i..], name)
      {
        if names[i] == name {
          names := names[..i] + names[i + 1..];
          return false;
        }
        assert names[i..][1..] == names[i + 1..];
      }
      return false;
    }
  }

  function AfterCreate(names: seq<string>, name: string, found: Found, written: bool): seq<string> {
    if found != ReadError && written && name !in names then names + [name] else names
  }

  function AfterDelete(names: seq<string>, name: string, found: Found, deletion: Found): seq<string> {
    if found == Exists && deletion == Exists then WithoutFirst(names, name) else names
  }

  /** WithoutFirst takes out one occurrence and keeps the rest in order. */
  lemma {:induction false} WithoutSplices(names: seq<string>, name: string) returns (i: nat)
    ensures name in names
        ==> i < |names| && names[i] == name && WithoutFirst(names, name) == names[..i] + names[i + 1..]
    ensures name !in names ==> WithoutFirst(names, name) == names
  {
    i := 0;
    if names != [] && names[0] != name {
      var rest := names[1..];
      assert names == [names[0]] + rest;
      var j := WithoutSplices(rest, name);
      i := j + 1;
      if name in names {
        assert name in rest;
        assert [names[0]] + (rest[..j] + rest[j + 1..]) == names[..i] + names[i + 1..];
      }
    }
  }

  lemma WithoutDistinct(names: seq<string>, name: string)
    requires Distinct(names)
    ensures Distinct(WithoutFirst(names, name)) && name !in WithoutFirst(names, name)
  {
    hide WithoutFirst;
    var i := WithoutSplices(names, name);
  }

  /** The list in memory and the one last written; a failed write throws the former away. */
  datatype Book = Book(mem: seq<string>, saved: seq<string>)

  datatype Entry =
    | Created(name: string, found: Found, written: bool)
    | Removed(name: string, found: Found, deletion: Found)
    | Saved
    | Reloaded

  function Keep(b: Book, e: Entry): Book {
    match e
    case Created(n, f, w) => b.(mem := AfterCreate(b.mem, n, f, w))
    case Removed(n, f, d) => b.(mem := AfterDelete(b.mem, n, f, d))
    case Saved => b.(saved := b.mem)
    case Reloaded => b.(mem := b.saved)
  }

  function KeepAll(b: Book, es: seq<Entry>): Book
    decreases |es|
  {
    if es == [] then b else KeepAll(Keep(b, es[0]), es[1..])
  }

  /** No sequence of creations, deletions, status writes and restarts makes a duplicate. */
  lemma {:induction false} NeverDuplicated(b: Book, es: seq<Entry>)
    requires Distinct(b.mem) && Distinct(b.saved)
    ensures Distinct(KeepAll(b, es).mem) && Distinct(KeepAll(b, es).saved)
    decreases |es|
  {
    if es != [] {
      if es[0].Removed? {
        WithoutDistinct(b.mem, es[0].name);
      }
      NeverDuplicated(Keep(b, es[0]), es[1..]);
    }
  }

  /** A name is listed after a creation exactly when it was before or the calls succeeded; the other
      names stay as they are.
   */
  lemma NameListedExactlyWhen(names: seq<string>, name: string, found: Found, written: bool)
    ensures var r := AfterCreate(names, name, found, written);
            && names <= r && |r| <= |names| + 1
            && (name in r <==> name in names || (found != ReadError && written))
            && (forall n :: n in r ==> n in names || n == name)
  {}

  /** A name leaves the list exactly when the class was found and the delete call took effect: a
      class that was already gone stays listed.
   */
  lemma NameLeavesExactlyWhen(names: seq<string>, name: string, found: Found, deletion: Found)
    requires Distinct(names) && name in names
    ensures name !in AfterDelete(names, name, found, deletion) <==> found == Exists && deletion == Exists
  {
    WithoutDistinct(names, name);
  }
}
