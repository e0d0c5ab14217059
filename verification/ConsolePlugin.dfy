/** The console-plugin enablement protocol: read-modify-write with conflict retry on one shared,
versioned object (the Console operator configuration), by any number of plugin reconcilers
and an administrator, in any interleaving and with stale reads.

`versions` is every value the object has had, oldest first, with its author.  A write is
accepted only if it is based on the newest version, which is all the API server promises.
*/
module ConsolePlugin {
  import opened Selections

  datatype Console = Console(plugins: seq<string>, annotations: map<string, string>)

  const MARKER_PREFIX := "consoleplugin.openshift.io/enabled-"

  function MarkerKey(name: string): string {
    MARKER_PREFIX + name
  }

  /** Each plugin has its own marker. */
  lemma MarkerKeyInjective(a: string, b: string)
    requires MarkerKey(a) == MarkerKey(b)
    ensures a == b
  {
    assert MarkerKey(a)[|MARKER_PREFIX|..] == a;
    assert MarkerKey(b)[|MARKER_PREFIX|..] == b;
  }

  datatype Op = Sync | Disable

  function Without(ps: seq<string>, name: string): seq<string> {
    if ps == [] then [] else (if ps[0] != name then [ps[0]] else []) + Without(ps[1..], name)
  }

  predicate Enabled(c: Console, name: string) {
    name in c.plugins
  }

  predicate Marked(c: Console, name: string) {
    MarkerKey(name) in c.annotations
  }

  /** Does the operation, having read `c`, go on to write? */
  predicate Writes(op: Op, name: string, c: Console) {
    match op
    case Sync => Enabled(c, name) != Marked(c, name)
    case Disable => Enabled(c, name) || Marked(c, name)
  }

  /** What it writes. */
  function Edit(op: Op, name: string, c: Console): Console {
    match op
    case Sync =>
      if Enabled(c, name) then c.(annotations := c.annotations[MarkerKey(name) := "true"])
      else c.(annotations := c.annotations - {MarkerKey(name)})
    case Disable => Console(Without(c.plugins, name), c.annotations - {MarkerKey(name)})
  }

  // ---------------------------------------------------------------- interleavings

  datatype Author = Creation | Admin | Operator(name: string, op: Op)

  datatype Version = Version(console: Console, author: Author)

  /** An operation between its read of version `base` and its write. */
  datatype Attempt = Attempt(name: string, op: Op, base: nat)

  datatype World = World(versions: seq<Version>, inFlight: map<nat, Attempt>)

  datatype Step =
    | AdminEdit(console: Console)
    | Get(id: nat, attempt: Attempt)   // any version seen so far may be read: the cache can be stale
    | Update(id: nat)                  // the write; on a conflict the attempt is over, and a retry is another Get

  function Do(w: World, step: Step): World {
    match step
    case AdminEdit(c) => w.(versions := w.versions + [Version(c, Admin)])
    case Get(id, a) =>
      if a.base < |w.versions| && Writes(a.op, a.name, w.versions[a.base].console)
      then w.(inFlight := w.inFlight[id := a]) else w.(inFlight := w.inFlight - {id})
    case Update(id) =>
      if id !in w.inFlight then w
      else
        var a := w.inFlight[id];
        if a.base == |w.versions| - 1
        then
          var v := Version(Edit(a.op, a.name, w.versions[a.base].console), Operator(a.name, a.op));
          World(w.versions + [v], w.inFlight - {id})
        else w.(inFlight := w.inFlight - {id})
  }

  function Run(w: World, steps: seq<Step>): World
    decreases |steps|
  {
    if steps == [] then w else Run(Do(w, steps[0]), steps[1..])
  }

  /** Version i is an administrator's, or an operator's edit of the version right before it that was called for. */
  predicate FaithfulAt(vs: seq<Version>, i: int)
    requires 0 < i < |vs|
  {
    match vs[i].author
    case Creation => false
    case Admin => true
    case Operator(name, op) => Writes(op, name, vs[i - 1].console) && vs[i].console == Edit(op, name, vs[i - 1].console)
  }

  predicate Faithful(vs: seq<Version>) {
    forall i :: 0 < i < |vs| ==> FaithfulAt(vs, i)
  }

  predicate Ready(w: World) {
    forall id | id in w.inFlight ::
      var a := w.inFlight[id];
      a.base < |w.versions| && Writes(a.op, a.name, w.versions[a.base].console)
  }

  lemma StepFaithful(w: World, step: Step)
    requires w.versions != [] && Faithful(w.versions) && Ready(w)
    ensures var r := Do(w, step); r.versions != [] && Faithful(r.versions) && Ready(r)
    ensures w.versions <= Do(w, step).versions
  {
    var r := Do(w, step);
    forall i | 0 < i < |r.versions| ensures FaithfulAt(r.versions, i) {
      if i < |w.versions| {
        assert FaithfulAt(w.versions, i) && r.versions[i] == w.versions[i] && r.versions[i - 1] == w.versions[i - 1];
      }
    }
  }

  /** Optimistic concurrency loses nothing: in every interleaving, no operator write overwrites
      an edit it did not read.
   */
  lemma {:induction false} NothingIsOverwritten(w: World, steps: seq<Step>)
    requires w.versions != [] && Faithful(w.versions) && Ready(w)
    ensures Faithful(Run(w, steps).versions)
    ensures w.versions <= Run(w, steps).versions
    decreases |steps|
  {
    if steps != [] {
      StepFaithful(w, steps[0]);
      NothingIsOverwritten(Do(w, steps[0]), steps[1..]);
    }
  }

  // ---------------------------------------------------------------- what the edits do

  lemma {:induction false} WithoutKeeps(ps: seq<string>, name: string)
    ensures forall p :: p in Without(ps, name) <==> p in ps && p != name
    ensures |Without(ps, name)| <= |ps|
    ensures |Without(ps, name)| == |ps| <==> name !in ps
    ensures name !in ps ==> Without(ps, name) == ps
  {
    if ps != [] {
      assert ps == [ps[0]] + ps[1..];
      WithoutKeeps(ps[1..], name);
    }
  }

  /** The positions hold exactly the entries of other plugins. */
  ghost predicate OthersAt(ps: seq<string>, name: string, at: seq<nat>) {
    forall k: nat :: k in at <==> k < |ps| && ps[k] != name
  }

  /** What is left are exactly the entries of other plugins, in their order. */
  lemma {:induction false} WithoutInOrder(ps: seq<string>, name: string) returns (at: seq<nat>)
    ensures Picks(ps, at, Without(ps, name)) && OthersAt(ps, name, at)
  {
    hide Picks, OthersAt;
    if ps == [] {
      at := [];
      Nothing(name);
    } else {
      var rest := WithoutInOrder(ps[1..], name);
      var keep := ps[0] != name;
      at := if keep then [0] + Shift(rest) else Shift(rest);
      assert ps == [ps[0]] + ps[1..] && [] + Without(ps[1..], name) == Without(ps[1..], name);
      Cons(ps[1..], rest, Without(ps[1..], name), ps[0], keep);
      OthersCons(ps, name, rest, at);
    }
  }

  lemma Nothing(name: string)
    ensures Picks([], [], Without([], name)) && OthersAt([], name, [])
  {}

  lemma OthersCons(ps: seq<string>, name: string, rest: seq<nat>, at: seq<nat>)
    requires ps != [] && OthersAt(ps[1..], name, rest)
    requires at == if ps[0] != name then [0] + Shift(rest) else Shift(rest)
    ensures OthersAt(ps, name, at)
  {
    hide Shift;
    forall k: nat ensures k in at <==> k < |ps| && ps[k] != name {
      assert k in at <==> (k == 0 && ps[0] != name) || k in Shift(rest);
      ShiftMembers(rest, k);
      assert k > 0 ==> (k - 1 in rest <==> k - 1 < |ps[1..]| && ps[1..][k - 1] != name);
    }
  }

  /** When an operation has something to write, in terms of the object. */
  lemma WritesExactlyWhen(name: string, c: Console)
    ensures var marker := "consoleplugin.openshift.io/enabled-" + name;
            && (Writes(Sync, name, c) <==> (name in c.plugins) != (marker in c.annotations))
            && (Writes(Disable, name, c) <==> name in c.plugins || marker in c.annotations)
  {}

  /** Sync never touches spec.plugins; it makes its marker agree with them, and changes no other annotation. */
  lemma SyncEffect(name: string, c: Console)
    ensures var r := Edit(Sync, name, c);
            && r.plugins == c.plugins
            && Marked(r, name) == Enabled(r, name)
            && (Marked(r, name) ==> Marked(c, name) || r.annotations[MarkerKey(name)] == "true")
            && r.annotations - {MarkerKey(name)} == c.annotations - {MarkerKey(name)}
            && !Writes(Sync, name, r)
  {}

  /** Disable removes exactly its own name, with every other entry in place, and its own marker. */
  lemma DisableEffect(name: string, c: Console)
    ensures var r := Edit(Disable, name, c);
            && r.plugins == Without(c.plugins, name) && !Enabled(r, name) && !Marked(r, name)
            && r.annotations - {MarkerKey(name)} == c.annotations - {MarkerKey(name)}
            && !Writes(Disable, name, r)
  {
    WithoutKeeps(c.plugins, name);
  }

  /** One plugin's edit leaves the other plugins alone: their enablement, their markers, and what
      their reconcilers would do.
   */
  lemma OthersUntouched(op: Op, name: string, other: string, c: Console)
    requires name != other
    ensures var r := Edit(op, name, c);
            && Enabled(r, other) == Enabled(c, other) && Marked(r, other) == Marked(c, other)
            && (Marked(c, other) ==> r.annotations[MarkerKey(other)] == c.annotations[MarkerKey(other)])
            && forall op' :: Writes(op', other, r) == Writes(op', other, c)
  {
    WithoutKeeps(c.plugins, name);
    if MarkerKey(name) == MarkerKey(other) {
      MarkerKeyInjective(name, other);
    }
  }

  // ---------------------------------------------------------------- over whole histories

  predicate NoAdmin(vs: seq<Version>, i: nat, j: nat)
    requires j < |vs|
  {
    forall k :: i < k <= j ==> vs[k].author.Operator?
  }

  /** The plugins left after the disables among versions (i, j]. */
  function Remaining(vs: seq<Version>, i: nat, j: nat): seq<string>
    requires i <= j < |vs|
    decreases j
  {
    if i == j then vs[i].console.plugins
    else
      var before := Remaining(vs, i, j - 1);
      if vs[j].author.Operator? && vs[j].author.op == Disable then Without(before, vs[j].author.name) else before
  }

  /** Between administrator edits the plugin list only ever loses the names that were disabled,
      whatever else happens; in particular no operator enables a plugin.
   */
  lemma {:induction false} OnlyDisablesChangePlugins(vs: seq<Version>, i: nat, j: nat)
    requires Faithful(vs) && i <= j < |vs| && NoAdmin(vs, i, j)
    ensures vs[j].console.plugins == Remaining(vs, i, j)
    ensures forall p :: p in vs[j].console.plugins ==> p in vs[i].console.plugins
    decreases j
  {
    if i < j {
      OnlyDisablesChangePlugins(vs, i, j - 1);
      var o := vs[j].author;
      assert FaithfulAt(vs, j);
      WithoutKeeps(vs[j - 1].console.plugins, o.name);
    }
  }

  /** A plugin that becomes enabled was enabled by an administrator. */
  lemma OnlyAdminsEnable(vs: seq<Version>, i: nat, j: nat, name: string)
    requires Faithful(vs) && i < j < |vs|
    requires !Enabled(vs[i].console, name) && Enabled(vs[j].console, name)
    ensures exists k :: i < k <= j && vs[k].author == Admin
  {
    if NoAdmin(vs, i, j) {
      OnlyDisablesChangePlugins(vs, i, j);
      assert false;
    }
    var k :| i < k <= j && !vs[k].author.Operator?;
    assert FaithfulAt(vs, k);
  }

  /** Once an operation has nothing to write it stays so until an administrator edits, whatever the
      other reconcilers do.
   */
  lemma {:induction false} QuietStays(vs: seq<Version>, i: nat, j: nat, op: Op, name: string)
    requires Faithful(vs) && i <= j < |vs| && NoAdmin(vs, i, j)
    requires !Writes(op, name, vs[i].console)
    ensures !Writes(op, name, vs[j].console)
    decreases j
  {
    if i < j {
      QuietStays(vs, i, j - 1, op, name);
      var o, c := vs[j].author, vs[j - 1].console;
      assert FaithfulAt(vs, j);
      if o.name != name {
        OthersUntouched(o.op, o.name, name, c);
      } else {
        SyncEffect(name, c);
        DisableEffect(name, c);
      }
    }
  }

  /** No write storm: in every interleaving, between two writes of the same operation for the
      same plugin there is an administrator edit.
   */
  lemma NoWriteStorm(vs: seq<Version>, i: nat, j: nat)
    requires Faithful(vs) && 0 < i < j < |vs|
    requires vs[i].author.Operator? && vs[j].author == vs[i].author
    ensures exists k :: i < k < j && vs[k].author == Admin
  {
    var o := vs[i].author;
    assert FaithfulAt(vs, i) && FaithfulAt(vs, j);
    SyncEffect(o.name, vs[i - 1].console);
    DisableEffect(o.name, vs[i - 1].console);
    if NoAdmin(vs, i, j - 1) {
      QuietStays(vs, i, j - 1, o.op, o.name);
      assert false;
    }
    var k :| i < k <= j - 1 && !vs[k].author.Operator?;
    assert FaithfulAt(vs, k);
  }

  // ---------------------------------------------------------------- the retry loop

  /** What others write: an administrator anything, another plugin's reconciler its own edits. */
  datatype Meddling = ByAdmin(console: Console) | ByPlugin(name: string, op: Op)

  /** How the update is answered: as it went, with an error because it failed, or with an error
      although it was applied, as when the answer is lost.
   */
  datatype Answer = Proper | Refused | Lost

  /** One attempt as the loop meets it: what the read gives (a version that may lag behind), what
      others write before the update arrives, and how the update is answered.
   */
  datatype Turn = Found(lag: nat, meddling: seq<Meddling>, answer: Answer) | NotFound | ReadError

  predicate Foreign(ms: seq<Meddling>, name: string) {
    forall m | m in ms && m.ByPlugin? :: m.name != name
  }

  /** The other writers in these turns are not this plugin's own reconciler. */
  predicate ForeignTurns(turns: seq<Turn>, name: string) {
    forall t | t in turns && t.Found? :: Foreign(t.meddling, name)
  }

  const RETRY_STEPS := 5

  /** The loop that keeps every entry but the plugin's own. */
  method RemovePlugin(all: seq<string>, name: string) returns (plugins: seq<string>)
    ensures plugins == Without(all, name)
  {
    hide Without;
    plugins := [];
    assert all[..0] == [];
    WithoutNothing(name);
    for i := 0 to |all|
      invariant plugins == Without(all[..i], name)
    {
      assert all[..i + 1] == all[..i] + [all[i]];
      WithoutSnoc(all[..i], all[i], name);
      if all[i] != name {
        plugins := plugins + [all[i]];
      }
    }
    assert all[..|all|] == all;
  }

  lemma WithoutNothing(name: string)
    ensures Without([], name) == []
  {}

  lemma {:induction false} WithoutSnoc(ps: seq<string>, p: string, name: string)
    ensures Without(ps + [p], name) == if p != name then Without(ps, name) + [p] else Without(ps, name)
  {
    if ps == [] {
      assert ps + [p] == [p] && [p][1..] == [];
    } else {
      assert (ps + [p])[1..] == ps[1..] + [p];
      WithoutSnoc(ps[1..], p, name);
    }
  }

  /** A turn that fails for another reason than a conflict; a missing Console may be none. */
  predicate Fails(t: Turn, missingIsFine: bool) {
    t.ReadError? || (t.NotFound? && !missingIsFine) || (t.Found? && t.answer != Proper)
  }

  /** The loop has to give up: some turn fails, or every one of them can end in a conflict. */
  predicate Hopeless(turns: seq<Turn>, missingIsFine: bool) {
    || (exists t | t in turns :: Fails(t, missingIsFine))
    || (forall t | t in turns :: t.Found? && (t.lag > 0 || t.meddling != []))
  }

  predicate NotBy(author: Author, name: string) {
    author == Admin || (author.Operator? && author.name != name)
  }

  lemma AppendFaithful(vs: seq<Version>, v: Version)
    requires vs != [] && FaithfulAt(vs + [v], |vs|)
    ensures Faithful(vs) ==> Faithful(vs + [v])
  {
    var all := vs + [v];
    if Faithful(vs) {
      forall i | 0 < i < |all| ensures FaithfulAt(all, i) {
        if i < |vs| {
          assert FaithfulAt(vs, i) && all[i] == vs[i] && all[i - 1] == vs[i - 1];
        }
      }
    }
  }

  class ConsoleApi {
    var versions: seq<Version>

    /** What happened since `before`: writes of others, then the operator's write of `op` if it made one. */
    ghost predicate Grew(before: seq<Version>, wrote: bool, name: string, op: Op)
      reads this
    {
      && before != [] && before <= versions
      && (wrote ==> |before| < |versions| && versions[|versions| - 1].author == Operator(name, op))
      && (forall k :: |before| <= k < |versions| - (if wrote then 1 else 0) ==> NotBy(versions[k].author, name))
      && (Faithful(before) ==> Faithful(versions))
    }

    /** Others write. */
    method Meddle(ms: seq<Meddling>, ghost before: seq<Version>, ghost name: string, ghost op: Op)
      requires Grew(before, false, name, op) && Foreign(ms, name)
      modifies this
      ensures Grew(before, false, name, op) && old(versions) <= versions && (ms == [] ==> versions == old(versions))
    {
      for i := 0 to |ms|
        invariant Grew(before, false, name, op) && old(versions) <= versions && (i == 0 ==> versions == old(versions))
      {
        ghost var vs := versions;
        match ms[i] {
          case ByAdmin(console) =>
            versions := versions + [Version(console, Admin)];
            AppendFaithful(vs, versions[|vs|]);
          case ByPlugin(other, otherOp) =>
            assert ms[i] in ms;
            var newest := versions[|versions| - 1].console;
            if Writes(otherOp, other, newest) {
              versions := versions + [Version(Edit(otherOp, other, newest), Operator(other, otherOp))];
              AppendFaithful(vs, versions[|vs|]);
            }
        }
      }
    }

    /** Send an edit of the version read. */
    method Update(name: string, op: Op, read: nat, console: Console, answer: Answer, ghost before: seq<Version>)
      returns (conflict: bool, err: bool, ghost wrote: bool)
      requires Grew(before, false, name, op) && read < |versions|
      requires Writes(op, name, versions[read].console) && console == Edit(op, name, versions[read].console)
      modifies this
      ensures Grew(before, wrote, name, op) && old(versions) <= versions
      ensures wrote ==> read == |versions| - 2
      ensures conflict ==> !err && !wrote && read != |old(versions)| - 1
      ensures err ==> answer != Proper
      ensures !conflict && !err ==> wrote
      ensures err && wrote ==> answer == Lost
    {
      wrote := read == |versions| - 1 && answer != Refused;
      err := answer != Proper;
      conflict := !err && read != |versions| - 1;
      if read == |versions| - 1 && answer != Refused {
        ghost var vs := versions;
        versions := versions + [Version(console, Operator(name, op))];
        AppendFaithful(vs, versions[|vs|]);
      }
    }

    /** syncConsolePluginEnabledState */
    method SyncConsolePluginEnabledState(name: string, turns: seq<Turn>)
      returns (enabled: bool, err: bool, ghost wrote: bool, ghost base: nat)
      requires versions != [] && |turns| == 5 && ForeignTurns(turns, name)
      modifies this
      ensures Grew(old(versions), wrote, name, Sync)
      ensures err ==> Hopeless(turns, false)
      ensures err ==> !enabled && (wrote ==> exists t :: t in turns && t.Found? && t.answer == Lost)
      ensures wrote ==> base == |versions| - 2 && Writes(Sync, name, versions[base].console)
      ensures !err ==>
                && base < |versions| && enabled == Enabled(versions[base].console, name)
                && wrote == Writes(Sync, name, versions[base].console)
    {
      enabled, err, wrote, base := false, true, false, 0;
      ghost var before := versions;
      var attempt := 0;
      while attempt < RETRY_STEPS
        invariant 0 <= attempt <= RETRY_STEPS && err && !wrote
        invariant Grew(before, false, name, Sync)
        invariant forall j :: 0 <= j < attempt ==> turns[j].Found? && (turns[j].lag > 0 || turns[j].meddling != [])
      {
        assert turns[attempt] in turns;
        if !turns[attempt].Found? {
          return false, true, false, 0;
        }
        var read := if turns[attempt].lag < |versions| then |versions| - 1 - turns[attempt].lag else 0;
        var console := versions[read].console;
        var markerKey := MarkerKey(name);
        var marked := markerKey in console.annotations;
        enabled := name in console.plugins;
        if enabled && !marked {
          console := console.(annotations := console.annotations[markerKey := "true"]);
        } else if !enabled && marked {
          console := console.(annotations := console.annotations - {markerKey});
        } else {
          return enabled, false, false, read;
        }
        assert turns[attempt] in turns;
        Meddle(turns[attempt].meddling, before, name, Sync);
        var conflict;
        conflict, err, wrote := Update(name, Sync, read, console, turns[attempt].answer, before);
        if err {
          return false, true, wrote, read;
        }
        if !conflict {
          return enabled, false, true, read;
        }
        err := true;
        attempt := attempt + 1;
      }
      enabled := false;
    }

    /** disableConsolePlugin: a Console that is not there needs no disabling. */
    method DisableConsolePlugin(name: string, turns: seq<Turn>)
        returns (err: bool, ghost wrote: bool, ghost missing: bool, ghost base: nat)
      requires versions != [] && |turns| == 5 && ForeignTurns(turns, name)
      modifies this
      ensures Grew(old(versions), wrote, name, Disable)
      ensures err ==> Hopeless(turns, true)
      ensures err && wrote ==> exists t :: t in turns && t.Found? && t.answer == Lost
      ensures wrote ==> base == |versions| - 2 && Writes(Disable, name, versions[base].console)
      ensures missing ==> !err && !wrote && NotFound in turns
      ensures !err && !missing ==> base < |versions| && wrote == Writes(Disable, name, versions[base].console)
    {
      hide Without;
      err, wrote, missing, base := true, false, false, 0;
      ghost var before := versions;
      var attempt := 0;
      while attempt < RETRY_STEPS
        invariant 0 <= attempt <= RETRY_STEPS && err && !wrote
        invariant Grew(before, false, name, Disable)
        invariant forall j :: 0 <= j < attempt ==> turns[j].Found? && (turns[j].lag > 0 || turns[j].meddling != [])
      {
        assert turns[attempt] in turns;
        if turns[attempt].NotFound? {
          return false, false, true, 0;
        }
        if turns[attempt].ReadError? {
          return true, false, false, 0;
        }
        var read := if turns[attempt].lag < |versions| then |versions| - 1 - turns[attempt].lag else 0;
        var console := versions[read].console;
        var plugins := RemovePlugin(console.plugins, name);
        WithoutKeeps(console.plugins, name);
        var marked := MarkerKey(name) in console.annotations;
        if |plugins| == |console.plugins| && !marked {
          return false, false, false, read;
        }
        assert turns[attempt] in turns;
        Meddle(turns[attempt].meddling, before, name, Disable);
        console := Console(plugins, console.annotations - {MarkerKey(name)});
        var conflict;
        conflict, err, wrote := Update(name, Disable, read, console, turns[attempt].answer, before);
        if err {
          return true, wrote, false, read;
        }
        if !conflict {
          return false, true, false, read;
        }
        err := true;
        attempt := attempt + 1;
      }
    }
  }
}
