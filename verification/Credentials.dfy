/** Who may touch the peer-pods secret.

The secret has three possible makers: the user, the operator from the environment of a
token-based cluster, and the operator by mapping the cco-secret.  The code tells them apart
only by a label and by owner references.  `origin` records the maker for the statements
below; no operation reads it.  Each operation first decides on what it read (`Decide`) and
then writes (`Act`), with other events possible in between (`gap`).
*/
module Credentials {
  import opened Options

  type Data = map<string, string>

  datatype Owner = Owner(kind: string, name: string)

  datatype Secret = Secret(data: Data, labels: map<string, string>, owners: seq<Owner>)

  const EXPLICIT_DELETION := "kataconfiguration.openshift.io/explicit-deletion"
  const CREDENTIALS_REQUEST := "kataconfiguration.openshift.io/credentials-request-based"
  const CCO := Owner("Secret", "cco-secret")

  predicate NeedsExplicitDeletion(secret: Secret) {
    EXPLICIT_DELETION in secret.labels && secret.labels[EXPLICIT_DELETION] != ""
  }

  predicate OwnedByCco(secret: Secret) {
    CCO in secret.owners
  }

  datatype Origin = ByUser | FromEnvironment | FromCco

  /** `cco` is the data of the cco-secret, `request` whether a CredentialsRequest exists. */
  datatype State = State(secret: Option<Secret>, origin: Origin, cco: Option<Data>, request: bool)

  // ---------------------------------------------------------------- other actors

  datatype Outside =
    | UserWrites(secret: Secret)  // creates the secret or changes one of their own
    | UserDeletes
    | CcoWrites(data: Data)
    | CcoGone
    | Collected                   // the garbage collector takes a secret whose owners are gone

  predicate Unmarked(secret: Secret) {
    !NeedsExplicitDeletion(secret) && !OwnedByCco(secret)
  }

  function Happen(s: State, e: Outside): State {
    match e
    case UserWrites(secret) =>
      if Unmarked(secret) && (s.secret.None? || s.origin == ByUser)
      then s.(secret := Some(secret), origin := ByUser) else s
    case UserDeletes => s.(secret := None)
    case CcoWrites(data) => s.(cco := Some(data))
    case CcoGone => s.(cco := None)
    case Collected =>
      if s.cco.None? && s.secret.Some? && s.secret.value.owners == [CCO] then s.(secret := None) else s
  }

  function After(s: State, es: seq<Outside>): State
    decreases |es|
  {
    if es == [] then s else After(Happen(s, es[0]), es[1..])
  }

  // ---------------------------------------------------------------- the operator

  datatype Event = CcoChanged | KataConfigCreated | KataConfigUpdated | KataConfigDeleted

  /** An event, and what its handler meets. */
  datatype Call = Call(
    event: Event,
    enablePeerPods: bool,
    ccoReadable: bool,
    secretReadable: bool,
    mapped: Data,              // the cco-secret's data in peer-pods form
    tokenBased: bool,
    fromEnv: Option<Data>,     // credentials found in the environment
    envUsable: bool,           // they can be put into the secret's form
    requestOk: bool,
    gap: seq<Outside>,
    writeOk: bool)

  datatype Plan = Leave | PutEnv(data: Data) | PutCco(data: Data) | Drop | Request(on: bool)

  /** createOrUpdateSecret: data replaced, labels and the owner added. */
  function Upsert(prior: Option<Secret>, data: Data, mark: string, owner: bool): Secret {
    var labels := if prior.Some? then prior.value.labels else map[];
    var owners := if prior.Some? then prior.value.owners else [];
    Secret(data, labels[mark := "true"], if owner && CCO !in owners then owners + [CCO] else owners)
  }

  /** An update replaces the data, adds its mark, and the cco owner at most once, and loses no other label and no
      owner; repeating it changes nothing more.
   */
  lemma UpsertMerges(prior: Option<Secret>, data: Data, mark: string, owner: bool)
    ensures var r := Upsert(prior, data, mark, owner);
            && r.data == data && mark in r.labels && r.labels[mark] == "true"
            && (owner ==> OwnedByCco(r))
            && (prior.Some? ==>
                  && r.labels - {mark} == prior.value.labels - {mark} && prior.value.owners <= r.owners
                  && (OwnedByCco(prior.value) || !owner ==> r.owners == prior.value.owners))
            && (!owner ==> (OwnedByCco(r) <==> prior.Some? && OwnedByCco(prior.value)))
            && Upsert(Some(r), data, mark, owner) == r
  {
    var r := Upsert(prior, data, mark, owner);
    assert r.labels[mark := "true"] == r.labels;
  }

  /** setupPeerPodsCredentials */
  function DecideSetup(s: State, c: Call): Plan {
    if !c.secretReadable || s.secret.Some? then Leave
    else if c.tokenBased then (if c.fromEnv.Some? && c.envUsable then PutEnv(c.fromEnv.value) else Leave)
    else Request(true)
  }

  /** teardownPeerPodsCredentials */
  function DecideTeardown(s: State, c: Call): Plan {
    if c.secretReadable && s.secret.Some? && NeedsExplicitDeletion(s.secret.value) then Drop else Request(false)
  }

  /** SecretReconciler.Reconcile */
  function DecideMapping(s: State, c: Call): Plan {
    if c.ccoReadable && s.cco.Some? && c.secretReadable && (s.secret.None? || OwnedByCco(s.secret.value))
        then PutCco(c.mapped)
    else Leave
  }

  /** What the handler of an event decides to do. */
  function Decide(s: State, c: Call): Plan {
    match c.event
    case CcoChanged => DecideMapping(s, c)
    case KataConfigCreated => if c.enablePeerPods then DecideSetup(s, c) else Leave
    case KataConfigUpdated => if c.enablePeerPods then DecideSetup(s, c) else DecideTeardown(s, c)
    case KataConfigDeleted => if c.enablePeerPods then DecideTeardown(s, c) else Leave
  }

  function Act(s: State, plan: Plan, c: Call): State {
    match plan
    case Leave => s
    case PutEnv(data) =>
      if c.writeOk then
        s.(secret := Some(Upsert(s.secret, data, EXPLICIT_DELETION, false)), origin := FromEnvironment)
      else s
    case PutCco(data) =>
      if c.writeOk then s.(secret := Some(Upsert(s.secret, data, CREDENTIALS_REQUEST, true)), origin := FromCco) else s
    case Drop =>
      if c.writeOk then s.(secret := None, request := s.request && !c.requestOk) else s
    case Request(on) => if c.requestOk then s.(request := on) else s
  }

  function Handle(s: State, c: Call): State {
    Act(After(s, c.gap), Decide(s, c), c)
  }

  /** What an undisturbed setup leaves: nothing changes over a secret that is there or unreadable; on a
      token-based cluster the secret is made from the environment, if that has credentials, and
      nothing is requested; otherwise they are requested.
   */
  lemma SetupOutcome(s: State, c: Call)
    requires c.gap == [] && c.writeOk && c.requestOk
    requires c.enablePeerPods && c.event in {KataConfigCreated, KataConfigUpdated}
    ensures var r := Handle(s, c);
            && r.cco == s.cco
            && (!c.secretReadable || s.secret.Some? ==> r == s)
            && (c.secretReadable && s.secret.None? && c.tokenBased ==>
                  && r.request == s.request
                  && r.secret == if c.fromEnv.Some? && c.envUsable then
                                   Some(Secret(c.fromEnv.value, map[EXPLICIT_DELETION := "true"], []))
                                 else None)
            && (c.secretReadable && s.secret.None? && !c.tokenBased ==> r.secret.None? && r.request)
  {}

  /** An undisturbed teardown withdraws the request and takes away exactly a secret marked for deletion. */
  lemma TeardownOutcome(s: State, c: Call)
    requires c.gap == [] && c.writeOk && c.requestOk && c.secretReadable
    requires (c.event == KataConfigUpdated && !c.enablePeerPods) || (c.event == KataConfigDeleted && c.enablePeerPods)
    ensures var r := Handle(s, c);
            && !r.request && r.cco == s.cco
            && r.secret == if && s.secret.Some? && EXPLICIT_DELETION in s.secret.value.labels
                              && s.secret.value.labels[EXPLICIT_DELETION] != "" then None else s.secret
  {}

  /** A KataConfig that is created or deleted with peer pods disabled changes nothing. */
  lemma DisabledOutcome(s: State, c: Call)
    requires c.gap == [] && !c.enablePeerPods && c.event in {KataConfigCreated, KataConfigDeleted}
    ensures Handle(s, c) == s
  {}

  /** An undisturbed mapping keeps a mapped secret in step with the cco-secret and touches no other. */
  lemma MappingOutcome(s: State, c: Call)
    requires c.gap == [] && c.writeOk && c.ccoReadable && c.secretReadable && c.event == CcoChanged
    ensures var r := Handle(s, c);
            && r.request == s.request && r.cco == s.cco
            && (s.cco.None? || (s.secret.Some? && CCO !in s.secret.value.owners) ==> r == s)
            && (s.cco.Some? && (s.secret.None? || CCO in s.secret.value.owners) ==>
                  && r.secret.Some? && r.secret.value.data == c.mapped && CCO in r.secret.value.owners
                  && CREDENTIALS_REQUEST in r.secret.value.labels)
  {}

  // ---------------------------------------------------------------- the code

  class SecretController {
    var st: State

    method Elapse(es: seq<Outside>)
      modifies this
      ensures st == After(old(st), es)
    {
      for i := 0 to |es|
        invariant After(st, es[i..]) == After(old(st), es)
      {
        st := Happen(st, es[i]);
        assert es[i..][1..] == es[i + 1..];
      }
    }

    static method IsOwnedByCcoSecret(secret: Secret) returns (owned: bool)
      ensures owned <==> OwnedByCco(secret)
    {
      for i := 0 to |secret.owners|
        invariant CCO !in secret.owners[..i]
      {
        var owner := secret.owners[i];
        if owner.kind == "Secret" && owner.name == "cco-secret" {
          assert owner == CCO;
          return true;
        }
      }
      assert secret.owners[..|secret.owners|] == secret.owners;
      return false;
    }

    method CreateOrUpdateSecret(data: Data, mark: string, owner: bool, origin: Origin, ok: bool)
      modifies this
      ensures st == if ok then old(st).(secret := Some(Upsert(old(st).secret, data, mark, owner)), origin := origin)
          else old(st)
    {
      if ok {
        st := st.(secret := Some(Upsert(st.secret, data, mark, owner)), origin := origin);
      }
    }

    method Reconcile(c: Call)
      modifies this
      ensures st == Act(After(old(st), c.gap), DecideMapping(old(st), c), c)
    {
      var mapping := false;
      if c.ccoReadable && st.cco.Some? {
        if c.secretReadable && st.secret.None? {
          mapping := true;
        } else if c.secretReadable {
          mapping := IsOwnedByCcoSecret(st.secret.value);
        }
      }
      Elapse(c.gap);
      if mapping {
        CreateOrUpdateSecret(c.mapped, CREDENTIALS_REQUEST, true, FromCco, c.writeOk);
      }
    }

    method SetupPeerPodsCredentials(c: Call)
      modifies this
      ensures st == Act(After(old(st), c.gap), DecideSetup(old(st), c), c)
    {
      var skip := !c.secretReadable || st.secret.Some?;
      Elapse(c.gap);
      if skip {
        return;
      }
      if c.tokenBased {
        if c.fromEnv.Some? && c.envUsable {
          CreateOrUpdateSecret(c.fromEnv.value, EXPLICIT_DELETION, false, FromEnvironment, c.writeOk);
        }
        return;
      }
      if c.requestOk {
        st := st.(request := true);
      }
    }

    method TeardownPeerPodsCredentials(c: Call)
      modifies this
      ensures st == Act(After(old(st), c.gap), DecideTeardown(old(st), c), c)
    {
      var drop := c.secretReadable && st.secret.Some? && NeedsExplicitDeletion(st.secret.value);
      Elapse(c.gap);
      if drop {
        if !c.writeOk {
          return;
        }
        st := st.(secret := None);
      }
      if c.requestOk {
        st := st.(request := false);
      }
    }

    method OnEvent(c: Call)
      modifies this
      ensures st == Handle(old(st), c)
    {
      match c.event {
        case CcoChanged => Reconcile(c);
        case KataConfigCreated =>
          if c.enablePeerPods {
            SetupPeerPodsCredentials(c);
          } else {
            Elapse(c.gap);
          }
        case KataConfigUpdated =>
          if c.enablePeerPods {
            SetupPeerPodsCredentials(c);
          } else {
            TeardownPeerPodsCredentials(c);
          }
        case KataConfigDeleted =>
          if c.enablePeerPods {
            TeardownPeerPodsCredentials(c);
          } else {
            Elapse(c.gap);
          }
      }
    }
  }

  // ---------------------------------------------------------------- provenance over all runs

  /** The marks tell the maker. */
  predicate Valid(s: State) {
    s.secret.Some? ==>
      match s.origin
      case ByUser => Unmarked(s.secret.value)
      case FromEnvironment => NeedsExplicitDeletion(s.secret.value) && !OwnedByCco(s.secret.value)
      case FromCco => !NeedsExplicitDeletion(s.secret.value) && OwnedByCco(s.secret.value)
  }

  datatype Step = Operator(call: Call) | Others(e: Outside)

  /** Operator steps are atomic. */
  predicate Atomic(step: Step) {
    step.Operator? ==> step.call.gap == []
  }

  function Do(s: State, step: Step): State {
    match step
    case Operator(c) => Handle(s, c)
    case Others(e) => Happen(s, e)
  }

  predicate IsRun(states: seq<State>, steps: seq<Step>) {
    |states| == |steps| + 1
    && forall i :: 0 <= i < |steps| ==> Atomic(steps[i]) && states[i + 1] == Do(states[i], steps[i])
  }

  predicate UserStep(step: Step) {
    step.Others? && (step.e.UserWrites? || step.e.UserDeletes?)
  }

  /** The handler of this event is a teardown. */
  predicate Teardown(step: Step) {
    step.Operator? && ((step.call.event == KataConfigUpdated && !step.call.enablePeerPods)
        || step.call.event == KataConfigDeleted)
  }

  /** Who may change or remove a secret, by its maker. */
  predicate Authorized(s: State, step: Step) {
    match s.origin
    case ByUser => UserStep(step)
    case FromEnvironment => UserStep(step) || Teardown(step)
    case FromCco =>
      UserStep(step) || (step.Operator? && step.call.event == CcoChanged) || (step.Others? && step.e.Collected?)
  }

  lemma StepKeepsProvenance(s: State, step: Step)
    requires Valid(s) && Atomic(step)
    ensures Valid(Do(s, step))
    ensures s.secret.Some? && Do(s, step).secret != s.secret ==> Authorized(s, step)
    ensures s.secret.Some? && s.origin == FromEnvironment && Do(s, step).secret != s.secret ==> Do(s, step).secret.None?
  {}

  lemma {:induction false} RunKeepsMarks(states: seq<State>, steps: seq<Step>, i: nat)
    requires IsRun(states, steps) && i < |states| && Valid(states[0])
    ensures Valid(states[i])
  {
    if i > 0 {
      RunKeepsMarks(states, steps, i - 1);
      StepKeepsProvenance(states[i - 1], steps[i - 1]);
    }
  }

  /** In every run: a secret made by the user is changed or removed only by the user; one made
      from the environment is never rewritten, and removed only by a teardown or the user; one
      mapped from the cco-secret is left alone by setup and teardown.
   */
  lemma SecretProvenance(states: seq<State>, steps: seq<Step>, i: nat)
    requires IsRun(states, steps) && i < |steps| && Valid(states[0])
    requires states[i].secret.Some? && states[i + 1].secret != states[i].secret
    ensures Authorized(states[i], steps[i])
    ensures states[i].origin == FromEnvironment ==> states[i + 1].secret.None?
  {
    hide Do, Authorized, Valid;
    RunKeepsMarks(states, steps, i);
    StepKeepsProvenance(states[i], steps[i]);
  }

  // ---------------------------------------------------------------- without atomicity

  lemma {:induction false} OthersKeepMarks(s: State, es: seq<Outside>)
    requires Valid(s)
    ensures Valid(After(s, es))
    decreases |es|
  {
    if es != [] {
      OthersKeepMarks(Happen(s, es[0]), es[1..]);
    }
  }

  /** What the handler of the event found at its reads makes it write the secret later. */
  predicate Exposed(s: State, c: Call) {
    var setup := c.secretReadable && s.secret.None? && c.tokenBased && c.fromEnv.Some? && c.envUsable;
    var teardown := c.secretReadable && s.secret.Some? && NeedsExplicitDeletion(s.secret.value);
    match c.event
    case CcoChanged =>
      c.ccoReadable && s.cco.Some? && c.secretReadable && (s.secret.None? || OwnedByCco(s.secret.value))
    case KataConfigCreated => c.enablePeerPods && setup
    case KataConfigUpdated => if c.enablePeerPods then setup else teardown
    case KataConfigDeleted => c.enablePeerPods && teardown
  }

  /** With other events between the reads and the write, a user's secret is lost exactly in these
      cases: mapping found the secret missing or mapped, setup in a token-based cluster with
      usable environment data found it missing, or teardown found one marked for deletion.
   */
  lemma UserSecretSurvivesExactlyWhen(s: State, c: Call)
    requires Valid(s) && After(s, c.gap).secret.Some? && After(s, c.gap).origin == ByUser
    ensures Handle(s, c).secret == After(s, c.gap).secret <==> !(Exposed(s, c) && c.writeOk)
    ensures Exposed(s, c) ==> s.secret.None? || !Unmarked(s.secret.value)
  {
    hide After;
    OthersKeepMarks(s, c.gap);
  }

  /** So a user who creates the secret just after setup found none loses it. */
  lemma RaceOverwritesUserSecret(c: Call, secret: Secret)
    requires Unmarked(secret) && c.gap == [UserWrites(secret)] && c.writeOk
    requires c.event == KataConfigCreated && c.enablePeerPods && c.secretReadable && c.tokenBased && c.fromEnv.Some?
        && c.envUsable
    ensures var s := State(None, ByUser, None, false);
            After(s, c.gap).secret == Some(secret) && Handle(s, c).secret != Some(secret)
  {
    var s := State(None, ByUser, None, false);
    assert c.gap[1..] == [];
    assert After(s, c.gap) == Happen(s, c.gap[0]);
  }
}
