/** The pod-VM image job runner.

One job builds the image and stores its ID in the peer-pods ConfigMap, another deletes the
image and clears the ID.  The operator only submits, watches and removes jobs; the ID is
written by the jobs' pods, concurrently with the operator and between any two of its calls.
Removing a job leaves its pods running.  Creation and deletion mirror each other and share
one definition, indexed by `Kind`.
*/
module ImageJobs {
  import R = Reconciler

  datatype Kind = Create | Delete

  function Other(kind: Kind): Kind {
    if kind == Create then Delete else Create
  }

  datatype JobCondition = JobCondition(ctype: string, cstatus: string)

  datatype Job = Job(conditions: seq<JobCondition>, active: int, succeeded: int, failed: int)

  const NEW_JOB := Job([], 0, 0, 0)

  datatype Cluster = Cluster(id: string, jobs: map<Kind, Job>, pods: multiset<Kind>)

  /** The statuses ImageCreate and ImageDelete return. */
  const CREATED := 0
  const DELETED := 1
  const REQUEUE := 2
  const UNSUPPORTED := 8
  const FAILED := -1
  const UNKNOWN := -2

  function Success(kind: Kind): int {
    if kind == Create then CREATED else DELETED
  }

  /** The ID is as a job of this kind leaves it. */
  predicate Reached(kind: Kind, id: string) {
    (kind == Create) == (id != "")
  }

  // ---------------------------------------------------------------- the rest of the cluster

  datatype World =
    | JobStatus(kind: Kind, job: Job)      // the job controller reports
    | PodStarts(kind: Kind)                // first try or retry of an unfinished job
    | PodWrites(kind: Kind, image: string) // a running pod stores or clears the image ID
    | PodEnds(kind: Kind)
    | JobVanishes(kind: Kind)
    | UserEdits(id: string)

  predicate Finished(job: Job) {
    exists c :: c in job.conditions && c.ctype in {"Complete", "Failed"} && c.cstatus == "True"
  }

  function Happen(c: Cluster, w: World): Cluster {
    match w
    case JobStatus(k, job) => if k in c.jobs && !Finished(c.jobs[k]) then c.(jobs := c.jobs[k := job]) else c
    case PodStarts(k) => if k in c.jobs && !Finished(c.jobs[k]) then c.(pods := c.pods + multiset{k}) else c
    case PodWrites(k, image) => if k in c.pods && Reached(k, image) then c.(id := image) else c
    case PodEnds(k) => c.(pods := c.pods - multiset{k})
    case JobVanishes(k) => c.(jobs := c.jobs - {k})
    case UserEdits(id) => c.(id := id)
  }

  function After(c: Cluster, ws: seq<World>): Cluster
    decreases |ws|
  {
    if ws == [] then c else After(Happen(c, ws[0]), ws[1..])
  }

  predicate HandsOff(ws: seq<World>) {
    forall w | w in ws :: !w.UserEdits?
  }

  // ---------------------------------------------------------------- checkJobStatus

  datatype Progress = Failing | Completed | Running | Unclear

  predicate Reports(job: Job, ctype: string) {
    exists c :: c in job.conditions && c.ctype == ctype && c.cstatus == "True"
  }

  function Assess(job: Job): Progress {
    if Reports(job, "Failed") && job.failed > 0 then Failing
    else if Reports(job, "Complete") && job.succeeded > 0 then Completed
    else if job.conditions == [] && job.active > 0 then Running
    else Unclear
  }

  // ---------------------------------------------------------------- one call of the operator

  /** What a pass meets: the calls that fail, and what happens between its calls. */
  datatype Env = Env(
    initOk: bool, supported: bool, validOk: bool, configOk: bool,
    templateOk: bool,
    firstReadable: bool,      // first read of the ConfigMap
    beforeSubmit: seq<World>,
    submitOk: bool,
    beforeStatus: seq<World>,
    statusReadable: bool,
    beforeReread: seq<World>,
    secondReadable: bool,     // second read of the ConfigMap
    beforeRemove: seq<World>,
    removeOk: bool)

  predicate EnvHandsOff(env: Env) {
    HandsOff(env.beforeSubmit) && HandsOff(env.beforeStatus) && HandsOff(env.beforeReread) && HandsOff(env.beforeRemove)
  }

  /** `submitted`: the pass asked for a job to be created. */
  datatype Outcome = Outcome(c: Cluster, status: int, err: bool, submitted: bool)

  /** isImageIDSet: an unreadable ConfigMap counts as unset. */
  predicate IdSet(c: Cluster, readable: bool) {
    readable && c.id != ""
  }

  predicate ReadsReached(kind: Kind, c: Cluster, readable: bool) {
    (kind == Create) == IdSet(c, readable)
  }

  /** createJob: every error is swallowed. */
  function Submit(kind: Kind, c: Cluster, ok: bool): Cluster {
    if ok && kind !in c.jobs then c.(jobs := c.jobs[kind := NEW_JOB]) else c
  }

  /** A submission that goes through leaves a job of the kind; it never replaces one that is there,
      nor touches anything else, so repeating it is harmless.
   */
  lemma SubmitNeverReplaces(kind: Kind, c: Cluster, ok: bool)
    ensures var d := Submit(kind, c, ok);
            && (kind in d.jobs <==> ok || kind in c.jobs)
            && (forall k | k in c.jobs :: k in d.jobs && d.jobs[k] == c.jobs[k])
            && d.id == c.id && d.pods == c.pods && d.jobs.Keys <= c.jobs.Keys + {kind}
            && Submit(kind, d, ok) == d
  {}

  /** deleteJob, then report `status`. */
  function Remove(kind: Kind, c: Cluster, env: Env, status: int, submitted: bool): Outcome {
    var c1 := After(c, env.beforeRemove);
    if env.removeOk then Outcome(c1.(jobs := c1.jobs - {kind}), status, false, submitted)
    else Outcome(c1, REQUEUE, true, submitted)
  }

  function Watch(kind: Kind, c: Cluster, env: Env): Outcome {
    if kind !in c.jobs || !env.statusReadable then Outcome(c, UNKNOWN, true, true)
    else match Assess(c.jobs[kind])
      case Failing => Remove(kind, c, env, FAILED, true)
      case Completed =>
        var c1 := After(c, env.beforeReread);
        if ReadsReached(kind, c1, env.secondReadable) then Remove(kind, c1, env, Success(kind), true)
        else Outcome(c1, REQUEUE, false, true)
      case Running => Outcome(c, REQUEUE, false, true)
      case Unclear => Outcome(c, UNKNOWN, true, true)
  }

  /** The cluster when the status of the job is read. */
  function Submitted(kind: Kind, c: Cluster, env: Env): Cluster {
    After(Submit(kind, After(c, env.beforeSubmit), env.submitOk), env.beforeStatus)
  }

  /** imageCreateJobRunner and imageDeleteJobRunner */
  function Runner(kind: Kind, c: Cluster, env: Env): Outcome {
    if !env.templateOk then Outcome(c, FAILED, true, false)
    else if ReadsReached(kind, c, env.firstReadable) then Remove(kind, c, env, Success(kind), false)
    else Watch(kind, Submitted(kind, c, env), env)
  }

  /** ImageCreate and ImageDelete */
  function Call(kind: Kind, c: Cluster, env: Env): Outcome {
    if !env.initOk then Outcome(c, FAILED, true, false)
    else if !env.supported then Outcome(c, UNSUPPORTED, true, false)
    else if !env.validOk || (kind == Create && !env.configOk) then Outcome(c, FAILED, true, false)
    else var o := Runner(kind, c, env);
      if o.err then o.(status := FAILED) else o
  }

  /** What enablePeerPods and deletePodVMImage make of the answer: the condition they set, and
      whether they go on instead of asking for another reconcile.
   */
  datatype Gate = Gate(cond: R.ImageCond, goesOn: bool)

  function Switch(kind: Kind, status: int, err: bool): Gate {
    if status == Success(kind) then Gate(R.PodVmCond(R.CondTrue, R.JobCompleted), true)
    else if status == UNSUPPORTED then Gate(R.PodVmCond(R.CondTrue, R.UnsupportedProvider), true)
    else if status == REQUEUE then Gate(R.PodVmCond(R.CondTrue, R.JobRunning), false)
    else if status == FAILED then Gate(R.PodVmCond(R.CondTrue, R.JobFailed), !err)
    else if status == UNKNOWN then Gate(R.PodVmCond(R.CondUnknown, R.JobStatusUnknown), false)
    else Gate(R.Untouched, true)
  }

  // ---------------------------------------------------------------- the code

  class ImageGenerator {
    var cluster: Cluster

    /** Time passes in the rest of the cluster. */
    method Elapse(ws: seq<World>)
      modifies this
      ensures cluster == After(old(cluster), ws)
    {
      for i := 0 to |ws|
        invariant After(cluster, ws[i..]) == After(old(cluster), ws)
      {
        cluster := Happen(cluster, ws[i]);
        assert ws[i..][1..] == ws[i + 1..];
      }
    }

    /** hasJobFailed and hasJobCompleted, by the condition and the counter they look at. */
    static method HasReported(job: Job, ctype: string, counter: int) returns (yes: bool)
      ensures yes <==> Reports(job, ctype) && counter > 0
    {
      for i := 0 to |job.conditions|
        invariant counter > 0 ==>
                    forall j :: 0 <= j < i ==>
                      !(job.conditions[j].ctype == ctype && job.conditions[j].cstatus == "True")
      {
        var c := job.conditions[i];
        if c.ctype == ctype && c.cstatus == "True" && counter > 0 {
          assert c in job.conditions;
          return true;
        }
      }
      return false;
    }

    method CheckJobStatus(kind: Kind, readable: bool) returns (progress: Progress, err: bool)
      ensures err <==> !readable || kind !in cluster.jobs || Assess(cluster.jobs[kind]) == Unclear
      ensures readable && kind in cluster.jobs ==> progress == Assess(cluster.jobs[kind])
    {
      if !readable || kind !in cluster.jobs {
        return Unclear, true;
      }
      var job := cluster.jobs[kind];
      var failed := HasReported(job, "Failed", job.failed);
      if failed {
        return Failing, false;
      }
      var completed := HasReported(job, "Complete", job.succeeded);
      if completed {
        return Completed, false;
      }
      if job.conditions == [] && job.active > 0 {
        return Running, false;
      }
      return Unclear, true;
    }

    method CreateJob(kind: Kind, ok: bool)
      modifies this
      ensures cluster == Submit(kind, old(cluster), ok)
    {
      if ok && kind !in cluster.jobs {
        cluster := cluster.(jobs := cluster.jobs[kind := NEW_JOB]);
      }
    }

    method DeleteJob(kind: Kind, env: Env, status0: int, ghost submitted: bool) returns (status: int, err: bool)
      modifies this
      ensures Outcome(cluster, status, err, submitted) == Remove(kind, old(cluster), env, status0, submitted)
    {
      Elapse(env.beforeRemove);
      if !env.removeOk {
        return REQUEUE, true;
      }
      cluster := cluster.(jobs := cluster.jobs - {kind});
      return status0, false;
    }

    method JobRunner(kind: Kind, env: Env) returns (status: int, err: bool, ghost submitted: bool)
      modifies this
      ensures Outcome(cluster, status, err, submitted) == Runner(kind, old(cluster), env)
    {
      submitted := false;
      if !env.templateOk {
        return FAILED, true, false;
      }
      var idSet := env.firstReadable && cluster.id != "";
      if (kind == Create) == idSet {
        status, err := DeleteJob(kind, env, Success(kind), submitted);
        return;
      }
      Elapse(env.beforeSubmit);
      CreateJob(kind, env.submitOk);
      submitted := true;
      Elapse(env.beforeStatus);
      var progress, unclear := CheckJobStatus(kind, env.statusReadable);
      if unclear {
        return UNKNOWN, true, submitted;
      }
      match progress {
        case Running =>
          return REQUEUE, false, submitted;
        case Completed =>
          Elapse(env.beforeReread);
          idSet := env.secondReadable && cluster.id != "";
          if (kind == Create) != idSet {
            return REQUEUE, false, submitted;
          }
          status, err := DeleteJob(kind, env, Success(kind), submitted);
        case Failing =>
          status, err := DeleteJob(kind, env, FAILED, submitted);
        case Unclear =>
          assert false;
      }
    }

    method ImageCall(kind: Kind, env: Env) returns (status: int, err: bool, ghost submitted: bool)
      modifies this
      ensures Outcome(cluster, status, err, submitted) == Call(kind, old(cluster), env)
    {
      if !env.initOk {
        return FAILED, true, false;
      }
      if !env.supported {
        return UNSUPPORTED, true, false;
      }
      if !env.validOk || (kind == Create && !env.configOk) {
        return FAILED, true, false;
      }
      status, err, submitted := JobRunner(kind, env);
      if err {
        status := FAILED;
      }
    }
  }

  // ---------------------------------------------------------------- one pass

  /** Somebody may still write the ID on behalf of this kind of job. */
  predicate Alive(kind: Kind, c: Cluster) {
    (kind in c.jobs && !Finished(c.jobs[kind])) || kind in c.pods
  }

  /** Nothing but a submission brings a kind to life, and a kind that is not alive cannot touch the ID. */
  lemma {:induction false} NobodyInterferes(kind: Kind, c: Cluster, ws: seq<World>)
    requires HandsOff(ws) && !Alive(Other(kind), c)
    ensures var d := After(c, ws);
            && !Alive(Other(kind), d)
            && (Reached(kind, c.id) ==> Reached(kind, d.id))
            && d.jobs.Keys <= c.jobs.Keys
    decreases |ws|
  {
    if ws != [] {
      assert !ws[0].UserEdits?;
      NobodyInterferes(kind, Happen(c, ws[0]), ws[1..]);
    }
  }

  /** No World step makes a job appear. */
  lemma {:induction false} NoJobAppears(c: Cluster, ws: seq<World>)
    ensures After(c, ws).jobs.Keys <= c.jobs.Keys
    decreases |ws|
  {
    if ws != [] {
      NoJobAppears(Happen(c, ws[0]), ws[1..]);
    }
  }

  /** A pass asks for a job only when it read the ID as not yet as the job would leave it, and if
      the ConfigMap was readable that is how it was.  A job that was not there before a pass is
      there after it only because the pass asked for it, and is of its kind.
   */
  lemma SubmitsOnlyWhenNeeded(kind: Kind, c: Cluster, env: Env)
    ensures var o := Call(kind, c, env);
            && (o.submitted ==> !ReadsReached(kind, c, env.firstReadable))
            && (o.submitted && env.firstReadable ==> !Reached(kind, c.id))
            && (forall k :: k in o.c.jobs && k !in c.jobs ==> o.submitted && k == kind)
  {
    hide After;
    NoJobAppears(c, env.beforeRemove);
    NoJobAppears(c, env.beforeSubmit);
    var c1 := Submit(kind, After(c, env.beforeSubmit), env.submitOk);
    NoJobAppears(c1, env.beforeStatus);
    var c2 := After(c1, env.beforeStatus);
    NoJobAppears(c2, env.beforeRemove);
    NoJobAppears(c2, env.beforeReread);
    NoJobAppears(After(c2, env.beforeReread), env.beforeRemove);
  }

  /** If the pass reports success, the ID is as it says and its job is gone. */
  predicate Truthful(kind: Kind, c: Cluster, env: Env) {
    var o := Call(kind, c, env);
    o.status == Success(kind) ==> !o.err && Reached(kind, o.c.id) && kind !in o.c.jobs
  }

  /** "Created" means the ID is set and the create job is gone; "deleted" means the ID is unset
      and the delete job is gone, when nobody edited the ConfigMap by hand and no job of the other
      kind was alive; for "deleted" it must also have been readable.
   */
  lemma SuccessMeansReached(kind: Kind, c: Cluster, env: Env)
    requires EnvHandsOff(env) && !Alive(Other(kind), c)
    requires kind == Delete ==> env.firstReadable && env.secondReadable
    ensures Truthful(kind, c, env)
  {
    hide After, Assess;
    NobodyInterferes(kind, c, env.beforeRemove);
    SubmittedKeeps(kind, c, env);
    var c1 := Submitted(kind, c, env);
    NobodyInterferes(kind, c1, env.beforeReread);
    NobodyInterferes(kind, After(c1, env.beforeReread), env.beforeRemove);
  }

  lemma SubmittedKeeps(kind: Kind, c: Cluster, env: Env)
    requires EnvHandsOff(env) && !Alive(Other(kind), c)
    ensures var d := Submitted(kind, c, env); !Alive(Other(kind), d) && (Reached(kind, c.id) ==> Reached(kind, d.id))
  {
    hide After;
    NobodyInterferes(kind, c, env.beforeSubmit);
    NobodyInterferes(kind, Submit(kind, After(c, env.beforeSubmit), env.submitOk), env.beforeStatus);
  }

  /** An instance with an unreadable ConfigMap: "deleted" is reported with the image still there. */
  lemma UnreadableConfigMapMisleads(c: Cluster, env: Env)
    requires c.id != "" && !env.firstReadable && env.removeOk && env.beforeRemove == []
    requires env.initOk && env.supported && env.validOk && env.templateOk
    ensures !Truthful(Delete, c, env)
  {}

  /** How a pass that submitted or found a job answers, by what the job shows: a failure counts
      before a completion; a running job asks for another reconcile and is reported as running;
      anything else is an error.
   */
  lemma AnsweredByJob(kind: Kind, c: Cluster, env: Env)
    requires env.initOk && env.supported && env.validOk && (kind == Create ==> env.configOk) && env.templateOk
    requires !ReadsReached(kind, c, env.firstReadable) && env.statusReadable && kind in Submitted(kind, c, env).jobs
    ensures var o, job := Call(kind, c, env), Submitted(kind, c, env).jobs[kind];
            var failed := JobCondition("Failed", "True") in job.conditions && job.failed > 0;
            var complete := JobCondition("Complete", "True") in job.conditions && job.succeeded > 0;
            && o.submitted
            && (failed ==> if env.removeOk then o.status == -1 && !o.err else o.err)
            && (!failed && complete ==>
                  if !ReadsReached(kind, After(Submitted(kind, c, env), env.beforeReread), env.secondReadable)
                  then o.status == 2 && !o.err && !Switch(kind, o.status, o.err).goesOn
                  else if env.removeOk then o.status == (if kind == Create then 0 else 1) && !o.err else o.err)
            && (job.conditions == [] && job.active > 0 ==>
                  && o.status == 2 && !o.err
                  && Switch(kind, o.status, o.err) == Gate(R.PodVmCond(R.CondTrue, R.JobRunning), false))
            && (!failed && !complete && (job.conditions != [] || job.active <= 0) ==> o.status == -1 && o.err)
  {
    hide After, Submitted;
    ReportsMember(Submitted(kind, c, env).jobs[kind], "Failed");
    ReportsMember(Submitted(kind, c, env).jobs[kind], "Complete");
  }

  lemma ReportsMember(job: Job, ctype: string)
    ensures Reports(job, ctype) <==> JobCondition(ctype, "True") in job.conditions
  {}

  /** The caller goes on without another reconcile exactly for success, an unsupported provider,
      or a job that was seen to have failed and then removed.  The condition says which, or failed
      for an error, or running; never unknown.
   */
  lemma GoesOnExactlyWhen(kind: Kind, c: Cluster, env: Env)
    ensures var o := Call(kind, c, env);
            && Switch(kind, o.status, o.err).goesOn
                == (o.status == Success(kind) || o.status == UNSUPPORTED || BuildFailed(kind, c, env))
            && Switch(kind, o.status, o.err).cond ==
                 R.PodVmCond(R.CondTrue,
                             if o.status == Success(kind) then R.JobCompleted
                             else if env.initOk && !env.supported then R.UnsupportedProvider
                             else if o.err || BuildFailed(kind, c, env) then R.JobFailed
                             else R.JobRunning)
            && (BuildFailed(kind, c, env) ==> kind !in o.c.jobs)
  {
    hide After;
  }

  predicate BuildFailed(kind: Kind, c: Cluster, env: Env) {
    && env.initOk && env.supported && env.validOk && (kind == Create ==> env.configOk) && env.templateOk
    && !ReadsReached(kind, c, env.firstReadable)
    && env.statusReadable && env.removeOk
    && var c1 := Submitted(kind, c, env);
       kind in c1.jobs && Reports(c1.jobs[kind], "Failed") && c1.jobs[kind].failed > 0
  }

  // ---------------------------------------------------------------- all runs

  datatype Step = Pass(env: Env) | Meanwhile(w: World)

  /** Run passes of one kind, interleaved with the rest of the cluster. */
  function Run(kind: Kind, c: Cluster, steps: seq<Step>): Cluster
    decreases |steps|
  {
    if steps == [] then c
    else
      var c1 := match steps[0]
        case Pass(env) => Call(kind, c, env).c
        case Meanwhile(w) => Happen(c, w);
      Run(kind, c1, steps[1..])
  }

  predicate Undisturbed(steps: seq<Step>) {
    forall s | s in steps :: match s case Pass(env) => EnvHandsOff(env) case Meanwhile(w) => !w.UserEdits?
  }

  predicate Readable(steps: seq<Step>) {
    forall s | s in steps && s.Pass? :: s.env.firstReadable
  }

  lemma PassKeeps(kind: Kind, c: Cluster, env: Env)
    requires EnvHandsOff(env) && !Alive(Other(kind), c)
    ensures var d := Call(kind, c, env).c; !Alive(Other(kind), d) && (Reached(kind, c.id) ==> Reached(kind, d.id))
  {
    hide After, Assess;
    NobodyInterferes(kind, c, env.beforeRemove);
    SubmittedKeeps(kind, c, env);
    var c1 := Submitted(kind, c, env);
    NobodyInterferes(kind, c1, env.beforeRemove);
    NobodyInterferes(kind, c1, env.beforeReread);
    NobodyInterferes(kind, After(c1, env.beforeReread), env.beforeRemove);
  }

  /** Once reached with nobody of the other kind alive, the ID stays so through every
      interleaving of further passes and the rest of the cluster, and no job is submitted again.
   */
  lemma {:induction false} SuccessIsFinal(kind: Kind, c: Cluster, steps: seq<Step>)
    requires Reached(kind, c.id) && !Alive(Other(kind), c) && Undisturbed(steps)
    ensures Reached(kind, Run(kind, c, steps).id)
    ensures kind !in c.jobs && Readable(steps) ==> kind !in Run(kind, c, steps).jobs
    decreases |steps|
  {
    hide Call, After, Assess;
    if steps != [] {
      assert steps[0] in steps && forall s | s in steps[1..] :: s in steps;
      match steps[0] {
        case Pass(env) =>
          PassKeeps(kind, c, env);
          SubmitsOnlyWhenNeeded(kind, c, env);
          SuccessIsFinal(kind, Call(kind, c, env).c, steps[1..]);
        case Meanwhile(w) =>
          assert After(c, [w]) == Happen(c, w) by { OneStep(c, w); }
          NobodyInterferes(kind, c, [w]);
          SuccessIsFinal(kind, Happen(c, w), steps[1..]);
      }
    }
  }

  /** The other kind stays dead through every undisturbed run. */
  lemma {:induction false} RunKeepsOtherDead(kind: Kind, c: Cluster, steps: seq<Step>)
    requires !Alive(Other(kind), c) && Undisturbed(steps)
    ensures !Alive(Other(kind), Run(kind, c, steps))
    decreases |steps|
  {
    hide Call, After, Assess;
    if steps != [] {
      assert steps[0] in steps && forall s | s in steps[1..] :: s in steps;
      match steps[0] {
        case Pass(env) =>
          PassKeeps(kind, c, env);
          RunKeepsOtherDead(kind, Call(kind, c, env).c, steps[1..]);
        case Meanwhile(w) =>
          OneStep(c, w);
          NobodyInterferes(kind, c, [w]);
          RunKeepsOtherDead(kind, Happen(c, w), steps[1..]);
      }
    }
  }

  /** Over all runs: if nobody of the other kind is alive at the start, every later pass tells the
      truth, whatever the passes before it met; "deleted" if its reads of the ConfigMap succeed.
   */
  lemma RunsAreTruthful(kind: Kind, c: Cluster, steps: seq<Step>, env: Env)
    requires !Alive(Other(kind), c) && Undisturbed(steps) && EnvHandsOff(env)
    requires kind == Delete ==> env.firstReadable && env.secondReadable
    ensures Truthful(kind, Run(kind, c, steps), env)
  {
    hide Truthful, Run, Undisturbed;
    RunKeepsOtherDead(kind, c, steps);
    SuccessMeansReached(kind, Run(kind, c, steps), env);
  }

  lemma OneStep(c: Cluster, w: World)
    ensures After(c, [w]) == Happen(c, w)
  {
    assert [w][1..] == [];
  }

  /** Success is final exactly when nobody of the other kind is alive.  So "deleted", reported
      while a create job is still working, does not last: its image is left behind.
   */
  lemma SuccessIsFinalExactlyWhen(kind: Kind, c: Cluster)
    requires Reached(kind, c.id)
    ensures (forall steps :: Undisturbed(steps) ==> Reached(kind, Run(kind, c, steps).id)) <==> !Alive(Other(kind), c)
  {
    if Alive(Other(kind), c) {
      var steps := Undo(Other(kind));
      assert Undisturbed(steps) && !Reached(kind, Run(kind, c, steps).id) by { UndoWorks(kind, c); }
    } else {
      forall steps | Undisturbed(steps) ensures Reached(kind, Run(kind, c, steps).id) {
        SuccessIsFinal(kind, c, steps);
      }
    }
  }

  /** A pod of this kind starts if it can, and writes the ID. */
  function Undo(kind: Kind): seq<Step> {
    [Meanwhile(PodStarts(kind)), Meanwhile(PodWrites(kind, Image(kind)))]
  }

  lemma UndoWorks(kind: Kind, c: Cluster)
    requires Alive(Other(kind), c)
    ensures !Reached(kind, Run(kind, c, Undo(Other(kind))).id)
  {
    var o := Other(kind);
    var steps := Undo(o);
    var c1 := Happen(c, PodStarts(o));
    assert o in c1.pods;
    var c2 := Happen(c1, steps[1].w);
    assert steps[1..][1..] == [] && steps[1..][0] == steps[1];
    assert Run(kind, c1, steps[1..]) == Run(kind, c2, []);
  }

  /** Such a state is reached: "deleted" is reported at once while the create job is working. */
  lemma DeletedWhileCreating(env: Env, job: Job)
    requires env.initOk && env.supported && env.validOk && env.templateOk && env.removeOk && env.beforeRemove == []
    requires !Finished(job)
    ensures var o := Call(Delete, Cluster("", map[Create := job], multiset{Create}), env);
            o.status == DELETED && !o.err && Alive(Create, o.c)
  {}

  // ---------------------------------------------------------------- when the answer can be trusted

  /** For given outcomes of the two reads of the ConfigMap, no undisturbed pass can mislead.  For
      "created" nobody of the delete kind may be alive, unless the reads keep the pass from
      reporting success at all.  For "deleted" nobody of the create kind may be alive, and both
      reads must succeed unless there is no image to begin with.
   */
  predicate Trustworthy(kind: Kind, c: Cluster, first: bool, second: bool) {
    match kind
    case Create => !Alive(Delete, c) || (!second && !(first && c.id != ""))
    case Delete => !Alive(Create, c) && ((first && second) || c.id == "")
  }

  predicate Reads(env: Env, first: bool, second: bool) {
    EnvHandsOff(env) && env.firstReadable == first && env.secondReadable == second
  }

  /** The answer of every undisturbed pass is true exactly when it is trustworthy. */
  lemma TruthfulExactlyWhen(kind: Kind, c: Cluster, first: bool, second: bool)
    ensures (forall env | Reads(env, first, second) :: Truthful(kind, c, env)) <==> Trustworthy(kind, c, first, second)
  {
    hide Truthful;
    if Trustworthy(kind, c, first, second) {
      forall env | Reads(env, first, second) ensures Truthful(kind, c, env) {
        TrustIsEnough(kind, c, env);
      }
    } else {
      var env := Misled(kind, c, first, second);
    }
  }

  lemma TrustIsEnough(kind: Kind, c: Cluster, env: Env)
    requires EnvHandsOff(env) && Trustworthy(kind, c, env.firstReadable, env.secondReadable)
    ensures Truthful(kind, c, env)
  {
    if !Alive(Other(kind), c) {
      if kind == Create || (env.firstReadable && env.secondReadable) {
        SuccessMeansReached(kind, c, env);
      } else {
        PassKeeps(kind, c, env);
        SuccessClears(kind, c, env);
      }
    } else {
      NeverReportsCreated(c, env);
    }
  }

  /** Success is reported without an error and only after the job was removed. */
  lemma SuccessClears(kind: Kind, c: Cluster, env: Env)
    ensures var o := Call(kind, c, env);
            o.status == Success(kind) ==> !o.err && kind !in o.c.jobs
  {
    hide After, Assess, Submitted;
  }

  lemma NeverReportsCreated(c: Cluster, env: Env)
    requires !env.secondReadable && !(env.firstReadable && c.id != "")
    ensures Call(Create, c, env).status != CREATED
  {
    hide After, Assess, Submitted;
  }

  // ---------------------------------------------------------------- passes that mislead

  function Image(kind: Kind): string {
    if kind == Create then "image" else ""
  }

  /** A pod of this kind starts if it can, and writes the ID. */
  function PodRuns(kind: Kind): seq<World> {
    [PodStarts(kind), PodWrites(kind, Image(kind))]
  }

  lemma PodRunsWorks(kind: Kind, c: Cluster)
    requires Alive(kind, c)
    ensures var d := After(c, PodRuns(kind));
            && d.id == Image(kind) && Reached(kind, d.id)
            && d.jobs == c.jobs && d.pods in {c.pods, c.pods + multiset{kind}}
  {
    var ws := PodRuns(kind);
    assert ws[1..][1..] == [] && ws[1..][0] == ws[1];
    var c1 := Happen(c, ws[0]);
    assert kind in c1.pods;
    assert After(c, ws) == After(c1, ws[1..]) == After(Happen(c1, ws[1]), []);
  }

  lemma {:induction false} AfterAppend(c: Cluster, ws: seq<World>, w: World)
    ensures After(c, ws + [w]) == Happen(After(c, ws), w)
    decreases |ws|
  {
    if ws == [] {
      OneStep(c, w);
      assert ws + [w] == [w];
    } else {
      AfterAppend(Happen(c, ws[0]), ws[1..], w);
      assert (ws + [w])[1..] == ws[1..] + [w];
    }
  }

  const DONE := Job([JobCondition("Complete", "True")], 0, 1, 0)

  /** Every call succeeds but for the given reads; an old job vanishes before the new one is
      submitted, which completes after `work`; at last `undo` happens.
   */
  function Scene(kind: Kind, first: bool, second: bool, work: seq<World>, undo: seq<World>): Env {
    Env(true, true, true, true, true, first, [JobVanishes(kind)], true, work + [JobStatus(kind, DONE)], true,
        [], second, undo, true)
  }

  /** The pass sees the ID as wanted at once. */
  lemma DirectScene(kind: Kind, c: Cluster, first: bool, second: bool, undo: seq<World>)
    requires ReadsReached(kind, c, first)
    ensures var o := Call(kind, c, Scene(kind, first, second, [], undo));
            o.status == Success(kind) && o.c.id == After(c, undo).id
  {
    hide After;
  }

  /** The cluster once the new job is submitted. */
  function Resubmitted(kind: Kind, c: Cluster): Cluster {
    c.(jobs := (c.jobs - {kind})[kind := NEW_JOB])
  }

  /** The pass submits a job, which completes, and then sees the ID as wanted. */
  lemma JobScene(kind: Kind, c: Cluster, first: bool, second: bool, work: seq<World>, undo: seq<World>)
    requires !ReadsReached(kind, c, first)
    requires var d := After(Resubmitted(kind, c), work);
             ReadsReached(kind, d, second) && kind in d.jobs && !Finished(d.jobs[kind])
    ensures var d := After(Resubmitted(kind, c), work);
            var o := Call(kind, c, Scene(kind, first, second, work, undo));
            o.status == Success(kind) && o.c.id == After(d.(jobs := d.jobs[kind := DONE]), undo).id
  {
    hide After;
    var env := Scene(kind, first, second, work, undo);
    OneStep(c, JobVanishes(kind));
    var d := After(Resubmitted(kind, c), work);
    AfterAppend(Resubmitted(kind, c), work, JobStatus(kind, DONE));
    var c1 := Submitted(kind, c, env);
    assert c1 == d.(jobs := d.jobs[kind := DONE]);
    DoneCompletes();
    NothingHappens(c1);
  }

  lemma NothingHappens(c: Cluster)
    ensures After(c, []) == c
  {}

  lemma DoneCompletes()
    ensures Assess(DONE) == Completed
  {
    assert DONE.conditions[0] in DONE.conditions;
    assert "Complete"[0] != "Failed"[0];
  }

  lemma Misled(kind: Kind, c: Cluster, first: bool, second: bool) returns (env: Env)
    requires !Trustworthy(kind, c, first, second)
    ensures Reads(env, first, second) && !Truthful(kind, c, env)
  {
    hide After, Call;
    var o := Other(kind);
    var undo := if Alive(o, c) then PodRuns(o) else [];
    NothingHappens(c);
    if ReadsReached(kind, c, first) {
      env := Scene(kind, first, second, [], undo);
      DirectScene(kind, c, first, second, undo);
      if Alive(o, c) {
        PodRunsWorks(o, c);
      }
    } else if Alive(o, c) {
      env := MisledLate(kind, c, first, second);
    } else {
      env := MisledByReread(c);
    }
  }

  /** The job does its work, and then the other kind undoes it. */
  lemma MisledLate(kind: Kind, c: Cluster, first: bool, second: bool) returns (env: Env)
    requires !ReadsReached(kind, c, first) && Alive(Other(kind), c) && (kind == Create ==> second)
    ensures Reads(env, first, second) && !Truthful(kind, c, env)
  {
    hide After, Call;
    var o, c1 := Other(kind), Resubmitted(kind, c);
    env := Scene(kind, first, second, PodRuns(kind), PodRuns(o));
    assert !Finished(NEW_JOB);
    PodRunsWorks(kind, c1);
    var d := After(c1, PodRuns(kind));
    JobScene(kind, c, first, second, PodRuns(kind), PodRuns(o));
    PodRunsWorks(o, d.(jobs := d.jobs[kind := DONE]));
  }

  /** The delete job completes without effect, and the second read fails. */
  lemma MisledByReread(c: Cluster) returns (env: Env)
    requires c.id != ""
    ensures Reads(env, true, false) && !Truthful(Delete, c, env)
  {
    hide After, Call;
    var c1 := Resubmitted(Delete, c);
    env := Scene(Delete, true, false, [], []);
    NothingHappens(c1);
    assert !Finished(NEW_JOB);
    JobScene(Delete, c, true, false, [], []);
    NothingHappens(c1.(jobs := c1.jobs[Delete := DONE]));
  }
}
