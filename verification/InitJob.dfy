/** The init job controller (`controllers/job/dbinitjob_controller.go`): a job that settles once and
    for all, whatever the cluster and the API do. */
module InitJob {
  import opened Jobs
  import opened Names

  datatype DbInitJob = DbInitJob(mysqlEnvironment: string, mongoEnvironment: string, deadlineSeconds: int,
                                 status: JobStatus)

  datatype Store = Store(jobs: map<string, DbInitJob>, batchJobs: map<string, BatchJob>)

  /** How the API calls of one pass end.  `configs` covers the MySQL and Mongo config reads, `service`
      the service config read, `hasPodSpec` what that config holds, and `prepare` the site read and
      the rendering of the pod spec. */
  datatype Api = Api(get: bool, list: bool, configs: bool, service: bool, hasPodSpec: bool, prepare: bool, create: Call,
                     save: Call)
  {
    predicate ErrorFree() { get && list && configs && service && prepare && create == Ok && save == Ok }
  }

  function BatchName(md5: string -> string, name: string): string
    requires IsDigest(md5)
  {
    ShortenHumanReadableValue(md5, "dbinit-" + name, 50)
  }

  const NEW_STATUS := JobStatus(Unset, 0, None)

  // Specification of a pass

  function Save(s: Store, name: string, job: DbInitJob, changed: bool, call: Call, result: Outcome): (Store, Outcome) {
    if !changed then (s, result)
    else (if call == Rejected then s else s.(jobs := s.jobs[name := job]), if call == Ok then result else Error)
  }

  function Moved(job: DbInitJob, state: JobState): DbInitJob {
    job.(status := job.status.(state := state))
  }

  function InitialisePass(s: Store, name: string, now: int, api: Api): (Store, Outcome)
    requires name in s.jobs
  {
    var job := s.jobs[name];
    Save(s, name, job.(status := job.status.(state := Pending, deadline := Some(now + job.deadlineSeconds))), true,
        api.save, Requeue)
  }

  ghost function PendingPass(md5: string -> string, s: Store, name: string, now: int, api: Api): (Store, Outcome)
    requires IsDigest(md5) && name in s.jobs
  {
    var job := s.jobs[name];
    if !api.list then (s, Error)
    else if Owned(s.batchJobs, Init, name) != {} then Save(s, name, Moved(job, Running), true, api.save, Quiet)
    else if (job.mysqlEnvironment != "" || job.mongoEnvironment != "") && !api.configs then (s, Error)
    else if job.mysqlEnvironment == "" && job.mongoEnvironment == "" then
        Save(s, name, Moved(job, Failed), true, api.save, Quiet)
    else if !api.service then (s, Error)
    else if !api.hasPodSpec then Save(s, name, Moved(job, Failed), true, api.save, Quiet)
    else if !api.prepare || BatchName(md5, name) in s.batchJobs || api.create == Rejected then (s, Error)
    else
      var created := s.(batchJobs := s.batchJobs[BatchName(md5, name) := BatchJob(Init, name, "", now, [])]);
      if api.create == Ok then Save(created, name, Moved(job, Running), true, api.save, Quiet) else (created, Error)
  }

  ghost function RunningPass(s: Store, name: string, now: int, api: Api): (Store, Outcome)
    requires name in s.jobs
  {
    if !api.list then (s, Error)
    else
      var owned := Owned(s.batchJobs, Init, name);
      var (status, changed) := RunningStep(s.jobs[name].status, |owned|, ListingVerdict(s.batchJobs, owned), now);
      Save(s, name, s.jobs[name].(status := status), changed, api.save, Quiet)
  }

  ghost function Reconcile(md5: string -> string, s: Store, name: string, now: int, api: Api): (Store, Outcome)
    requires IsDigest(md5)
  {
    if !api.get then (s, Error)
    else if name !in s.jobs then (s, Quiet)
    else if s.jobs[name].status.state == Unset || s.jobs[name].status.deadline == None then
        InitialisePass(s, name, now, api)
    else match s.jobs[name].status.state
      case Pending => PendingPass(md5, s, name, now, api)
      case Running => RunningPass(s, name, now, api)
      case _ => (s, Quiet)
  }

  // The controller

  class DbInitJobReconciler {
    const md5: string -> string
    var jobs: map<string, DbInitJob>
    var batchJobs: map<string, BatchJob>

    ghost function State(): Store
      reads this
    {
      Store(jobs, batchJobs)
    }

    constructor (md5: string -> string)
      requires IsDigest(md5)
      ensures this.md5 == md5 && State() == Store(map[], map[])
    {
      this.md5 := md5;
      jobs := map[];
      batchJobs := map[];
    }

    method SaveStatus(name: string, job: DbInitJob, changed: bool, call: Call, result: Outcome)
      returns (outcome: Outcome)
      modifies this`jobs
      ensures (State(), outcome) == Save(old(State()), name, job, changed, call, result)
    {
      if !changed {
        return result;
      }
      if call != Rejected {
        jobs := jobs[name := job];
      }
      outcome := if call == Ok then result else Error;
    }

    method GetOwnedInitJobs(name: string) returns (owned: set<string>)
      ensures owned == Owned(batchJobs, Init, name)
    {
      owned := set n | n in batchJobs && batchJobs[n].kind == Init && batchJobs[n].owner == name;
    }

    method CreateJobIfNeeded(name: string, now: int, api: Api) returns (outcome: Outcome)
      requires IsDigest(md5) && name in jobs
      modifies this
      ensures (State(), outcome) == PendingPass(md5, old(State()), name, now, api)
    {
      var job := jobs[name];
      if !api.list {
        return Error;
      }
      var owned := GetOwnedInitJobs(name);
      if owned != {} {
        outcome := SaveStatus(name, Moved(job, Running), true, api.save, Quiet);
        return;
      }
      if job.mysqlEnvironment != "" && !api.configs {
        return Error;
      }
      if job.mongoEnvironment != "" && !api.configs {
        return Error;
      }
      if job.mysqlEnvironment == "" && job.mongoEnvironment == "" {
        outcome := SaveStatus(name, Moved(job, Failed), true, api.save, Quiet);
        return;
      }
      if !api.service {
        return Error;
      }
      if !api.hasPodSpec {
        outcome := SaveStatus(name, Moved(job, Failed), true, api.save, Quiet);
        return;
      }
      if !api.prepare {
        return Error;
      }
      var batchName := BatchName(md5, name);
      if batchName in batchJobs || api.create == Rejected {
        return Error;
      }
      batchJobs := batchJobs[batchName := BatchJob(Init, name, "", now, [])];
      if api.create != Ok {
        return Error;
      }
      outcome := SaveStatus(name, Moved(job, Running), true, api.save, Quiet);
    }

    method DoReconcile(name: string, now: int, api: Api) returns (outcome: Outcome)
      requires IsDigest(md5)
      modifies this
      ensures (State(), outcome) == Reconcile(md5, old(State()), name, now, api)
    {
      if !api.get {
        return Error;
      }
      if name !in jobs {
        return Quiet;
      }
      var job := jobs[name];
      if job.status.state == Unset || job.status.deadline == None {
        job := job.(status := job.status.(state := Pending, deadline := Some(now + job.deadlineSeconds)));
        outcome := SaveStatus(name, job, true, api.save, Requeue);
        return;
      }
      match job.status.state
      case Pending =>
        outcome := CreateJobIfNeeded(name, now, api);
      case Running =>
        if !api.list {
          return Error;
        }
        var owned := GetOwnedInitJobs(name);
        var status, changed := ProcessRunningJob(batchJobs, owned, job.status, now);
        outcome := SaveStatus(name, job.(status := status), changed, api.save, Quiet);
      case _ =>
        return Quiet;
    }
  }

  // Runs

  /** Besides its passes over any job, the controller only sees jobs come and go, and batch jobs
      change, vanish or appear in any way at all. */
  datatype Event =
    | Pass(name: string, now: int, api: Api)
    | Submit(name: string, job: DbInitJob)
    | Edit(name: string, spec: DbInitJob)                            // of everything but the status
    | Discard(name: string)
    | Cluster(batchJobs: map<string, BatchJob>)

  ghost function Next(md5: string -> string, s: Store, e: Event): Store
    requires IsDigest(md5)
  {
    match e
    case Pass(name, now, api) => Reconcile(md5, s, name, now, api).0
    case Submit(name, job) => if name in s.jobs then s else s.(jobs := s.jobs[name := job.(status := NEW_STATUS)])
    case Edit(name, spec) => if name in s.jobs then s.(jobs := s.jobs[name := spec.(status := s.jobs[name].status)])
        else s
    case Discard(name) => s.(jobs := s.jobs - {name})
    case Cluster(batchJobs) => s.(batchJobs := batchJobs)
  }

  ghost function RunFrom(md5: string -> string, s: Store, events: seq<Event>): Store
    requires IsDigest(md5)
    decreases |events|
  {
    if events == [] then s else RunFrom(md5, Next(md5, s, events[0]), events[1..])
  }

  ghost predicate StatusInvariant(status: JobStatus) {
    && (status.state != Unset ==> status.deadline.Some?)
    && (!status.state.IsFinal() ==> status.notFound <= NOT_FOUND_LIMIT)
    && status.notFound <= NOT_FOUND_LIMIT + 1
  }

  ghost predicate Invariant(s: Store) {
    forall name | name in s.jobs :: StatusInvariant(s.jobs[name].status)
  }

  /** What a pass may do to the status of its job. */
  ghost predicate StatusShape(before: JobStatus, after: JobStatus) {
    && (StatusInvariant(before) ==> StatusInvariant(after))
    && (StatusInvariant(before) && before.state.IsFinal() ==> after == before)
    && (StatusInvariant(before) && before.state == Running
        ==> (after.state == Running || after.state.IsFinal()) && after.deadline == before.deadline)
  }

  /** What a pass may do to the jobs. */
  ghost predicate OnlyShapes(s: Store, s': Store, name: string) {
    && s'.jobs.Keys == s.jobs.Keys
    && (forall other | other in s.jobs && other != name :: s'.jobs[other] == s.jobs[other])
    && (name in s.jobs ==> StatusShape(s.jobs[name].status, s'.jobs[name].status))
  }

  lemma PendingShape(md5: string -> string, s: Store, name: string, now: int, api: Api)
    requires IsDigest(md5) && name in s.jobs && s.jobs[name].status.state == Pending
        && s.jobs[name].status.deadline.Some?
    ensures OnlyShapes(s, PendingPass(md5, s, name, now, api).0, name)
  {
    hide BatchName;
  }

  lemma RunningShape(s: Store, name: string, now: int, api: Api)
    requires name in s.jobs && s.jobs[name].status.state == Running && s.jobs[name].status.deadline.Some?
    ensures OnlyShapes(s, RunningPass(s, name, now, api).0, name)
  {
    hide ListingVerdict;
  }

  lemma PassShape(md5: string -> string, s: Store, name: string, now: int, api: Api)
    requires IsDigest(md5)
    ensures OnlyShapes(s, Reconcile(md5, s, name, now, api).0, name)
  {
    hide PendingPass, RunningPass;
    if name in s.jobs && s.jobs[name].status.deadline.Some? {
      if s.jobs[name].status.state == Pending {
        PendingShape(md5, s, name, now, api);
      } else if s.jobs[name].status.state == Running {
        RunningShape(s, name, now, api);
      }
    }
  }

  lemma StepKeepsInvariant(md5: string -> string, s: Store, e: Event)
    requires IsDigest(md5) && Invariant(s)
    ensures Invariant(Next(md5, s, e))
  {
    if e.Pass? {
      PassShape(md5, s, e.name, e.now, e.api);
      hide Reconcile;
    }
  }

  lemma {:induction false} RunKeepsInvariant(md5: string -> string, s: Store, events: seq<Event>)
    requires IsDigest(md5) && Invariant(s)
    ensures Invariant(RunFrom(md5, s, events))
    decreases |events|
  {
    if events != [] {
      StepKeepsInvariant(md5, s, events[0]);
      RunKeepsInvariant(md5, Next(md5, s, events[0]), events[1..]);
    }
  }

  /** In every reachable state a job past its first pass has a deadline, and an unsettled job has
      counted at most five consecutive misses. */
  lemma ReachableStatus(md5: string -> string, events: seq<Event>, name: string)
    requires IsDigest(md5) && name in RunFrom(md5, Store(map[], map[]), events).jobs
    ensures var status := RunFrom(md5, Store(map[], map[]), events).jobs[name].status;
            && (status.state != Unset ==> status.deadline.Some?)
            && (!status.state.IsFinal() ==> status.notFound <= 5)
  {
    RunKeepsInvariant(md5, Store(map[], map[]), events);
  }

  predicate Discards(events: seq<Event>, name: string) {
    exists i | 0 <= i < |events| :: events[i] == Discard(name)
  }

  /** Complete and Failed are absorbing: no later event short of deleting the object changes the
      status of a settled job. */
  lemma {:induction false} FinalIsAbsorbing(md5: string -> string, s: Store, events: seq<Event>, name: string)
    requires IsDigest(md5) && Invariant(s) && name in s.jobs && s.jobs[name].status.state.IsFinal()
    requires !Discards(events, name)
    ensures name in RunFrom(md5, s, events).jobs
    ensures RunFrom(md5, s, events).jobs[name].status == s.jobs[name].status
    decreases |events|
  {
    if events != [] {
      var s' := Next(md5, s, events[0]);
      StepKeepsInvariant(md5, s, events[0]);
      if events[0].Pass? {
        PassShape(md5, s, events[0].name, events[0].now, events[0].api);
      }
      hide Reconcile;
      assert events[0] != Discard(name);
      assert !Discards(events[1..], name) by {
        forall i | 0 <= i < |events[1..]| ensures events[1..][i] != Discard(name) {
          assert events[1..][i] == events[i + 1];
        }
      }
      FinalIsAbsorbing(md5, s', events[1..], name);
    }
  }

  /** How many passes over `name` meet no API failure. */
  function GoodPasses(events: seq<Event>, name: string): nat {
    if events == [] then 0
    else
      (if events[0].Pass? && events[0].name == name && events[0].api.ErrorFree() then 1 else 0)
      + GoodPasses(events[1..], name)
  }

  /** Every pass over `name` sees the clock past `deadline`. */
  predicate ClockPast(events: seq<Event>, name: string, deadline: int) {
    forall e | e in events :: e.Pass? && e.name == name ==> e.now > deadline
  }

  /** Past the deadline no pass moves a running job away from its end, and an error-free one brings
      it closer. */
  lemma LatePassRanks(md5: string -> string, s: Store, name: string, now: int, api: Api)
    requires IsDigest(md5) && Invariant(s) && name in s.jobs && s.jobs[name].status.state == Running
    requires now > s.jobs[name].status.deadline.value
    ensures var status := Reconcile(md5, s, name, now, api).0.jobs[name].status;
            Rank(status) <= Rank(s.jobs[name].status) && (api.ErrorFree() ==> Rank(status) < Rank(s.jobs[name].status))
  {
    var owned := Owned(s.batchJobs, Init, name);
    RunningStepRanks(s.jobs[name].status, |owned|, ListingVerdict(s.batchJobs, owned), now);
    assert Reconcile(md5, s, name, now, api) == if api.get then RunningPass(s, name, now, api) else (s, Error);
  }

  /** Termination: from a running job, once every pass over it sees the clock past its deadline, at
      most six of those passes are error-free before the job is settled, with any number of failing
      passes, other jobs' passes and batch-job changes in between. */
  lemma {:induction false} RunningJobSettles(md5: string -> string, s: Store, events: seq<Event>, name: string)
    requires IsDigest(md5) && Invariant(s) && name in s.jobs && s.jobs[name].status.state == Running
    requires ClockPast(events, name, s.jobs[name].status.deadline.value) && !Discards(events, name)
    requires GoodPasses(events, name) >= Rank(s.jobs[name].status)
    ensures Rank(s.jobs[name].status) <= 6
    ensures name in RunFrom(md5, s, events).jobs
    ensures RunFrom(md5, s, events).jobs[name].status.state.IsFinal()
    decreases |events|
  {
    assert events != [];
    var e, rest := events[0], events[1..];
    var s' := Next(md5, s, e);
    StepKeepsInvariant(md5, s, e);
    RestFacts(events, name, s.jobs[name].status.deadline.value);
    StepOfRunning(md5, s, e, name);
    hide Next, Invariant, Discards, ClockPast, Rank;
    if s'.jobs[name].status.state == Running {
      RunningJobSettles(md5, s', rest, name);
    } else {
      FinalIsAbsorbing(md5, s', rest, name);
    }
  }

  lemma RestFacts(events: seq<Event>, name: string, deadline: int)
    requires events != [] && !Discards(events, name) && ClockPast(events, name, deadline)
    ensures !Discards(events[1..], name) && ClockPast(events[1..], name, deadline) && events[0] != Discard(name)
    ensures events[0].Pass? && events[0].name == name ==> events[0].now > deadline
  {
    forall i | 0 <= i < |events[1..]| ensures events[1..][i] != Discard(name) {
      assert events[1..][i] == events[i + 1];
    }
    assert events[0] in events;
  }

  /** One event past the deadline. */
  lemma StepOfRunning(md5: string -> string, s: Store, e: Event, name: string)
    requires IsDigest(md5) && Invariant(s) && name in s.jobs && s.jobs[name].status.state == Running
        && e != Discard(name)
    requires e.Pass? && e.name == name ==> e.now > s.jobs[name].status.deadline.value
    ensures var s' := Next(md5, s, e);
            && name in s'.jobs && (s'.jobs[name].status.state == Running || s'.jobs[name].status.state.IsFinal())
            && s'.jobs[name].status.deadline == s.jobs[name].status.deadline
            && Rank(s'.jobs[name].status) <= Rank(s.jobs[name].status) <= 6
            && (e.Pass? && e.name == name && e.api.ErrorFree()
                ==> Rank(s'.jobs[name].status) < Rank(s.jobs[name].status))
  {
    if e.Pass? {
      PassShape(md5, s, e.name, e.now, e.api);
      if e.name == name {
        LatePassRanks(md5, s, name, e.now, e.api);
      }
    }
    hide Reconcile;
  }
}
