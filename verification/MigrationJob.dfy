/** The migration job controller (`controllers/job/dbmigrationjob_controller.go`) and the runs it
    takes part in: tag edits, batch jobs that succeed, fail or expire, and API calls that fail. */
module MigrationJob {
  import opened Jobs
  import opened Names

  datatype DbMigrationJob = DbMigrationJob(tag: string, deadlineSeconds: int, status: JobStatus, lastTag: string)

  datatype Store = Store(jobs: map<string, DbMigrationJob>, batchJobs: map<string, BatchJob>)

  /** How the API calls of one pass end; reads only succeed or fail.  `prepare` covers everything
      between the listing and the creation: the config and site reads and the rendering of the pod
      spec.  A rejected collection delete may still have removed some jobs, `removed`. */
  datatype Api = Api(get: bool, list: bool, prepare: bool, deleteAll: Call, removed: set<string>, create: Call,
                     save: Call)
  {
    predicate ErrorFree() { get && list && prepare && deleteAll == Ok && create == Ok && save == Ok }
  }

  function BatchName(md5: string -> string, name: string): string
    requires IsDigest(md5)
  {
    ShortenHumanReadableValue(md5, "dbmigration-" + name, 50)
  }

  const NEW_STATUS := JobStatus(Unset, 0, None)

  // Specification of a pass

  ghost function Remove(batchJobs: map<string, BatchJob>, name: string, call: Call, removed: set<string>): map<string,
      BatchJob> {
    batchJobs - (if call == Rejected then Owned(batchJobs, Migration, name) * removed
        else Owned(batchJobs, Migration, name))
  }

  function NewBatchJob(name: string, job: DbMigrationJob, now: int): BatchJob {
    BatchJob(Migration, name, job.tag, now, [])
  }

  /** Creation fails when the object exists, whatever the labels of the existing one. */
  function Create(batchJobs: map<string, BatchJob>, batchName: string, batchJob: BatchJob,
                  call: Call): (map<string, BatchJob>, bool) {
    if batchName in batchJobs || call == Rejected then (batchJobs, false)
    else (batchJobs[batchName := batchJob], call == Ok)
  }

  /** `SaveStatusUpdatesIfObjectChanged` on a pass without an earlier error. */
  function Save(s: Store, name: string, job: DbMigrationJob, changed: bool, call: Call, result: Outcome): (Store,
      Outcome)
  {
    if !changed then (s, result)
    else (if call == Rejected then s else s.(jobs := s.jobs[name := job]), if call == Ok then result else Error)
  }

  ghost function PendingPass(md5: string -> string, s: Store, name: string, now: int, api: Api): (Store, Outcome)
    requires IsDigest(md5) && name in s.jobs
  {
    var job := s.jobs[name];
    var running := job.(status := job.status.(state := Running));
    if !api.list then (s, Error)
    else if Owned(s.batchJobs, Migration, name) != {} then Save(s, name, running, true, api.save, Quiet)
    else if !api.prepare then (s, Error)
    else
      var (batchJobs, ok) := Create(s.batchJobs, BatchName(md5, name), NewBatchJob(name, job, now), api.create);
      if ok then Save(Store(s.jobs, batchJobs), name, running, true, api.save, Quiet)
      else (Store(s.jobs, batchJobs), Error)
  }

  ghost function RetagPass(s: Store, name: string, now: int, api: Api): (Store, Outcome)
    requires name in s.jobs
  {
    var job := s.jobs[name];
    var left := Store(s.jobs, Remove(s.batchJobs, name, api.deleteAll, api.removed));
    if api.deleteAll != Ok then (left, Error)
    else
      var retagged := job.(status := JobStatus(Pending, job.status.notFound, Some(now + job.deadlineSeconds)),
          lastTag := job.tag);
      Save(left, name, retagged, true, api.save, Requeue)
  }

  ghost function RunningPass(s: Store, name: string, now: int, api: Api): (Store, Outcome)
    requires name in s.jobs
  {
    if !api.list then (s, Error)
    else
      var owned := Owned(s.batchJobs, Migration, name);
      var (status, changed) := RunningStep(s.jobs[name].status, |owned|, ListingVerdict(s.batchJobs, owned), now);
      Save(s, name, s.jobs[name].(status := status), changed, api.save, Quiet)
  }

  ghost function Reconcile(md5: string -> string, s: Store, name: string, now: int, api: Api): (Store, Outcome)
    requires IsDigest(md5)
  {
    if !api.get then (s, Error)
    else if name !in s.jobs then (s, Quiet)
    else if s.jobs[name].tag != s.jobs[name].lastTag then RetagPass(s, name, now, api)
    else match s.jobs[name].status.state
      case Pending => PendingPass(md5, s, name, now, api)
      case Failed => (s, Quiet)
      case Complete => (s, Quiet)
      case Running => RunningPass(s, name, now, api)
      case Unset => (s, Error)
  }

  // The controller

  class DbMigrationJobReconciler {
    const md5: string -> string
    var jobs: map<string, DbMigrationJob>
    var batchJobs: map<string, BatchJob>

    ghost function State(): Store
      reads this
    {
      Store(jobs, batchJobs)
    }

    constructor (md5: string -> string)
      requires IsDigest(md5)
      ensures this.md5 == md5 && State() == Store(map[], map[])
    {
      this.md5 := md5;
      jobs := map[];
      batchJobs := map[];
    }

    method SaveStatus(name: string, job: DbMigrationJob, changed: bool, call: Call, result: Outcome)
      returns (outcome: Outcome)
      modifies this`jobs
      ensures (State(), outcome) == Save(old(State()), name, job, changed, call, result)
    {
      if !changed {
        return result;
      }
      if call != Rejected {
        jobs := jobs[name := job];
      }
      outcome := if call == Ok then result else Error;
    }

    method GetOwnedMigrationJobs(name: string) returns (owned: set<string>)
      ensures owned == Owned(batchJobs, Migration, name)
    {
      owned := set n | n in batchJobs && batchJobs[n].kind == Migration && batchJobs[n].owner == name;
    }

    method DeleteAssociatedJobs(name: string, api: Api) returns (ok: bool)
      modifies this`batchJobs
      ensures batchJobs == Remove(old(batchJobs), name, api.deleteAll, api.removed)
      ensures ok <==> api.deleteAll == Ok
    {
      var owned := GetOwnedMigrationJobs(name);
      batchJobs := batchJobs - (if api.deleteAll == Rejected then owned * api.removed else owned);
      ok := api.deleteAll == Ok;
    }

    method CreateJobIfNeeded(name: string, now: int, api: Api) returns (outcome: Outcome)
      requires IsDigest(md5) && name in jobs
      modifies this
      ensures (State(), outcome) == PendingPass(md5, old(State()), name, now, api)
    {
      var job := jobs[name];
      if !api.list {
        return Error;
      }
      var owned := GetOwnedMigrationJobs(name);
      if owned != {} {
        outcome := SaveStatus(name, job.(status := job.status.(state := Running)), true, api.save, Quiet);
        return;
      }
      if !api.prepare {
        return Error;
      }
      var (created, ok) := Create(batchJobs, BatchName(md5, name), NewBatchJob(name, job, now), api.create);
      batchJobs := created;
      if !ok {
        return Error;
      }
      outcome := SaveStatus(name, job.(status := job.status.(state := Running)), true, api.save, Quiet);
    }

    method DoReconcile(name: string, now: int, api: Api) returns (outcome: Outcome)
      requires IsDigest(md5)
      modifies this
      ensures (State(), outcome) == Reconcile(md5, old(State()), name, now, api)
    {
      if !api.get {
        return Error;
      }
      if name !in jobs {
        return Quiet;
      }
      var job := jobs[name];
      if job.tag != job.lastTag {
        var ok := DeleteAssociatedJobs(name, api);
        if !ok {
          return Error;
        }
        var deadline := Some(now + job.deadlineSeconds);
        job := job.(status := job.status.(state := Pending, deadline := deadline), lastTag := job.tag);
        outcome := SaveStatus(name, job, true, api.save, Requeue);
        return;
      }
      match job.status.state
      case Pending =>
        outcome := CreateJobIfNeeded(name, now, api);
      case Failed =>
        return Quiet;
      case Complete =>
        return Quiet;
      case Running =>
        if !api.list {
          return Error;
        }
        var owned := GetOwnedMigrationJobs(name);
        var status, changed := ProcessRunningJob(batchJobs, owned, job.status, now);
        outcome := SaveStatus(name, job.(status := status), changed, api.save, Quiet);
      case Unset =>
        return Error;
    }
  }

  // Runs

  datatype Event =
    | Pass(name: string, now: int, api: Api)
    | Submit(name: string, tag: string, deadlineSeconds: int)
    | Edit(name: string, tag: string, deadlineSeconds: int)
    | Discard(name: string)                                          // with its batch jobs
    | Report(batchName: string, conditions: seq<Condition>)          // the cluster runs the batch job
    | Expire(batchName: string)
    | Foreign(batchName: string, batchJob: BatchJob)                 // a batch job of another kind

  /** The store, and the pairs `(job, tag)` for which a live batch job created for that tag has
      succeeded since the tag was last recorded in the job's status. */
  datatype World = World(store: Store, migrated: set<(string, string)>)

  ghost function Forget(migrated: set<(string, string)>, name: string): set<(string, string)> {
    set p | p in migrated && p.0 != name
  }

  ghost function Next(md5: string -> string, w: World, e: Event): World
    requires IsDigest(md5)
  {
    var jobs, batchJobs := w.store.jobs, w.store.batchJobs;
    match e
    case Pass(name, now, api) =>
      var s := Reconcile(md5, w.store, name, now, api).0;
      World(s, if name in jobs && name in s.jobs && jobs[name].lastTag != s.jobs[name].lastTag then
          Forget(w.migrated, name) else w.migrated)
    case Submit(name, tag, deadlineSeconds) =>
      if name in jobs then w
      else w.(store := w.store.(jobs := jobs[name := DbMigrationJob(tag, deadlineSeconds, NEW_STATUS, "")]))
    case Edit(name, tag, deadlineSeconds) =>
      if name !in jobs then w
      else w.(store := w.store.(jobs := jobs[name := jobs[name].(tag := tag, deadlineSeconds := deadlineSeconds)]))
    case Discard(name) =>
      World(Store(jobs - {name}, batchJobs - Owned(batchJobs, Migration, name)), Forget(w.migrated, name))
    case Report(batchName, conditions) =>
      if batchName !in batchJobs then w
      else
        var b := batchJobs[batchName];
        World(
          w.store.(batchJobs := batchJobs[batchName := b.(conditions := conditions)]),
          w.migrated + if b.kind == Migration && FirstVerdict(conditions).Succeeded? then {(b.owner, b.forTag)} else {})
    case Expire(batchName) => w.(store := w.store.(batchJobs := batchJobs - {batchName}))
    case Foreign(batchName, batchJob) =>
      if batchName in batchJobs || batchJob.kind == Migration then w
      else w.(store := w.store.(batchJobs := batchJobs[batchName := batchJob]))
  }

  ghost function Run(md5: string -> string, events: seq<Event>): World
    requires IsDigest(md5)
  {
    if events == [] then World(Store(map[], map[]), {})
    else Next(md5, Run(md5, events[..|events| - 1]), events[|events| - 1])
  }

  ghost predicate JobInvariant(w: World, name: string)
    requires name in w.store.jobs
  {
    var job := w.store.jobs[name];
    && (job.status.state == Complete ==> (name, job.lastTag) in w.migrated)
    && (job.status.state != Unset ==> job.status.deadline.Some?)
    && job.status.notFound < UINT32
  }

  ghost predicate BatchInvariant(md5: string -> string, w: World, n: string)
    requires IsDigest(md5) && n in w.store.batchJobs
  {
    var b := w.store.batchJobs[n];
    b.kind == Migration ==>
      && n == BatchName(md5, b.owner)
      && b.owner in w.store.jobs
      && b.forTag == w.store.jobs[b.owner].lastTag
      && (FirstVerdict(b.conditions).Succeeded? ==> (b.owner, b.forTag) in w.migrated)
  }

  ghost predicate Invariant(md5: string -> string, w: World)
    requires IsDigest(md5)
  {
    && (forall name | name in w.store.jobs :: JobInvariant(w, name))
    && (forall n | n in w.store.batchJobs :: BatchInvariant(md5, w, n))
  }

  lemma OwnedAtMostOne(md5: string -> string, w: World, name: string)
    requires IsDigest(md5) && Invariant(md5, w)
    ensures Owned(w.store.batchJobs, Migration, name) <= {BatchName(md5, name)}
    ensures |Owned(w.store.batchJobs, Migration, name)| <= 1
  {
    var owned := Owned(w.store.batchJobs, Migration, name);
    assert owned <= {BatchName(md5, name)} by {
      forall n | n in owned ensures n == BatchName(md5, name) {
        assert BatchInvariant(md5, w, n);
      }
    }
    SubsetCard(owned, {BatchName(md5, name)});
  }

  lemma SubsetCard<T>(a: set<T>, b: set<T>)
    requires a <= b
    ensures |a| <= |b|
  {
    assert b == a + (b - a);
  }

  /** A success seen by the pass is one the history knows. */
  lemma SeenSuccessIsRecorded(md5: string -> string, w: World, name: string)
    requires IsDigest(md5) && Invariant(md5, w) && name in w.store.jobs
    ensures ListingVerdict(w.store.batchJobs, Owned(w.store.batchJobs, Migration, name)).Succeeded? ==>
              (name, w.store.jobs[name].lastTag) in w.migrated
  {
    var owned := Owned(w.store.batchJobs, Migration, name);
    if |owned| == 1 {
      var n :| n in owned && ListingVerdict(w.store.batchJobs, owned) == FirstVerdict(w.store.batchJobs[n].conditions);
      assert BatchInvariant(md5, w, n);
    }
  }

  /** All a pass can do to the batch jobs: remove some, or add one for the recorded tag. */
  ghost predicate BatchShape(md5: string -> string, s: Store, s': Store, name: string)
    requires IsDigest(md5)
  {
    forall n | n in s'.batchJobs ::
      || (n in s.batchJobs && s'.batchJobs[n] == s.batchJobs[n])
      || (n == BatchName(md5, name) && name in s.jobs && s.jobs[name].tag == s.jobs[name].lastTag
          && exists now :: s'.batchJobs[n] == NewBatchJob(name, s.jobs[name], now))
  }

  /** All a pass can do to the status of its job. */
  ghost predicate JobShape(s: Store, job: DbMigrationJob, job': DbMigrationJob, batchJobs': map<string, BatchJob>,
                           name: string) {
    && (job'.lastTag != job.lastTag ==> Owned(batchJobs', Migration, name) == {} && job'.status.state == Pending)
    && (job'.status.state == Complete ==>
        job.status.state == Complete
        || ListingVerdict(s.batchJobs, Owned(s.batchJobs, Migration, name)).Succeeded?)
    && (job'.status.state != Unset ==>
        job'.status.deadline.Some?
        || (job.status.state != Unset && job.status.deadline.None?))
    && (job.status.notFound < UINT32 ==> job'.status.notFound < UINT32)
  }

  ghost predicate PassShape(md5: string -> string, s: Store, s': Store, name: string)
    requires IsDigest(md5)
  {
    && s'.jobs.Keys == s.jobs.Keys
    && (forall other | other in s.jobs && other != name :: s'.jobs[other] == s.jobs[other])
    && BatchShape(md5, s, s', name)
    && (name in s.jobs ==> JobShape(s, s.jobs[name], s'.jobs[name], s'.batchJobs, name))
  }

  lemma PendingPassHasShape(md5: string -> string, s: Store, name: string, now: int, api: Api)
    requires IsDigest(md5) && name in s.jobs && s.jobs[name].tag == s.jobs[name].lastTag
        && s.jobs[name].status.state == Pending
    ensures PassShape(md5, s, PendingPass(md5, s, name, now, api).0, name)
  {
    var s' := PendingPass(md5, s, name, now, api).0;
    assert BatchShape(md5, s, s', name);
  }

  lemma RetagPassHasShape(md5: string -> string, s: Store, name: string, now: int, api: Api)
    requires IsDigest(md5) && name in s.jobs
    ensures PassShape(md5, s, RetagPass(s, name, now, api).0, name)
  {
    var s' := RetagPass(s, name, now, api).0;
    assert BatchShape(md5, s, s', name);
  }

  lemma RunningPassHasShape(md5: string -> string, s: Store, name: string, now: int, api: Api)
    requires IsDigest(md5) && name in s.jobs && s.jobs[name].status.state == Running
    ensures PassShape(md5, s, RunningPass(s, name, now, api).0, name)
  {
    var s' := RunningPass(s, name, now, api).0;
    assert BatchShape(md5, s, s', name);
  }

  lemma PassHasShape(md5: string -> string, s: Store, name: string, now: int, api: Api)
    requires IsDigest(md5)
    ensures PassShape(md5, s, Reconcile(md5, s, name, now, api).0, name)
  {
    hide PendingPass, RetagPass, RunningPass;
    if api.get && name in s.jobs {
      if s.jobs[name].tag != s.jobs[name].lastTag {
        RetagPassHasShape(md5, s, name, now, api);
      } else if s.jobs[name].status.state == Pending {
        PendingPassHasShape(md5, s, name, now, api);
      } else if s.jobs[name].status.state == Running {
        RunningPassHasShape(md5, s, name, now, api);
      }
    }
  }

  lemma PassKeepsInvariant(md5: string -> string, w: World, e: Event)
    requires IsDigest(md5) && Invariant(md5, w) && e.Pass?
    ensures Invariant(md5, Next(md5, w, e))
  {
    var name, s, w' := e.name, w.store, Next(md5, w, e);
    var s' := w'.store;
    PassHasShape(md5, s, name, e.now, e.api);
    ShapeKeepsInvariant(md5, w, s', name, w'.migrated);
  }

  lemma ShapeKeepsInvariant(md5: string -> string, w: World, s': Store, name: string, migrated: set<(string, string)>)
    requires IsDigest(md5) && Invariant(md5, w) && PassShape(md5, w.store, s', name)
    requires migrated == if name in w.store.jobs && w.store.jobs[name].lastTag != s'.jobs[name].lastTag then
        Forget(w.migrated, name) else w.migrated
    ensures Invariant(md5, World(s', migrated))
  {
    var w' := World(s', migrated);
    forall other | other in s'.jobs ensures JobInvariant(w', other) {
      assert JobInvariant(w, other);
      if other == name {
        SeenSuccessIsRecorded(md5, w, name);
      }
    }
    forall n | n in s'.batchJobs ensures BatchInvariant(md5, w', n) {
      if n in w.store.batchJobs {
        assert BatchInvariant(md5, w, n);
      }
      if s'.batchJobs[n].kind == Migration && s'.batchJobs[n].owner == name {
        assert n in Owned(s'.batchJobs, Migration, name);
      }
    }
  }

  lemma StepKeepsInvariant(md5: string -> string, w: World, e: Event)
    requires IsDigest(md5) && Invariant(md5, w)
    ensures Invariant(md5, Next(md5, w, e))
  {
    if e.Pass? {
      PassKeepsInvariant(md5, w, e);
    } else {
      var w' := Next(md5, w, e);
      forall name | name in w'.store.jobs ensures JobInvariant(w', name) {
        if name in w.store.jobs {
          assert JobInvariant(w, name);
        }
      }
      forall n | n in w'.store.batchJobs ensures BatchInvariant(md5, w', n) {
        if n in w.store.batchJobs {
          assert BatchInvariant(md5, w, n);
        }
      }
    }
  }

  lemma {:induction false} RunKeepsInvariant(md5: string -> string, events: seq<Event>)
    requires IsDigest(md5)
    ensures Invariant(md5, Run(md5, events))
  {
    if events != [] {
      RunKeepsInvariant(md5, events[..|events| - 1]);
      StepKeepsInvariant(md5, Run(md5, events[..|events| - 1]), events[|events| - 1]);
    }
  }

  /** The world after the first `k` events. */
  ghost function At(md5: string -> string, events: seq<Event>, k: nat): World
    requires IsDigest(md5) && k <= |events|
  {
    Run(md5, events[..k])
  }

  lemma AtFront(md5: string -> string, events: seq<Event>, k: nat)
    requires IsDigest(md5) && k < |events|
    ensures At(md5, events[..|events| - 1], k) == At(md5, events, k)
  {
    assert events[..|events| - 1][..k] == events[..k];
  }

  /** Event `i` of the run is a success of a batch job that was created for `name` while its tag
      was `tag`. */
  ghost predicate SuccessAt(md5: string -> string, events: seq<Event>, i: nat, name: string, tag: string)
    requires IsDigest(md5) && i < |events|
  {
    && events[i].Report?
    && FirstVerdict(events[i].conditions).Succeeded?
    && var batchJobs := At(md5, events, i).store.batchJobs;
       && events[i].batchName in batchJobs
       && batchJobs[events[i].batchName].kind == Migration
       && batchJobs[events[i].batchName].owner == name
       && batchJobs[events[i].batchName].forTag == tag
  }

  ghost predicate Records(w: World, name: string, tag: string) {
    name in w.store.jobs && w.store.jobs[name].lastTag == tag
  }

  /** From event `i` on, the job exists and its recorded tag stays the same. */
  ghost predicate RecordedThroughout(md5: string -> string, events: seq<Event>, i: nat, name: string, tag: string)
    requires IsDigest(md5) && i <= |events|
  {
    forall k: nat | i <= k <= |events| :: Records(At(md5, events, k), name, tag)
  }

  ghost predicate Witness(md5: string -> string, events: seq<Event>, i: nat, name: string, tag: string)
    requires IsDigest(md5)
  {
    i < |events| && SuccessAt(md5, events, i, name, tag) && RecordedThroughout(md5, events, i, name, tag)
  }

  lemma SuccessExtends(md5: string -> string, events: seq<Event>, i: nat, name: string, tag: string)
    requires IsDigest(md5) && i + 1 < |events| && SuccessAt(md5, events[..|events| - 1], i, name, tag)
    ensures SuccessAt(md5, events, i, name, tag)
  {
    hide Run, Next;
    AtFront(md5, events, i);
  }

  lemma RecordExtends(md5: string -> string, events: seq<Event>, i: nat, name: string, tag: string)
    requires IsDigest(md5) && i < |events| && RecordedThroughout(md5, events[..|events| - 1], i, name, tag)
    requires Records(Run(md5, events), name, tag)
    ensures RecordedThroughout(md5, events, i, name, tag)
  {
    hide Run, Next, Records;
    forall k: nat | i <= k <= |events| ensures Records(At(md5, events, k), name, tag) {
      if k < |events| {
        AtFront(md5, events, k);
      } else {
        assert events[..k] == events;
      }
    }
  }

  /** The last event of the run is the witness when the history did not have the pair before it. */
  lemma LastIsWitness(md5: string -> string, events: seq<Event>, name: string, tag: string)
    requires IsDigest(md5) && events != []
    requires (name, tag) in Run(md5, events).migrated
    requires (name, tag) !in Run(md5, events[..|events| - 1]).migrated
    ensures Witness(md5, events, |events| - 1, name, tag)
  {
    var last := |events| - 1;
    var before := Run(md5, events[..last]);
    RunKeepsInvariant(md5, events[..last]);
    assert events[..|events|] == events;
    LastStepIsWitness(md5, before, events[last], name, tag);
    forall k: nat | last <= k <= |events| ensures Records(At(md5, events, k), name, tag) {
      assert k == last || k == |events|;
    }
  }

  lemma LastStepIsWitness(md5: string -> string, w: World, e: Event, name: string, tag: string)
    requires IsDigest(md5) && Invariant(md5, w)
    requires (name, tag) in Next(md5, w, e).migrated && (name, tag) !in w.migrated
    ensures e.Report? && FirstVerdict(e.conditions).Succeeded? && e.batchName in w.store.batchJobs
    ensures var b := w.store.batchJobs[e.batchName]; b.kind == Migration && b.owner == name && b.forTag == tag
    ensures Records(w, name, tag) && Records(Next(md5, w, e), name, tag)
  {
    hide Reconcile;
    assert BatchInvariant(md5, w, e.batchName);
  }

  /** The history only holds pairs whose tag is the recorded one. */
  ghost predicate HistoryIsCurrent(w: World) {
    forall p | p in w.migrated :: Records(w, p.0, p.1)
  }

  lemma StepKeepsHistoryCurrent(md5: string -> string, w: World, e: Event)
    requires IsDigest(md5) && Invariant(md5, w) && HistoryIsCurrent(w)
    ensures HistoryIsCurrent(Next(md5, w, e))
  {
    if e.Pass? {
      PassHasShape(md5, w.store, e.name, e.now, e.api);
    } else if e.Report? && e.batchName in w.store.batchJobs {
      assert BatchInvariant(md5, w, e.batchName);
    }
  }

  lemma {:induction false} RunKeepsHistoryCurrent(md5: string -> string, events: seq<Event>)
    requires IsDigest(md5)
    ensures HistoryIsCurrent(Run(md5, events))
  {
    if events != [] {
      RunKeepsHistoryCurrent(md5, events[..|events| - 1]);
      RunKeepsInvariant(md5, events[..|events| - 1]);
      StepKeepsHistoryCurrent(md5, Run(md5, events[..|events| - 1]), events[|events| - 1]);
    }
  }

  lemma HistoryRecords(md5: string -> string, events: seq<Event>, name: string, tag: string)
    requires IsDigest(md5) && (name, tag) in Run(md5, events).migrated
    ensures Records(Run(md5, events), name, tag)
  {
    RunKeepsHistoryCurrent(md5, events);
    hide Run, Records;
  }

  lemma {:induction false} MigratedHasWitness(md5: string -> string, events: seq<Event>, name: string, tag: string)
    requires IsDigest(md5)
    requires (name, tag) in Run(md5, events).migrated
    ensures exists i: nat :: Witness(md5, events, i, name, tag)
  {
    hide Next, At, SuccessAt, RecordedThroughout, HistoryIsCurrent;
    assert events != [];
    var front := events[..|events| - 1];
    HistoryRecords(md5, events, name, tag);
    hide Run;
    if (name, tag) in Run(md5, front).migrated {
      MigratedHasWitness(md5, front, name, tag);
      var i: nat :| Witness(md5, front, i, name, tag);
      SuccessExtends(md5, events, i, name, tag);
      RecordExtends(md5, events, i, name, tag);
      assert Witness(md5, events, i, name, tag);
    } else {
      LastIsWitness(md5, events, name, tag);
    }
  }

  /** Safety of every run.  A job recorded Complete has a tag for which a batch job, created while
      that was the job's tag, succeeded after the tag was last recorded.  The live batch jobs of a
      job were all created for the recorded tag, and there is at most one. */
  lemma RunIsSafe(md5: string -> string, events: seq<Event>, name: string)
    requires IsDigest(md5) && name in Run(md5, events).store.jobs
    ensures var w := Run(md5, events);
            var job := w.store.jobs[name];
            var owned := Owned(w.store.batchJobs, Migration, name);
            && (job.status.state == Complete ==>
                 exists i: nat :: Witness(md5, events, i, name, job.lastTag))
            && (forall n | n in owned :: w.store.batchJobs[n].forTag == job.lastTag)
            && |owned| <= 1
  {
    var w := Run(md5, events);
    RunKeepsInvariant(md5, events);
    OwnedAtMostOne(md5, w, name);
    forall n | n in Owned(w.store.batchJobs, Migration, name)
      ensures w.store.batchJobs[n].forTag == w.store.jobs[name].lastTag
    {
      assert BatchInvariant(md5, w, n);
    }
    assert JobInvariant(w, name);
    if w.store.jobs[name].status.state == Complete {
      MigratedHasWitness(md5, events, name, w.store.jobs[name].lastTag);
    }
  }

  /** An error-free retag pass leaves no batch job of the old tag and asks for a new one. */
  lemma RetagStartsOver(md5: string -> string, s: Store, name: string, now: int, api: Api)
    requires IsDigest(md5) && api.ErrorFree() && name in s.jobs && s.jobs[name].tag != s.jobs[name].lastTag
    ensures var (s', outcome) := Reconcile(md5, s, name, now, api);
            && name in s'.jobs && s'.jobs[name].lastTag == s.jobs[name].tag && s'.jobs[name].status.state == Pending
            && Owned(s'.batchJobs, Migration, name) == {} && outcome == Requeue
            && s'.jobs[name].status.deadline == Some(now + s.jobs[name].deadlineSeconds)
            && s'.jobs[name].tag == s.jobs[name].tag && s'.jobs[name].deadlineSeconds == s.jobs[name].deadlineSeconds
            && (forall n :: n in s'.batchJobs <==>
                  n in s.batchJobs && !(s.batchJobs[n].kind == Migration && s.batchJobs[n].owner == name))
            && (forall n | n in s'.batchJobs :: s'.batchJobs[n] == s.batchJobs[n])
  {
  }

  /** The counter of consecutive misses is not reset by a retag.  After a retag and the creation of
      the new batch job, losing that batch job once fails the job at once unless fewer than five
      misses had been counted for the old tag (or the 32-bit counter is about to wrap). */
  lemma RetagKeepsMissCount(md5: string -> string, s: Store, name: string, now: int, api: Api)
    requires IsDigest(md5) && api.ErrorFree()
    requires name in s.jobs && s.jobs[name].tag != s.jobs[name].lastTag && s.jobs[name].status.notFound < UINT32
    requires BatchName(md5, name) !in s.batchJobs
    ensures var misses := s.jobs[name].status.notFound;
            var created := Reconcile(md5, Reconcile(md5, s, name, now, api).0, name, now, api).0;
            var lost := created.(batchJobs := created.batchJobs - Owned(created.batchJobs, Migration, name));
            var after := Reconcile(md5, lost, name, now, api).0;
            && name in created.jobs && created.jobs[name].status.state == Running
                && created.jobs[name].status.notFound == misses
            && name in after.jobs
            && (after.jobs[name].status.state == Failed <==> NOT_FOUND_LIMIT <= misses < UINT32 - 1)
  {
    var retagged := Reconcile(md5, s, name, now, api).0;
    assert retagged == RetagPass(s, name, now, api).0;
    assert Owned(retagged.batchJobs, Migration, name) == {};
    var created := Reconcile(md5, retagged, name, now, api).0;
    assert created == PendingPass(md5, retagged, name, now, api).0;
    var lost := created.(batchJobs := created.batchJobs - Owned(created.batchJobs, Migration, name));
    assert Owned(lost.batchJobs, Migration, name) == {};
    assert Reconcile(md5, lost, name, now, api) == RunningPass(lost, name, now, api);
  }
}
