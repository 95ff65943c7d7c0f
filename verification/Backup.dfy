/** The backup controller (`controllers/job/backup_controller.go`): one batch job per service, and a
    Backup whose own status sums them up. */
module BackupJob {
  import opened Iteration
  import opened Jobs
  import opened Names

  datatype Detail = Detail(state: JobState, startedAt: Option<int>, finishedAt: Option<int>)

  const NO_DETAIL := Detail(Unset, None, None)

  datatype BackupStatus = BackupStatus(own: Detail, services: map<string, Detail>) {
    function Service(name: string): Detail {
      if name in services then services[name] else NO_DETAIL
    }
  }

  /** How the API calls of one pass end, per service where the pass loops.  `prepare` covers the
      config reads and the rendering of the pod spec. */
  datatype Api = Api(get: bool, site: bool, config: string -> bool, find: string -> bool, prepare: string -> bool,
                     create: string -> Call, save: Call)

  ghost predicate ErrorFree(api: Api, names: set<string>) {
    && api.get && api.site && api.save == Ok
    && forall n | n in names :: api.config(n) && api.find(n) && api.prepare(n) && api.create(n) == Ok
  }

  function BatchName(md5: string -> string, service: string, backup: string): string
    requires IsDigest(md5)
  {
    ShortenHumanReadableValue(md5, "backup-" + service + "-" + backup, 50)
  }

  // Specification of a pass

  function StartedAt(startedAt: Option<int>, candidate: int): Option<int> {
    if startedAt == None || startedAt.value > candidate then Some(candidate) else startedAt
  }

  /** The loop state of `processServiceInJob`. */
  datatype Scan = Scan(job: BackupStatus, batchJobs: map<string, BatchJob>, changed: bool, allFinished: bool,
                       last: Option<int>, failed: bool)

  /** A complete service without a finish time would be a nil dereference, recovered unsaved. */
  function FinalService(s: Scan, name: string): Scan {
    var detail := s.job.Service(name);
    if detail.state == Failed then s.(job := s.job.(own := s.job.own.(state := Failed)), changed := true)
    else if detail.finishedAt == None then s.(changed := false, failed := true)
    else if s.last == None || s.last.value < detail.finishedAt.value then s.(last := detail.finishedAt, changed := true)
    else s
  }

  function MissingService(s: Scan, name: string, batchName: string, backup: string, now: int, prepared: bool,
                          create: Call): Scan {
    if !prepared then s.(failed := true)
    else
      var own := s.job.own.(startedAt := StartedAt(s.job.own.startedAt, now), state := Running);
      var batchJobs := if create == Rejected then s.batchJobs
          else s.batchJobs[batchName := BatchJob(Jobs.Backup, backup, "", now, [])];
      var s' := s.(job := s.job.(own := own), batchJobs := batchJobs, changed := true);
      if create != Ok then s'.(failed := true)
      else s'.(job := s'.job.(services := s'.job.services[name := Detail(Running, Some(now), None)]),
          allFinished := false)
  }

  function FoundService(s: Scan, name: string, batchJob: BatchJob): Scan {
    var own := if s.changed then s.job.own else s.job.own.(startedAt :=
        StartedAt(s.job.own.startedAt, batchJob.createdAt));
    var changed := s.changed || own != s.job.own;
    var detail := s.job.Service(name).(startedAt := Some(batchJob.createdAt));
    match FirstVerdict(batchJob.conditions)
    case Succeeded(at) =>
      Scan(BackupStatus(own, s.job.services[name := detail.(state := Complete, finishedAt := Some(at))]), s.batchJobs,
          true, s.allFinished,
           if s.last == None || s.last.value < at then Some(at) else s.last, false)
    case Broken =>
      Scan(BackupStatus(own.(state := Failed), s.job.services[name := detail.(state := Failed)]), s.batchJobs, true,
          false, s.last, false)
    case Unfinished =>
      Scan(BackupStatus(own, s.job.services[name := detail]), s.batchJobs, changed, false, s.last, false)
  }

  function ServiceStep(s: Scan, name: string, batchName: string, backup: string, now: int, api: Api): Scan {
    if s.job.Service(name).state.IsFinal() then FinalService(s, name)
    else if !api.find(name) then s.(failed := true)
    else if batchName !in s.batchJobs then MissingService(s, name, batchName, backup, now, api.prepare(name),
        api.create(name))
    else FoundService(s, name, s.batchJobs[batchName])
  }

  /** A failed step ends the loop. */
  function ScanServices(md5: string -> string, backup: string, s: Scan, order: seq<string>, now: int, api: Api): Scan
    requires IsDigest(md5)
  {
    if order == [] then s
    else
      var before := ScanServices(md5, backup, s, order[..|order| - 1], now, api);
      if before.failed then before
      else
        var name := order[|order| - 1];
        ServiceStep(before, name, BatchName(md5, name, backup), backup, now, api)
  }

  /** Services with a pod spec for backups that have no state yet become pending. */
  function MarkPending(job: BackupStatus, order: seq<string>): BackupStatus {
    if order == [] then job
    else
      var before := MarkPending(job, order[..|order| - 1]);
      var name := order[|order| - 1];
      if before.Service(name).state == Unset then before.(services :=
          before.services[name := before.Service(name).(state := Pending)]) else before
  }

  /** The configs: which exist, and whether they have a pod spec for backups. */
  type Configs = map<string, bool>

  predicate LoadFails(order: seq<string>, configs: Configs, api: Api) {
    exists n | n in order :: !api.config(n) || n !in configs
  }

  /** The services that are loaded before the first failing config read, in order. */
  function Loaded(order: seq<string>, configs: Configs, api: Api): (r: seq<string>)
    ensures forall n | n in r :: n in order && n in configs && configs[n]
  {
    if order == [] then []
    else
      var front, last := order[..|order| - 1], order[|order| - 1];
      var before := Loaded(front, configs, api);
      if LoadFails(front, configs, api) || !api.config(last) || last !in configs || !configs[last] then before
          else before + [last]
  }

  datatype PassResult = PassResult(job: BackupStatus, batchJobs: map<string, BatchJob>, changed: bool, failed: bool)

  /** The end of an error-free loop. */
  function Conclude(s: Scan): PassResult {
    if s.job.own.state != Failed && s.allFinished then
      var own := s.job.own.(state := Complete, finishedAt := if s.last.Some? then s.last else s.job.own.finishedAt);
      PassResult(s.job.(own := own), s.batchJobs, true, false)
    else PassResult(s.job, s.batchJobs, s.changed, false)
  }

  function NothingToBackUp(job: BackupStatus, batchJobs: map<string, BatchJob>, now: int): PassResult {
    var own := Detail(Complete, StartedAt(job.own.startedAt, now), if job.own.finishedAt == None then Some(now)
        else job.own.finishedAt);
    PassResult(job.(own := own), batchJobs, true, false)
  }

  /** `order` is how the site's services are walked, `scanOrder` how the covered ones are. */
  function EnsureJobs(md5: string -> string, backup: string, job: BackupStatus, batchJobs: map<string, BatchJob>,
                      configs: Configs,
                      order: seq<string>, scanOrder: seq<string>, now: int, api: Api): PassResult
    requires IsDigest(md5)
  {
    if !api.site then PassResult(job, batchJobs, false, true)
    else
      var marked := MarkPending(job, Loaded(order, configs, api));
      if LoadFails(order, configs, api) then PassResult(marked, batchJobs, marked != job, true)
      else if scanOrder == [] then NothingToBackUp(marked, batchJobs, now)
      else
        var s := ScanServices(md5, backup, Scan(marked, batchJobs, marked != job, true, None, false), scanOrder, now,
            api);
        if s.failed then PassResult(s.job, s.batchJobs, s.changed, true) else Conclude(s)
  }

  // The loops, as the controller runs them

  method ProcessServiceInJob(md5: string -> string, backup: string, job: BackupStatus, batchJobs: map<string, BatchJob>,
                             changed: bool,
                             order: seq<string>, now: int, api: Api) returns (s: Scan)
    requires IsDigest(md5)
    ensures s == ScanServices(md5, backup, Scan(job, batchJobs, changed, true, None, false), order, now, api)
  {
    hide ScanServices;
    ghost var start := Scan(job, batchJobs, changed, true, None, false);
    ScanNothing(md5, backup, start, now, api);
    var current, store, isChanged, allFinished := job, batchJobs, changed, true;
    var last: Option<int> := None;
    for i := 0 to |order|
      invariant Scan(current, store, isChanged, allFinished, last, false) ==
          ScanServices(md5, backup, start, order[..i], now, api)
    {
      ghost var before := Scan(current, store, isChanged, allFinished, last, false);
      var name := order[i];
      var batchName := BatchName(md5, name, backup);
      ScanOneMore(md5, backup, start, order, i, now, api);
      var detail := current.Service(name);
      if detail.state.IsFinal() {
        if detail.state == Failed {
          current := current.(own := current.own.(state := Failed));
          isChanged := true;
        } else {
          if detail.finishedAt == None {
            ScanStopsAtFailure(md5, backup, start, order, i + 1, now, api);
            return Scan(current, store, false, allFinished, last, true);
          }
          if last == None || last.value < detail.finishedAt.value {
            last := detail.finishedAt;
            isChanged := true;
          }
        }
        continue;
      }
      if !api.find(name) {
        ScanStopsAtFailure(md5, backup, start, order, i + 1, now, api);
        return Scan(current, store, isChanged, allFinished, last, true);
      }
      if batchName !in store {
        if !api.prepare(name) {
          ScanStopsAtFailure(md5, backup, start, order, i + 1, now, api);
          return Scan(current, store, isChanged, allFinished, last, true);
        }
        isChanged := true;
        current := current.(own := current.own.(startedAt := StartedAt(current.own.startedAt, now), state := Running));
        if api.create(name) != Rejected {
          store := store[batchName := BatchJob(Jobs.Backup, backup, "", now, [])];
        }
        if api.create(name) != Ok {
          ScanStopsAtFailure(md5, backup, start, order, i + 1, now, api);
          return Scan(current, store, isChanged, allFinished, last, true);
        }
        allFinished := false;
        detail := Detail(Running, Some(now), None);
      } else {
        var batchJob := store[batchName];
        detail := detail.(startedAt := Some(batchJob.createdAt));
        if !isChanged {
          var startedAt := StartedAt(current.own.startedAt, batchJob.createdAt);
          isChanged := startedAt != current.own.startedAt;
          current := current.(own := current.own.(startedAt := startedAt));
        }
        var verdict := ScanConditions(batchJob.conditions);
        match verdict
        case Succeeded(at) =>
          detail := detail.(state := Complete, finishedAt := Some(at));
          if last == None || last.value < at {
            last := Some(at);
          }
          isChanged := true;
        case Broken =>
          current := current.(own := current.own.(state := Failed));
          detail := detail.(state := Failed);
          isChanged := true;
          allFinished := false;
        case Unfinished =>
          allFinished := false;
      }
      current := current.(services := current.services[name := detail]);
    }
    assert order[..|order|] == order;
    s := Scan(current, store, isChanged, allFinished, last, false);
  }

  // The controller

  datatype Store = Store(backups: map<string, BackupStatus>, batchJobs: map<string, BatchJob>)

  function SaveStatus(s: Store, name: string, job: BackupStatus, changed: bool, save: Call, outcome: Outcome): (Store,
      Outcome) {
    if !changed then (s, outcome)
    else
      (if save == Rejected then s else s.(backups := s.backups[name := job]),
       if save != Ok then Error else outcome)
  }

  /** One pass over the Backup `name`. */
  function Reconcile(md5: string -> string, s: Store, name: string, configs: Configs, order: seq<string>,
                     scanOrder: seq<string>,
                     now: int, api: Api): (Store, Outcome)
    requires IsDigest(md5)
  {
    if !api.get then (s, Error)
    else if name !in s.backups then (s, Quiet)
    else if s.backups[name].own.state == Unset then
      SaveStatus(s, name, s.backups[name].(own := s.backups[name].own.(state := Pending)), true, api.save, Requeue)
    else
      var r := EnsureJobs(md5, name, s.backups[name], s.batchJobs, configs, order, scanOrder, now, api);
      SaveStatus(s.(batchJobs := r.batchJobs), name, r.job, r.changed, api.save, if r.failed then Error else Quiet)
  }

  class BackupReconciler {
    const md5: string -> string
    var backups: map<string, BackupStatus>
    var batchJobs: map<string, BatchJob>

    constructor (md5: string -> string, s: Store)
      ensures this.md5 == md5 && State() == s
    {
      this.md5 := md5;
      backups := s.backups;
      batchJobs := s.batchJobs;
    }

    ghost function State(): Store
      reads this
    {
      Store(backups, batchJobs)
    }

    method SaveStatusUpdatesIfObjectChanged(name: string, job: BackupStatus, changed: bool, save: Call, result: Outcome)
      returns (outcome: Outcome)
      modifies this`backups
      ensures (State(), outcome) == SaveStatus(old(State()), name, job, changed, save, result)
    {
      if !changed {
        return result;
      }
      if save != Rejected {
        backups := backups[name := job];
      }
      outcome := if save != Ok then Error else result;
    }

    /** `services` is the map of the services to back up, here the set of its keys. */
    method LoadServicesForSite(job: BackupStatus, configs: Configs, order: seq<string>, api: Api)
      returns (marked: BackupStatus, services: set<string>, changed: bool, failed: bool)
      ensures marked == MarkPending(job, Loaded(order, configs, api))
      ensures changed == (marked != job) && failed == LoadFails(order, configs, api)
      ensures !failed ==> services == Covered(ToSet(order), configs)
    {
      hide MarkPending, Loaded;
      marked, services, changed := job, {}, false;
      assert MarkPending(job, []) == job by { MarkNothing(job); }
      assert Loaded([], configs, api) == [] by { LoadNothing(configs, api); }
      for i := 0 to |order|
        invariant marked == MarkPending(job, Loaded(order[..i], configs, api))
        invariant changed == (marked != job)
        invariant services == Covered(ToSet(order[..i]), configs)
        invariant !LoadFails(order[..i], configs, api)
      {
        var name := order[i];
        LoadOneMore(order, i, configs, api);
        if !api.config(name) || name !in configs {
          failed := true;
          return;
        }
        assert order[..i + 1] == order[..i] + [name];
        MarkOneMore(job, Loaded(order[..i], configs, api), name);
        if !configs[name] {
          continue;
        }
        if marked.Service(name).state == Unset {
          marked := marked.(services := marked.services[name := marked.Service(name).(state := Pending)]);
          changed := true;
        }
        services := services + {name};
      }
      assert order[..|order|] == order;
      failed := false;
    }

    method EnsureJobsAreUpToDate(name: string, job: BackupStatus, configs: Configs, order: seq<string>,
                                 scanOrder: seq<string>, now: int, api: Api)
      returns (r: PassResult)
      requires IsDigest(md5) && IsOrderOf(scanOrder, Covered(ToSet(order), configs))
      modifies this`batchJobs
      ensures r == EnsureJobs(md5, name, job, old(batchJobs), configs, order, scanOrder, now, api)
          && batchJobs == r.batchJobs
    {
      if !api.site {
        return PassResult(job, batchJobs, false, true);
      }
      var marked, services, changed, failed := LoadServicesForSite(job, configs, order, api);
      if failed {
        return PassResult(marked, batchJobs, changed, true);
      }
      EmptyOrder(scanOrder, services);
      if services == {} {
        return NothingToBackUp(marked, batchJobs, now);
      }
      var s := ProcessServiceInJob(md5, name, marked, batchJobs, changed, scanOrder, now, api);
      batchJobs := s.batchJobs;
      if s.failed {
        return PassResult(s.job, batchJobs, s.changed, true);
      }
      r := PassResult(s.job, batchJobs, s.changed, false);
      if s.job.own.state != Failed && s.allFinished {
        var own := s.job.own.(state := Complete);
        if s.last != None {
          own := own.(finishedAt := s.last);
        }
        r := r.(job := s.job.(own := own), changed := true);
      }
    }

    /** A Backup in a final state is only logged: the pass goes on. */
    method DoReconcile(name: string, configs: Configs, order: seq<string>, scanOrder: seq<string>, now: int, api: Api)
      returns (outcome: Outcome)
      requires IsDigest(md5) && IsOrderOf(scanOrder, Covered(ToSet(order), configs))
      modifies this
      ensures (State(), outcome) == Reconcile(md5, old(State()), name, configs, order, scanOrder, now, api)
    {
      if !api.get {
        return Error;
      }
      if name !in backups {
        return Quiet;
      }
      var job := backups[name];
      if job.own.state == Unset {
        outcome := SaveStatusUpdatesIfObjectChanged(name, job.(own := job.own.(state := Pending)), true, api.save,
            Requeue);
        return;
      }
      var r := EnsureJobsAreUpToDate(name, job, configs, order, scanOrder, now, api);
      outcome := SaveStatusUpdatesIfObjectChanged(name, r.job, r.changed, api.save, if r.failed then Error else Quiet);
    }
  }

  lemma MarkNothing(job: BackupStatus)
    ensures MarkPending(job, []) == job
  {
  }

  lemma LoadNothing(configs: Configs, api: Api)
    ensures Loaded([], configs, api) == []
  {
  }

  lemma MarkOneMore(job: BackupStatus, order: seq<string>, name: string)
    ensures var before, after := MarkPending(job, order), MarkPending(job, order + [name]);
            && after == (if before.Service(name).state == Unset
                         then before.(services := before.services[name := before.Service(name).(state := Pending)])
                             else before)
            && (before.Service(name).state == Unset ==> after != job)
  {
    assert (order + [name])[..|order + [name]| - 1] == order;
    MarkedFacts(job, order);
    var before, after := MarkPending(job, order), MarkPending(job, order + [name]);
    if before.Service(name).state == Unset {
      assert after.Service(name).state == Pending;
      assert job.Service(name).state == Unset;
    }
  }

  /** Up to the first failing config read. */
  lemma LoadOneMore(order: seq<string>, i: nat, configs: Configs, api: Api)
    requires i < |order| && !LoadFails(order[..i], configs, api)
    ensures var name, before := order[i], Loaded(order[..i], configs, api);
            if !api.config(name) || name !in configs then Loaded(order, configs, api) == before
            else Loaded(order[..i + 1], configs, api) == if configs[name] then before + [name] else before
  {
    assert order[..i + 1][..i] == order[..i];
    if !api.config(order[i]) || order[i] !in configs {
      LoadStops(order, i + 1, configs, api);
    }
  }

  lemma {:induction false} LoadStops(order: seq<string>, k: nat, configs: Configs, api: Api)
    requires 0 < k <= |order| && (!api.config(order[k - 1]) || order[k - 1] !in configs)
    ensures Loaded(order, configs, api) == Loaded(order[..k], configs, api)
    decreases |order|
  {
    if k == |order| {
      assert order[..k] == order;
    } else {
      var front := order[..|order| - 1];
      assert front[..k] == order[..k];
      assert front[k - 1] in front;
      LoadStops(front, k, configs, api);
    }
  }

  lemma ScanNothing(md5: string -> string, backup: string, s: Scan, now: int, api: Api)
    requires IsDigest(md5)
    ensures ScanServices(md5, backup, s, [], now, api) == s
  {
  }

  lemma ScanOneMore(md5: string -> string, backup: string, s: Scan, order: seq<string>, i: nat, now: int, api: Api)
    requires IsDigest(md5) && i < |order|
    ensures var before := ScanServices(md5, backup, s, order[..i], now, api);
            ScanServices(md5, backup, s, order[..i + 1], now, api) ==
            if before.failed then before else ServiceStep(before, order[i], BatchName(md5, order[i], backup), backup,
                now, api)
  {
    hide ServiceStep;
    assert order[..i + 1][..i] == order[..i];
  }

  lemma {:induction false} ScanStopsAtFailure(md5: string -> string, backup: string, s: Scan, order: seq<string>,
                                              k: nat, now: int, api: Api)
    requires IsDigest(md5) && k <= |order| && ScanServices(md5, backup, s, order[..k], now, api).failed
    ensures ScanServices(md5, backup, s, order, now, api) == ScanServices(md5, backup, s, order[..k], now, api)
    decreases |order|
  {
    if k == |order| {
      assert order[..k] == order;
    } else {
      var front := order[..|order| - 1];
      assert front[..k] == order[..k];
      ScanStopsAtFailure(md5, backup, s, front, k, now, api);
    }
  }

  // What an error-free pass means, for every iteration order

  /** The controller itself only writes such statuses. */
  ghost predicate IsValid(job: BackupStatus) {
    forall n | n in job.services && job.services[n].state == Complete :: job.services[n].finishedAt.Some?
  }

  ghost predicate IsLatest(last: Option<int>, job: BackupStatus, names: set<string>) {
    && (forall n | n in names && job.Service(n).state == Complete ::
          job.Service(n).finishedAt.Some? && last.Some? && job.Service(n).finishedAt.value <= last.value)
    && (last.Some? ==> exists n :: n in names && job.Service(n).state == Complete && job.Service(n).finishedAt == last)
  }

  ghost predicate NotLater(after: Option<int>, before: Option<int>) {
    before.Some? ==> after.Some? && after.value <= before.value
  }

  /** What the loop has established after the services in `seen`. */
  ghost predicate ScanFacts(before: Scan, after: Scan, seen: set<string>) {
    && (forall n | n !in seen || before.job.Service(n).state.IsFinal() :: after.job.Service(n) == before.job.Service(n))
    && (after.allFinished <==> forall n | n in seen ::
        before.job.Service(n).state.IsFinal()
        || after.job.Service(n).state == Complete)
    && (after.allFinished ==> (after.job.own.state == Failed
        <==> before.job.own.state == Failed || exists n :: n in seen && after.job.Service(n).state == Failed))
    && IsLatest(after.last, after.job, seen)
    && NotLater(after.job.own.startedAt, before.job.own.startedAt)
    && after.job.own.finishedAt == before.job.own.finishedAt
    && IsValid(after.job)
  }

  /** What one error-free step does. */
  ghost predicate StepShape(mid: Scan, after: Scan, name: string) {
    var was, now := mid.job.Service(name), after.job.Service(name);
    && (forall n | n != name || was.state.IsFinal() :: after.job.Service(n) == mid.job.Service(n))
    && (after.allFinished <==> mid.allFinished && (was.state.IsFinal() || now.state == Complete))
    && (after.allFinished ==> after.job.own.state == if now.state == Failed then Failed else mid.job.own.state)
    && (if now.state == Complete then
          && now.finishedAt.Some?
          && after.last == if mid.last == None || mid.last.value < now.finishedAt.value then now.finishedAt
              else mid.last
        else after.last == mid.last)
    && NotLater(after.job.own.startedAt, mid.job.own.startedAt)
    && after.job.own.finishedAt == mid.job.own.finishedAt
  }

  lemma StepHasShape(mid: Scan, name: string, batchName: string, backup: string, now: int, api: Api)
    requires !ServiceStep(mid, name, batchName, backup, now, api).failed
    ensures StepShape(mid, ServiceStep(mid, name, batchName, backup, now, api), name)
    ensures IsValid(mid.job) ==> IsValid(ServiceStep(mid, name, batchName, backup, now, api).job)
  {
    if mid.job.Service(name).state.IsFinal() {
      assert ServiceStep(mid, name, batchName, backup, now, api) == FinalService(mid, name);
      assert forall n :: FinalService(mid, name).job.Service(n) == mid.job.Service(n);
    } else if batchName !in mid.batchJobs {
      MissingHasShape(mid, name, batchName, backup, now, api.prepare(name), api.create(name));
      hide StepShape, MissingService;
    } else {
      FoundHasShape(mid, name, mid.batchJobs[batchName]);
      hide StepShape, FoundService;
    }
  }

  lemma MissingHasShape(mid: Scan, name: string, batchName: string, backup: string, now: int, prepared: bool,
                        create: Call)
    requires !mid.job.Service(name).state.IsFinal() && !MissingService(mid, name, batchName, backup, now, prepared,
        create).failed
    ensures StepShape(mid, MissingService(mid, name, batchName, backup, now, prepared, create), name)
    ensures IsValid(mid.job) ==> IsValid(MissingService(mid, name, batchName, backup, now, prepared, create).job)
  {
  }

  lemma FoundHasShape(mid: Scan, name: string, batchJob: BatchJob)
    requires !mid.job.Service(name).state.IsFinal()
    ensures StepShape(mid, FoundService(mid, name, batchJob), name)
    ensures IsValid(mid.job) ==> IsValid(FoundService(mid, name, batchJob).job)
  {
  }

  lemma StepFacts(before: Scan, mid: Scan, after: Scan, seen: set<string>, name: string)
    requires ScanFacts(before, mid, seen) && name !in seen
    requires StepShape(mid, after, name) && IsValid(after.job)
    ensures ScanFacts(before, after, seen + {name})
  {
    assert forall n | n in seen :: after.job.Service(n) == mid.job.Service(n);
    LatestStep(mid, after, seen, name);
    hide IsLatest, IsValid;
    assert mid.job.Service(name) == before.job.Service(name);
    if after.allFinished {
      assert mid.allFinished;
      assert (exists n :: n in seen + {name} && after.job.Service(n).state == Failed) <==>
             after.job.Service(name).state == Failed || (exists n ::
                 n in seen
                 && mid.job.Service(n).state == Failed) by {
        if n :| n in seen && mid.job.Service(n).state == Failed {
          assert n in seen + {name} && after.job.Service(n).state == Failed;
        }
        if after.job.Service(name).state == Failed {
          assert name in seen + {name};
        }
      }
    }
  }

  lemma LatestStep(mid: Scan, after: Scan, seen: set<string>, name: string)
    requires name !in seen && IsLatest(mid.last, mid.job, seen)
    requires forall n | n in seen :: after.job.Service(n) == mid.job.Service(n)
    requires if after.job.Service(name).state == Complete then
               && after.job.Service(name).finishedAt.Some?
               && after.last == if mid.last == None || mid.last.value < after.job.Service(name).finishedAt.value then
                   after.job.Service(name).finishedAt else mid.last
             else after.last == mid.last
    ensures IsLatest(after.last, after.job, seen + {name})
  {
    if after.last.Some? && after.last == mid.last {
      var n :| n in seen && mid.job.Service(n).state == Complete && mid.job.Service(n).finishedAt == mid.last;
      assert n in seen + {name};
    }
  }

  lemma MidIsValid(before: Scan, mid: Scan, seen: set<string>)
    requires ScanFacts(before, mid, seen)
    ensures IsValid(mid.job)
  {
  }

  lemma {:induction false} LoopFacts(md5: string -> string, backup: string, s: Scan, order: seq<string>, now: int,
                                     api: Api)
    requires IsDigest(md5) && IsOrderOf(order, ToSet(order)) && IsValid(s.job) && s.allFinished && s.last == None
        && !s.failed
    requires !ScanServices(md5, backup, s, order, now, api).failed
    ensures ScanFacts(s, ScanServices(md5, backup, s, order, now, api), ToSet(order))
  {
    if order != [] {
      var front, name := order[..|order| - 1], order[|order| - 1];
      LoopFacts(md5, backup, s, front, now, api);
      assert ToSet(order) == ToSet(front) + {name};
      var mid := ScanServices(md5, backup, s, front, now, api);
      hide ScanFacts, StepShape, ServiceStep;
      MidIsValid(s, mid, ToSet(front));
      StepHasShape(mid, name, BatchName(md5, name, backup), backup, now, api);
      StepFacts(s, mid, ScanServices(md5, backup, s, order, now, api), ToSet(front), name);
    }
  }

  lemma {:induction false} MarkedFacts(job: BackupStatus, order: seq<string>)
    ensures var marked := MarkPending(job, order);
            && marked.own == job.own
            && (forall n | job.Service(n).state != Unset :: marked.Service(n) == job.Service(n))
            && (forall n ::
                marked.Service(n) == job.Service(n)
                || marked.Service(n) == job.Service(n).(state := Pending))
            && (IsValid(job) ==> IsValid(marked))
  {
    if order != [] {
      MarkedFacts(job, order[..|order| - 1]);
    }
  }

  /** The services a Backup covers: those of the site whose config has a pod spec for backups. */
  function Covered(services: set<string>, configs: Configs): set<string> {
    set n | n in services && n in configs && configs[n]
  }

  /** For every order in which Go walks the services, an error-free pass over a Backup that was not
      Complete makes it Complete exactly when there is nothing to back up, or it was not Failed and
      every covered service ends the pass Complete.  It is then finished when the last of them is;
      settled services keep their status, and the start of the Backup only moves earlier. */
  lemma PassOutcome(md5: string -> string, backup: string, job: BackupStatus, batchJobs: map<string, BatchJob>,
                    configs: Configs,
                    order: seq<string>, scanOrder: seq<string>, now: int, api: Api)
    requires IsDigest(md5) && IsValid(job)
    requires IsOrderOf(scanOrder, Covered(ToSet(order), configs))
    requires !EnsureJobs(md5, backup, job, batchJobs, configs, order, scanOrder, now, api).failed
    ensures var after := EnsureJobs(md5, backup, job, batchJobs, configs, order, scanOrder, now, api).job;
            && (scanOrder == [] ==> after.own.state == Complete && after.own.finishedAt.Some?)
            && (scanOrder != [] && job.own.state != Complete ==>
                  (after.own.state == Complete <==>
                      job.own.state != Failed
                      && forall n | n in scanOrder :: after.Service(n).state == Complete))
            && (scanOrder != [] && job.own.state != Complete && after.own.state == Complete ==>
                  IsLatest(after.own.finishedAt, after, Covered(ToSet(order), configs)))
            && (forall n | job.Service(n).state.IsFinal() :: after.Service(n) == job.Service(n))
            && NotLater(after.own.startedAt, job.own.startedAt)
            && IsValid(after)
  {
    var names := Covered(ToSet(order), configs);
    var marked := MarkPending(job, Loaded(order, configs, api));
    var start := Scan(marked, batchJobs, marked != job, true, None, false);
    var s := ScanServices(md5, backup, start, scanOrder, now, api);
    assert ToSet(scanOrder) == names;
    EmptyOrder(scanOrder, names);
    hide Covered, ScanFacts, ScanServices, MarkPending, Loaded, IsLatest, IsOrderOf;
    MarkedFacts(job, Loaded(order, configs, api));
    if scanOrder == [] {
      NothingFacts(marked, batchJobs, now);
    } else {
      OrderedAlone(scanOrder, names);
      LoopFacts(md5, backup, start, scanOrder, now, api);
      ScanNeverCompletes(md5, backup, start, scanOrder, now, api);
      if job.own.state != Complete {
        ConcludeFacts(start, s, names);
      }
      SettledServicesStay(start, s, names);
    }
  }

  lemma OrderedAlone(order: seq<string>, names: set<string>)
    requires IsOrderOf(order, names)
    ensures IsOrderOf(order, ToSet(order))
  {
  }

  lemma NothingFacts(job: BackupStatus, batchJobs: map<string, BatchJob>, now: int)
    requires IsValid(job)
    ensures var after := NothingToBackUp(job, batchJobs, now).job;
            && after.own.state == Complete && after.own.finishedAt.Some?
                && NotLater(after.own.startedAt, job.own.startedAt)
            && (forall n :: after.Service(n) == job.Service(n)) && IsValid(after)
  {
  }

  lemma SettledServicesStay(before: Scan, s: Scan, names: set<string>)
    requires ScanFacts(before, s, names)
    ensures forall n | before.job.Service(n).state.IsFinal() :: Conclude(s).job.Service(n) == before.job.Service(n)
    ensures NotLater(Conclude(s).job.own.startedAt, before.job.own.startedAt) && IsValid(Conclude(s).job)
  {
  }

  lemma StepNeverCompletes(s: Scan, name: string, batchName: string, backup: string, now: int, api: Api)
    ensures var state := ServiceStep(s, name, batchName, backup, now, api).job.own.state;
            state == s.job.own.state || state == Failed || state == Running
  {
  }

  /** The loop never sets the Backup's own state to Complete. */
  lemma {:induction false} ScanNeverCompletes(md5: string -> string, backup: string, s: Scan, order: seq<string>,
                                              now: int, api: Api)
    requires IsDigest(md5)
    ensures var state := ScanServices(md5, backup, s, order, now, api).job.own.state;
            state == s.job.own.state || state == Failed || state == Running
  {
    hide ServiceStep;
    if order != [] {
      ScanNeverCompletes(md5, backup, s, order[..|order| - 1], now, api);
      var before, name := ScanServices(md5, backup, s, order[..|order| - 1], now, api), order[|order| - 1];
      StepNeverCompletes(before, name, BatchName(md5, name, backup), backup, now, api);
    }
  }

  lemma ConcludeFacts(before: Scan, s: Scan, names: set<string>)
    requires ScanFacts(before, s, names) && names != {} && s.job.own.state != Complete
    ensures var after := Conclude(s).job;
            && (after.own.state == Complete <==>
                before.job.own.state != Failed
                && forall n | n in names :: after.Service(n).state == Complete)
            && (after.own.state == Complete ==> IsLatest(after.own.finishedAt, after, names))
            && after.services == s.job.services && after.own.startedAt == s.job.own.startedAt
  {
    var after := Conclude(s).job;
    assert forall n :: after.Service(n) == s.job.Service(n);
    var n :| n in names;
    if after.own.state == Complete {
      assert after.Service(n).state == Complete && s.last.Some?;
    }
  }

  // What depends on the order

  lemma ScanTwo(md5: string -> string, backup: string, s: Scan, a: string, b: string, now: int, api: Api)
    requires IsDigest(md5) && !s.failed
    requires !ServiceStep(s, a, BatchName(md5, a, backup), backup, now, api).failed
    ensures ScanServices(md5, backup, s, [a, b], now, api) ==
            ServiceStep(ServiceStep(s, a, BatchName(md5, a, backup), backup, now, api), b, BatchName(md5, b, backup),
                backup, now, api)
  {
    assert [a, b][..1] == [a] && [a][..0] == [];
    assert ScanServices(md5, backup, s, [a], now, api) ==
        ServiceStep(s, a, BatchName(md5, a, backup), backup, now, api);
    hide ServiceStep;
  }

  /** A failed service and one whose batch job has to be created: the Backup ends the pass Running
      or Failed, depending on which of the two Go visits last. */
  lemma FailureDependsOnOrder(md5: string -> string, backup: string, s: Scan, broken: string, missing: string, now: int,
                              api: Api)
    requires IsDigest(md5) && !s.failed && broken != missing && ErrorFree(api, {broken, missing})
    requires s.job.Service(broken).state == Failed && !s.job.Service(missing).state.IsFinal()
    requires BatchName(md5, missing, backup) !in s.batchJobs
    ensures ScanServices(md5, backup, s, [broken, missing], now, api).job.own.state == Running
    ensures ScanServices(md5, backup, s, [missing, broken], now, api).job.own.state == Failed
  {
    ScanTwo(md5, backup, s, broken, missing, now, api);
    ScanTwo(md5, backup, s, missing, broken, now, api);
  }

  /** Once a pass has something to save, earlier batch jobs no longer move the start of the Backup:
      a service that just completed hides an earlier one that is still running. */
  lemma StartDependsOnOrder(md5: string -> string, backup: string, s: Scan, done: string, running: string, now: int,
                            api: Api)
    requires IsDigest(md5) && !s.failed && !s.changed && s.last == None && done != running
        && ErrorFree(api, {done, running})
    requires s.job.Service(done).state == Complete && s.job.Service(done).finishedAt.Some?
    requires !s.job.Service(running).state.IsFinal() && BatchName(md5, running, backup) in s.batchJobs
    requires s.job.own.startedAt.Some? && s.batchJobs[BatchName(md5, running,
        backup)].createdAt < s.job.own.startedAt.value
    ensures ScanServices(md5, backup, s, [done, running], now, api).job.own.startedAt == s.job.own.startedAt
    ensures ScanServices(md5, backup, s, [running, done], now, api).job.own.startedAt ==
        Some(s.batchJobs[BatchName(md5, running, backup)].createdAt)
  {
    ScanTwo(md5, backup, s, done, running, now, api);
    ScanTwo(md5, backup, s, running, done, now, api);
  }

  /** A final state is only logged.  A service that the site gains after the Backup is Complete takes
      it back to Running. */
  lemma CompleteIsNotFinal(md5: string -> string, backup: string, job: BackupStatus, batchJobs: map<string, BatchJob>,
                           added: string, now: int, api: Api)
    requires IsDigest(md5) && ErrorFree(api, {added})
    requires job.own.state == Complete && job.Service(added).state == Unset
        && BatchName(md5, added, backup) !in batchJobs
    ensures var r := EnsureJobs(md5, backup, job, batchJobs, map[added := true], [added], [added], now, api);
            !r.failed && r.job.own.state == Running && r.job.own.finishedAt == job.own.finishedAt
  {
    var configs: Configs := map[added := true];
    assert [added][..0] == [];
    assert Loaded([added], configs, api) == Loaded([added][..0], configs, api) + [added];
    var marked := MarkPending(job, [added]);
    assert marked == MarkPending(job, [added][..0]).(services :=
        job.services[added := job.Service(added).(state := Pending)]);
    assert LoadFails([added], configs, api) == false;
    var start := Scan(marked, batchJobs, marked != job, true, None, false);
    assert ScanServices(md5, backup, start, [added], now, api) ==
        ServiceStep(start, added, BatchName(md5, added, backup), backup, now, api);
  }

  // What every pass keeps, failures included

  /** The services that are Complete afterwards were so before, or their batch job had succeeded;
      settled services stay; and batch jobs are only added, without conditions. */
  ghost predicate IsSafe(md5: string -> string, backup: string, job: BackupStatus, batchJobs: map<string, BatchJob>,
                         job': BackupStatus, batchJobs': map<string, BatchJob>)
    requires IsDigest(md5)
  {
    && (forall n | job.Service(n).state.IsFinal() :: job'.Service(n) == job.Service(n))
    && (forall n | job'.Service(n).state == Complete ::
          job.Service(n).state == Complete ||
          (BatchName(md5, n, backup) in batchJobs
              && FirstVerdict(batchJobs[BatchName(md5, n, backup)].conditions).Succeeded?))
    && (forall b | b in batchJobs :: b in batchJobs' && batchJobs'[b] == batchJobs[b])
    && (forall b | b in batchJobs' && b !in batchJobs :: batchJobs'[b].conditions == [])
    && (IsValid(job) ==> IsValid(job'))
  }

  lemma MissingServiceIsSafe(md5: string -> string, backup: string, s: Scan, name: string, now: int, prepared: bool,
                             create: Call)
    requires IsDigest(md5) && BatchName(md5, name, backup) !in s.batchJobs && !s.job.Service(name).state.IsFinal()
    ensures var s' := MissingService(s, name, BatchName(md5, name, backup), backup, now, prepared, create);
            IsSafe(md5, backup, s.job, s.batchJobs, s'.job, s'.batchJobs)
  {
    var s' := MissingService(s, name, BatchName(md5, name, backup), backup, now, prepared, create);
    assert forall n | n != name :: s'.job.Service(n) == s.job.Service(n);
  }

  lemma FoundServiceIsSafe(md5: string -> string, backup: string, s: Scan, name: string)
    requires IsDigest(md5) && BatchName(md5, name, backup) in s.batchJobs && !s.job.Service(name).state.IsFinal()
    ensures var s' := FoundService(s, name, s.batchJobs[BatchName(md5, name, backup)]);
            IsSafe(md5, backup, s.job, s.batchJobs, s'.job, s'.batchJobs)
  {
    var s' := FoundService(s, name, s.batchJobs[BatchName(md5, name, backup)]);
    assert forall n | n != name :: s'.job.Service(n) == s.job.Service(n);
  }

  lemma StepIsSafe(md5: string -> string, backup: string, s: Scan, name: string, now: int, api: Api)
    requires IsDigest(md5)
    ensures var s' := ServiceStep(s, name, BatchName(md5, name, backup), backup, now, api);
            IsSafe(md5, backup, s.job, s.batchJobs, s'.job, s'.batchJobs)
  {
    var batchName := BatchName(md5, name, backup);
    if s.job.Service(name).state.IsFinal() || !api.find(name) {
      assert forall n :: ServiceStep(s, name, batchName, backup, now, api).job.Service(n) == s.job.Service(n);
    } else if batchName !in s.batchJobs {
      MissingServiceIsSafe(md5, backup, s, name, now, api.prepare(name), api.create(name));
      hide IsSafe, MissingService;
    } else {
      FoundServiceIsSafe(md5, backup, s, name);
      hide IsSafe, FoundService;
    }
  }

  lemma SafeIsTransitive(md5: string -> string, backup: string, a: Scan, b: Scan, c: Scan)
    requires IsDigest(md5)
    requires IsSafe(md5, backup, a.job, a.batchJobs, b.job, b.batchJobs)
        && IsSafe(md5, backup, b.job, b.batchJobs, c.job, c.batchJobs)
    ensures IsSafe(md5, backup, a.job, a.batchJobs, c.job, c.batchJobs)
  {
    assert forall x | x in b.batchJobs && x !in a.batchJobs :: !FirstVerdict(b.batchJobs[x].conditions).Succeeded?;
  }

  lemma {:induction false} ScanIsSafe(md5: string -> string, backup: string, s: Scan, order: seq<string>, now: int,
                                      api: Api)
    requires IsDigest(md5)
    ensures var s' := ScanServices(md5, backup, s, order, now, api);
            IsSafe(md5, backup, s.job, s.batchJobs, s'.job, s'.batchJobs)
  {
    if order != [] {
      var front, name := order[..|order| - 1], order[|order| - 1];
      ScanIsSafe(md5, backup, s, front, now, api);
      var mid := ScanServices(md5, backup, s, front, now, api);
      if !mid.failed {
        StepIsSafe(md5, backup, mid, name, now, api);
        hide ServiceStep, IsSafe;
        SafeIsTransitive(md5, backup, s, mid, ScanServices(md5, backup, s, order, now, api));
      }
    }
  }

  lemma MarkingIsSafe(md5: string -> string, backup: string, job: BackupStatus, order: seq<string>,
                      batchJobs: map<string, BatchJob>,
                      job': BackupStatus, batchJobs': map<string, BatchJob>)
    requires IsDigest(md5) && IsSafe(md5, backup, MarkPending(job, order), batchJobs, job', batchJobs')
    ensures IsSafe(md5, backup, job, batchJobs, job', batchJobs')
  {
    MarkedFacts(job, order);
    hide MarkPending;
  }

  lemma NothingChanges(md5: string -> string, backup: string, job: BackupStatus, job': BackupStatus,
                       batchJobs: map<string, BatchJob>)
    requires IsDigest(md5) && job'.services == job.services
    ensures IsSafe(md5, backup, job, batchJobs, job', batchJobs)
  {
    assert forall n :: job'.Service(n) == job.Service(n);
  }

  /** Over the whole pass. */
  lemma EnsureJobsIsSafe(md5: string -> string, backup: string, job: BackupStatus, batchJobs: map<string, BatchJob>,
                         configs: Configs,
                         order: seq<string>, scanOrder: seq<string>, now: int, api: Api)
    requires IsDigest(md5)
    ensures var r := EnsureJobs(md5, backup, job, batchJobs, configs, order, scanOrder, now, api);
            IsSafe(md5, backup, job, batchJobs, r.job, r.batchJobs)
  {
    var loaded := Loaded(order, configs, api);
    var marked := MarkPending(job, loaded);
    var s := ScanServices(md5, backup, Scan(marked, batchJobs, marked != job, true, None, false), scanOrder, now, api);
    var r := EnsureJobs(md5, backup, job, batchJobs, configs, order, scanOrder, now, api);
    ScanIsSafe(md5, backup, Scan(marked, batchJobs, marked != job, true, None, false), scanOrder, now, api);
    hide IsSafe, Loaded, LoadFails, MarkPending, ScanServices;
    if !api.site {
      NothingChanges(md5, backup, job, job, batchJobs);
    } else if LoadFails(order, configs, api) || scanOrder == [] {
      NothingChanges(md5, backup, marked, r.job, batchJobs);
      MarkingIsSafe(md5, backup, job, loaded, batchJobs, r.job, batchJobs);
    } else {
      NothingElseChanges(md5, backup, marked, batchJobs, s.job, r.job, s.batchJobs);
      MarkingIsSafe(md5, backup, job, loaded, batchJobs, r.job, s.batchJobs);
    }
  }

  lemma NothingElseChanges(md5: string -> string, backup: string, job: BackupStatus, batchJobs: map<string, BatchJob>,
                           mid: BackupStatus, job': BackupStatus, batchJobs': map<string, BatchJob>)
    requires IsDigest(md5) && IsSafe(md5, backup, job, batchJobs, mid, batchJobs') && job'.services == mid.services
    ensures IsSafe(md5, backup, job, batchJobs, job', batchJobs')
  {
    assert forall n :: job'.Service(n) == mid.Service(n);
  }

  /** A Backup that is Complete only when every covered service is stays that way. */
  lemma PassCompletesAll(md5: string -> string, backup: string, job: BackupStatus, batchJobs: map<string, BatchJob>,
                         configs: Configs,
                         order: seq<string>, scanOrder: seq<string>, now: int, api: Api)
    requires IsDigest(md5) && IsValid(job)
    requires IsOrderOf(scanOrder, Covered(ToSet(order), configs))
    requires job.own.state == Complete ==> forall n | n in scanOrder :: job.Service(n).state == Complete
    ensures var r := EnsureJobs(md5, backup, job, batchJobs, configs, order, scanOrder, now, api);
            r.job.own.state == Complete ==> forall n | n in scanOrder :: r.job.Service(n).state == Complete
  {
    var r := EnsureJobs(md5, backup, job, batchJobs, configs, order, scanOrder, now, api);
    if scanOrder == [] {
    } else if job.own.state == Complete {
      EnsureJobsIsSafe(md5, backup, job, batchJobs, configs, order, scanOrder, now, api);
      hide EnsureJobs;
    } else if r.failed {
      var marked := MarkPending(job, Loaded(order, configs, api));
      MarkedFacts(job, Loaded(order, configs, api));
      ScanNeverCompletes(md5, backup, Scan(marked, batchJobs, marked != job, true, None, false), scanOrder, now, api);
      hide MarkPending, ScanServices, Loaded, LoadFails;
    } else {
      PassOutcome(md5, backup, job, batchJobs, configs, order, scanOrder, now, api);
      hide EnsureJobs;
    }
  }
}
