/** A pass of the site controller after the status pass
    (`controllers/site/stagingsite_controller.go:141-232, 591-668, 712-766`): automatic deletion, then
    databases, configs, init jobs, migration jobs, workloads and networking, each behind the ones before
    it, then the scheduled backup, and what of it all is saved. */
module SiteGating {
  import opened Iteration
  import opened Jobs
  import opened Names
  import opened Apis
  import opened BackupSchedule
  import opened TaskDiff
  import opened TaskConvergence
  import R = Redis

  // What the spec asks for

  /** The parts of a site that the handlers read. */
  datatype Site = Site(name: string, spec: SiteSpec, enabled: bool, deleteAt: Option<int>,
                       configs: map<string, ServiceConfig>) {
    function ShortName(service: string): string {
      if service in configs then configs[service].shortName else ""
    }

    function Uses(service: string, engine: Engine): bool {
      service in spec.services && EnvironmentOf(spec.services[service], engine) != ""
    }

    function HasDatabase(service: string): bool {
      Uses(service, Mysql) || Uses(service, Mongo)
    }

    predicate ConfigsExist() {
      forall s | s in spec.services :: s in configs
    }

    /** A handler only reads the configs of the services that it is about. */
    predicate ConfigsExistFor(engine: Engine) {
      forall s | s in spec.services :: Uses(s, engine) ==> s in configs
    }

    predicate ConfigsExistForDatabases() {
      forall s | s in spec.services :: HasDatabase(s) ==> s in configs
    }
  }

  function WantedDatabases(md5: string -> string, site: Site, engine: Engine): Wanted
    requires IsDigest(md5)
  {
    map s | s in site.spec.services && site.Uses(s, engine) ::
      Expected(RecordName(md5, site.name, site.ShortName(s)),
               if engine == RedisEngine then [EnvironmentOf(site.spec.services[s], engine)]
               else [EnvironmentOf(site.spec.services[s], engine),
                   MakeDatabaseName(md5, site.spec.dbName, site.ShortName(s)),
                     MakeUsername(md5, site.spec.username, site.ShortName(s)), site.spec.password])
  }

  function WantedInitJobs(md5: string -> string, site: Site): Wanted
    requires IsDigest(md5)
  {
    map s | s in site.spec.services && site.HasDatabase(s) && s in site.configs && site.configs[s].dbInit.Some? ::
      Expected(RecordName(md5, site.name, site.ShortName(s)),
               [site.spec.services[s].mysqlEnvironment, site.spec.services[s].mongoEnvironment,
                   site.spec.services[s].initSource])
  }

  /** None while the site is disabled. */
  function WantedMigrationJobs(md5: string -> string, site: Site): Wanted
    requires IsDigest(md5)
  {
    map s | s in site.spec.services && site.enabled && site.HasDatabase(s) && s in site.configs
        && site.configs[s].migration.Some? ::
      Expected(RecordName(md5, site.name, site.ShortName(s)), [site.spec.services[s].imageTag])
  }

  // The gate

  datatype Cluster = Cluster(mysql: Store, mongo: Store, redis: R.Reservations, init: Store, migrations: Store)

  ghost predicate AllComplete(store: Store, site: string) {
    forall n | n in OfSite(store, site) :: store[n].state == Complete
  }

  ghost predicate IsDone(kind: Kind, store: Store, site: string, wanted: Wanted) {
    Corresponds(kind, store, site, wanted) && AllComplete(store, site)
  }

  ghost predicate DatabasesAreCreated(md5: string -> string, site: Site, c: Cluster)
    requires IsDigest(md5)
  {
    && (forall engine :: site.ConfigsExistFor(engine))
    && Corresponds(Databases, c.mysql, site.name, WantedDatabases(md5, site, Mysql))
    && Corresponds(Databases, c.mongo, site.name, WantedDatabases(md5, site, Mongo))
    && Corresponds(Databases, R.View(c.redis), site.name, WantedDatabases(md5, site, RedisEngine))
  }

  ghost predicate DatabasesAreReady(site: Site, c: Cluster) {
    AllComplete(c.mysql, site.name) && AllComplete(c.mongo, site.name) && AllComplete(R.View(c.redis), site.name)
  }

  ghost predicate InitIsDone(md5: string -> string, site: Site, c: Cluster)
    requires IsDigest(md5)
  {
    IsDone(InitJobs, c.init, site.name, WantedInitJobs(md5, site))
  }

  ghost predicate MigrationsAreDone(md5: string -> string, site: Site, c: Cluster)
    requires IsDigest(md5)
  {
    IsDone(MigrationJobs, c.migrations, site.name, WantedMigrationJobs(md5, site))
  }

  // One handler

  datatype Failure = NoFailure | Transient | Final

  datatype Step = Step(complete: bool, failure: Failure)

  /** The records are those there were, in the states they had. */
  ghost predicate SameStates(before: Store, after: Store) {
    before.Keys == after.Keys && forall n | n in before :: after[n] == before[n].(content := after[n].content)
  }

  method RunHandler(kind: Kind, store: Store, site: string, wanted: Wanted, api: TaskDiff.Api)
    returns (after: Store, r: Step)
    ensures r.failure != Final
    ensures r.complete ==> api.read && Corresponds(kind, store, site, wanted)
    ensures r.complete && kind != MigrationJobs ==> after == store && r.failure == NoFailure
    ensures r.complete && r.failure == NoFailure ==> SameStates(store, after) && AllMatch(kind, after, site, wanted)
    ensures ErrorFree(api) && Corresponds(kind, store, site, wanted) ==> r.complete && r.failure == NoFailure
  {
    var handler := new TaskHandler(kind, store);
    var listing := Walk(OfSite(store, site));
    var d := DiffOf(kind, store, wanted, listing);
    var toDelete := Walk(d.delete.Keys);
    var toCreate := Walk(d.create.Keys);
    var toUpdate := Walk(d.update.Keys);
    var orders := Orders(toDelete, toCreate, toUpdate);
    var complete, failed := handler.EnsureDatabasesAreCreated(site, wanted, listing, orders, api);
    after := handler.store;
    r := Step(complete, if failed then Transient else NoFailure);
    CompleteExactly(kind, store, site, wanted, listing);
    assert IsPass(kind, store, site, wanted, listing, orders);
    if complete {
      CompletePass(kind, store, site, wanted, listing, orders, api);
    }
    if api.read && Corresponds(kind, store, site, wanted) {
      CompletePass(kind, store, site, wanted, listing, orders, api);
    }
  }

  /** A pass over a complete site only updates migration jobs. */
  lemma CompletePass(kind: Kind, store: Store, site: string, wanted: Wanted, listing: seq<string>, o: Orders,
                     api: TaskDiff.Api)
    requires IsPass(kind, store, site, wanted, listing, o) && IsComplete(kind, DiffOf(kind, store, wanted, listing))
        && api.read
    ensures var r := EnsureCreated(kind, store, site, wanted, listing, o, api);
            && (kind != MigrationJobs ==> r.store == store && !r.failed)
            && (!r.failed ==> SameStates(store, r.store) && AllMatch(kind, r.store, site, wanted))
            && (ErrorFree(api) ==> !r.failed)
  {
    hide DiffOf, Kept, DiffMeans, Corresponds, AllMatch, UpdateAll, OfSite, Surplus, ErrorFree, SameStates;
    var d := DiffOf(kind, store, wanted, listing);
    PassFacts(kind, store, site, wanted, listing, o);
    EmptyOrder(o.delete, d.delete.Keys);
    EmptyOrder(o.create, d.create.Keys);
    NoUpdatesOfInitJobs(kind, store, site, wanted, d, Kept(store, wanted, listing));
    EmptyOrder(o.update, d.update.Keys);
    UpdatesKeepStates(kind, store, wanted, d, o.update, api);
    UpdatesAreInStore(kind, store, site, wanted, d, Kept(store, wanted, listing));
    if ErrorFree(api) {
      UpdatesFailExactly(kind, store, wanted, d, o.update, api);
    }
    if !EnsureCreated(kind, store, site, wanted, listing, o, api).failed {
      PassMeans(kind, store, site, wanted, listing, o, api);
    }
    hide IsPass, AreOrders, IsOrderOf;
    assert DeleteAll(store, d, o.delete, api) == (store, false);
    assert kind != MigrationJobs ==>
        UpdateAll(kind, store, wanted, d, o.update, api) ==
        (store, false) by { NoUpdates(kind, store, wanted, d, api); }
  }

  lemma NoUpdates(kind: Kind, store: Store, wanted: Wanted, d: Diff, api: TaskDiff.Api)
    ensures UpdateAll(kind, store, wanted, d, [], api) == (store, false)
  {
  }

  lemma NoUpdatesOfInitJobs(kind: Kind, store: Store, site: string, wanted: Wanted, d: Diff, kept: map<string, string>)
    requires DiffMeans(kind, store, wanted, OfSite(store, site), d, kept)
    ensures kind == InitJobs ==> d.update.Keys == {}
  {
  }

  lemma UpdatesAreInStore(kind: Kind, store: Store, site: string, wanted: Wanted, d: Diff, kept: map<string, string>)
    requires DiffMeans(kind, store, wanted, OfSite(store, site), d, kept)
    ensures forall s | s in d.update :: d.update[s] in store
  {
  }

  lemma {:induction false} UpdatesKeepStates(kind: Kind, store: Store, wanted: Wanted, d: Diff, order: seq<string>,
                                             api: TaskDiff.Api)
    requires forall s | s in order :: s in d.update && s in wanted
    ensures SameStates(store, UpdateAll(kind, store, wanted, d, order, api).0)
  {
    if order != [] {
      UpdatesKeepStates(kind, store, wanted, d, order[..|order| - 1], api);
    }
  }

  method RunRedis(s: R.State, counts: R.Counts, site: string, wanted: Wanted, api: R.Api, failure: Failure)
    returns (after: R.State, r: Step)
    requires failure != NoFailure
    ensures r.complete ==> api.read && Corresponds(Databases, R.View(s.store), site, wanted)
    ensures r.complete ==> after == s && r.failure == NoFailure
    ensures r.failure == NoFailure || r.failure == failure
    ensures api.read && Corresponds(Databases, R.View(s.store), site, wanted) ==> r.complete
  {
    hide Corresponds, OfSite, DiffOf, R.View, R.DeleteAll, R.CreateAll, R.UpdateAll;
    var view := R.View(s.store);
    var handler := new R.RedisTaskHandler(counts, s);
    var listing := Walk(OfSite(view, site));
    assert forall n | n in listing :: n in view;
    var d := DiffOf(Databases, view, wanted, listing);
    UpdatesAreWanted(Databases, view, wanted, listing);
    CompleteExactly(Databases, view, site, wanted, listing);
    var toDelete := Walk(d.delete.Keys);
    var toCreate := Walk(d.create.Keys);
    var toUpdate := Walk(d.update.Keys);
    var orders := Orders(toDelete, toCreate, toUpdate);
    var complete, failed := handler.EnsureDatabasesAreCreated(site, wanted, listing, orders, api);
    after := handler.Value();
    r := Step(complete, if failed then failure else NoFailure);
    if IsComplete(Databases, d) {
      EmptyOrder(toDelete, d.delete.Keys);
      EmptyOrder(toCreate, d.create.Keys);
      EmptyOrder(toUpdate, d.update.Keys);
      RedisCompletePass(s, counts, site, wanted, d, orders, api);
    }
  }

  lemma RedisCompletePass(s: R.State, counts: R.Counts, site: string, wanted: Wanted, d: Diff, o: Orders, api: R.Api)
    requires R.Fits(d, wanted, o) && IsComplete(Databases, d) && o == Orders([], [], [])
    ensures var r := R.EnsureCreated(s, counts, site, wanted, d, o, api);
            r.s == s && r.complete == api.read && r.failed == !api.read
  {
  }

  /** A failed object ends the pass for good, an unfinished one for now. */
  method RunReady(kind: Kind, store: Store, site: string, read: bool) returns (r: Step)
    ensures r.complete <==> read && AllComplete(store, site)
    ensures r.complete ==> r.failure == NoFailure
    ensures r.failure == Transient <==> !read
    ensures r.failure == Final <==> read && exists n :: n in OfSite(store, site) && store[n].state == Failed
  {
    if !read {
      return Step(false, Transient);
    }
    var handler := new TaskHandler(kind, store);
    var listing := Walk(OfSite(store, site));
    var ready := handler.EnsureDatabasesAreReady(listing);
    match ready
    case SomeFailed => r := Step(false, Final);
    case Ready => r := Step(true, NoFailure);
    case NotReady => r := Step(false, NoFailure);
  }

  // The pipeline

  /** How the calls of one pass end: per handler, and for the three handlers of other objects as a whole.
      `redisFailure` is the kind of error that the Redis handler reports when it fails. */
  datatype Api = Api(
    mysql: TaskDiff.Api, mongo: TaskDiff.Api, redis: R.Api, redisFailure: Failure,
    mysqlReady: bool, mongoReady: bool, redisReady: bool,
    configs: Failure,
    init: TaskDiff.Api, initReady: bool,
    migrations: TaskDiff.Api, migrationsReady: bool,
    workloads: Failure, healthChanged: bool, networking: Failure,
    delete: Call, backup: Call, save: Call)

  ghost predicate NothingFails(api: Api) {
    && ErrorFree(api.mysql) && ErrorFree(api.mongo) && api.redis.read
    && api.mysqlReady && api.mongoReady && api.redisReady
    && api.configs == NoFailure
    && ErrorFree(api.init) && api.initReady && ErrorFree(api.migrations) && api.migrationsReady
  }

  /** How far a pass got: which handlers were called. */
  datatype Reached = Reached(configs: bool, init: bool, migrations: bool, workloads: bool, networking: bool)

  datatype Progress = Progress(databasesCreated: bool, databasesInitialised: bool, migrated: bool, configsCreated: bool,
                               networkingCreated: bool, workloadsCreated: bool) {
    predicate IsAll() {
      databasesCreated && databasesInitialised && migrated && configsCreated && networkingCreated && workloadsCreated
    }
  }

  /** The part of the site's status that these stages read and write. */
  datatype Status = Status(state: SiteState, progress: Progress, next: Option<int>)

  /** `stored` is the status in the store; `state`, `progress` and `next` are the copy that a pass works on. */
  class StagingSiteReconciler {
    const md5: string -> string
    const fnv: string -> nat
    const site: Site
    const counts: R.Counts
    var stored: Status
    var deleting: bool
    var state: SiteState
    var progress: Progress
    var next: Option<int>
    var mysql: Store
    var mongo: Store
    var redis: R.State
    var init: Store
    var migrations: Store

    constructor (md5: string -> string, fnv: string -> nat, site: Site, counts: R.Counts, status: Status, c: Cluster)
      ensures this.md5 == md5 && this.fnv == fnv && this.site == site && this.counts == counts
      ensures stored == status && !deleting && Value() == c
    {
      this.md5 := md5;
      this.fnv := fnv;
      this.site := site;
      this.counts := counts;
      stored := status;
      deleting := false;
      state := status.state;
      progress := status.progress;
      next := status.next;
      mysql := c.mysql;
      mongo := c.mongo;
      redis := R.State(c.redis, map[]);
      init := c.init;
      migrations := c.migrations;
    }

    ghost function Value(): Cluster
      reads this
    {
      Cluster(mysql, mongo, redis.store, init, migrations)
    }

    /** A missing config fails the read. */
    static function WithConfigs(api: TaskDiff.Api, exist: bool): TaskDiff.Api {
      api.(read := api.read && exist)
    }

    /** `complete` covers the handlers before the failing one. */
    method CreateDatabases(api: Api) returns (r: Step)
      requires IsDigest(md5) && api.redisFailure != NoFailure
      modifies this`mysql, this`mongo, this`redis
      ensures r == Step(true, NoFailure) ==>
          DatabasesAreCreated(md5, site, old(Value())) && Value() == old(Value())
          && redis == old(redis)
      ensures NothingFails(api) && site.ConfigsExist() && DatabasesAreCreated(md5, site, old(Value()))
          ==> r == Step(true, NoFailure)
    {
      hide WantedDatabases, Corresponds, AllMatch, R.View, SameStates;
      var stored, step := RunHandler(Databases, mysql, site.name, WantedDatabases(md5, site, Mysql),
          WithConfigs(api.mysql, site.ConfigsExistFor(Mysql)));
      mysql := stored;
      if step.failure != NoFailure {
        return Step(true, step.failure);
      }
      var complete := step.complete;
      stored, step := RunHandler(Databases, mongo, site.name, WantedDatabases(md5, site, Mongo),
          WithConfigs(api.mongo, site.ConfigsExistFor(Mongo)));
      mongo := stored;
      if step.failure != NoFailure {
        return Step(complete, step.failure);
      }
      complete := complete && step.complete;
      var reserved: R.State;
      reserved, step := RunRedis(redis, counts, site.name, WantedDatabases(md5, site, RedisEngine),
                                 api.redis.(read := api.redis.read && site.ConfigsExistFor(RedisEngine)),
                                     api.redisFailure);
      redis := reserved;
      r := Step(if step.failure == NoFailure then complete && step.complete else complete, step.failure);
    }

    method CheckDatabases(api: Api) returns (r: Step)
      ensures r == Step(true, NoFailure) ==> DatabasesAreReady(site, Value())
      ensures NothingFails(api) && DatabasesAreReady(site, Value()) ==> r == Step(true, NoFailure)
    {
      hide AllComplete, R.View, ErrorFree;
      r := RunReady(Databases, mysql, site.name, api.mysqlReady);
      if r.failure != NoFailure {
        return Step(true, r.failure);
      }
      var complete := r.complete;
      r := RunReady(Databases, mongo, site.name, api.mongoReady);
      if r.failure != NoFailure {
        return Step(complete, r.failure);
      }
      complete := complete && r.complete;
      r := RunReady(Databases, R.View(redis.store), site.name, api.redisReady);
      r := Step(if r.failure == NoFailure then complete && r.complete else complete, r.failure);
    }

    method RunDatabases(api: Api) returns (created: Step, ready: Step)
      requires IsDigest(md5) && api.redisFailure != NoFailure
      modifies this`mysql, this`mongo, this`redis
      ensures created == Step(true, NoFailure) && ready == Step(true, NoFailure) ==>
                DatabasesAreCreated(md5, site, old(Value())) && DatabasesAreReady(site, old(Value()))
                    && Value() == old(Value()) && redis == old(redis)
      ensures NothingFails(api) && site.ConfigsExist()
          && DatabasesAreCreated(md5, site, old(Value())) && DatabasesAreReady(site, old(Value()))
          ==> created == Step(true, NoFailure) && ready == Step(true, NoFailure)
    {
      hide DatabasesAreCreated, DatabasesAreReady, NothingFails;
      ready := Step(true, NoFailure);
      created := CreateDatabases(api);
      if created.failure == NoFailure {
        ready := CheckDatabases(api);
      }
    }

    /** The initialisation is marked complete on the way. */
    method EnsureDatabasesAreCreated(api: Api) returns (changed: bool, failure: Failure)
      requires IsDigest(md5) && api.redisFailure != NoFailure
      modifies this`mysql, this`mongo, this`redis, this`progress
      ensures failure == NoFailure && progress.databasesCreated ==>
                DatabasesAreCreated(md5, site, old(Value())) && DatabasesAreReady(site, old(Value()))
                    && Value() == old(Value()) && redis == old(redis)
      ensures NothingFails(api) && site.ConfigsExist()
          && DatabasesAreCreated(md5, site, old(Value())) && DatabasesAreReady(site, old(Value()))
          ==> failure == NoFailure && progress.databasesCreated
      ensures progress == old(progress).(databasesCreated := progress.databasesCreated,
          databasesInitialised := progress.databasesInitialised)
      ensures failure == NoFailure ==>
          progress.databasesInitialised
          && changed == (progress.databasesCreated != old(progress).databasesCreated)
    {
      hide DatabasesAreCreated, DatabasesAreReady, NothingFails;
      var original := progress.databasesCreated;
      var created, ready := RunDatabases(api);
      progress := progress.(databasesCreated := created.complete && ready.complete);
      if created.failure != NoFailure {
        return false, created.failure;
      }
      progress := progress.(databasesInitialised := true);
      if ready.failure != NoFailure {
        return false, ready.failure;
      }
      changed, failure := original != progress.databasesCreated, NoFailure;
    }

    method RunInitJobs(api: Api) returns (created: bool, r: Step)
      requires IsDigest(md5)
      modifies this`init
      ensures created && r == Step(true, NoFailure) ==> InitIsDone(md5, site, old(Value())) && init == old(init)
      ensures NothingFails(api) && site.ConfigsExist() && InitIsDone(md5, site, old(Value()))
          ==> created && r == Step(true, NoFailure)
    {
      hide Corresponds, AllComplete, AllMatch, SameStates, WantedInitJobs, ErrorFree;
      var stored, step := RunHandler(InitJobs, init, site.name, WantedInitJobs(md5, site),
          WithConfigs(api.init, site.ConfigsExistForDatabases()));
      init := stored;
      if step.failure != NoFailure {
        return true, step;
      }
      created := step.complete;
      r := RunReady(InitJobs, init, site.name, api.initReady);
    }

    /** The stage before has already marked the initialisation complete: a change is reported exactly
        while it is not. */
    method EnsureDatabasesAreInitialised(api: Api) returns (changed: bool, failure: Failure)
      requires IsDigest(md5)
      modifies this`init, this`progress
      ensures failure == NoFailure && progress.databasesInitialised
          ==> InitIsDone(md5, site, old(Value())) && init == old(init)
      ensures NothingFails(api) && site.ConfigsExist() && InitIsDone(md5, site, old(Value()))
          ==> failure == NoFailure && progress.databasesInitialised
      ensures progress == old(progress).(databasesInitialised := progress.databasesInitialised)
      ensures failure == NoFailure && old(progress).databasesInitialised ==> changed == !progress.databasesInitialised
    {
      hide InitIsDone, NothingFails;
      var original := progress.databasesInitialised;
      var created, ready := RunInitJobs(api);
      progress := progress.(databasesInitialised := created);
      if ready.failure != NoFailure {
        return false, ready.failure;
      }
      progress := progress.(databasesInitialised := created && ready.complete);
      changed, failure := original != progress.databasesInitialised, NoFailure;
    }

    method RunMigrationJobs(api: Api) returns (created: bool, r: Step)
      requires IsDigest(md5)
      modifies this`migrations
      ensures created && r == Step(true, NoFailure) ==>
          MigrationsAreDone(md5, site, old(Value()))
          && OnlyRetags(md5, site, old(Value()), Value())
      ensures NothingFails(api) && site.ConfigsExist() && MigrationsAreDone(md5, site, old(Value()))
          ==> created && r == Step(true, NoFailure)
    {
      hide Corresponds, AllComplete, AllMatch, SameStates, WantedMigrationJobs, ErrorFree;
      var exist := site.enabled ==> site.ConfigsExistForDatabases();
      var stored, step := RunHandler(MigrationJobs, migrations, site.name, WantedMigrationJobs(md5, site),
          WithConfigs(api.migrations, exist));
      if step.complete && step.failure == NoFailure {
        StatesDecideCompleteness(migrations, stored, site.name);
      }
      migrations := stored;
      if step.failure != NoFailure {
        return true, step;
      }
      created := step.complete;
      r := RunReady(MigrationJobs, migrations, site.name, api.migrationsReady);
    }

    method EnsureDatabaseMigrationJobsAreCreated(api: Api) returns (changed: bool, failure: Failure)
      requires IsDigest(md5)
      modifies this`migrations, this`progress
      ensures failure == NoFailure && progress.migrated
          ==> MigrationsAreDone(md5, site, old(Value())) && OnlyRetags(md5, site, old(Value()), Value())
      ensures NothingFails(api) && site.ConfigsExist() && MigrationsAreDone(md5, site, old(Value()))
          ==> failure == NoFailure && progress.migrated
      ensures progress == old(progress).(migrated := progress.migrated)
      ensures failure == NoFailure ==> changed == (progress.migrated != old(progress).migrated)
    {
      hide MigrationsAreDone, OnlyRetags, NothingFails;
      var original := progress.migrated;
      var created, ready := RunMigrationJobs(api);
      progress := progress.(migrated := created);
      if ready.failure != NoFailure {
        return false, ready.failure;
      }
      progress := progress.(migrated := created && ready.complete);
      changed, failure := original != progress.migrated, NoFailure;
    }

    /** A final error fails the site; otherwise it is complete exactly when all stages are.  The status is
        stored if something has changed. */
    method SaveStatusUpdatesIfObjectChanged(changed: bool, failure: Failure, save: Call)
      modifies this`state, this`stored
      ensures state == if failure == Final || old(state) == StateFailed then StateFailed
          else if progress.IsAll() then StateComplete else StatePending
      ensures stored == if (changed || failure == Final) && save != Rejected then Status(state, progress, next)
          else old(stored)
    {
      if failure == Final {
        state := StateFailed;
      }
      if state != StateFailed {
        state := if progress.IsAll() then StateComplete else StatePending;
      }
      if (changed || failure == Final) && save != Rejected {
        stored := Status(state, progress, next);
      }
    }

    /** Init jobs, then migration jobs. */
    method JobStages(api: Api) returns (changed: bool, initDone: bool, failure: Failure)
      requires IsDigest(md5)
      modifies this`init, this`migrations, this`progress
      ensures failure == NoFailure && initDone && progress.migrated ==>
                InitIsDone(md5, site, old(Value())) && MigrationsAreDone(md5, site, old(Value()))
                    && OnlyRetags(md5, site, old(Value()), Value())
      ensures NothingFails(api) && site.ConfigsExist()
          && InitIsDone(md5, site, old(Value())) && MigrationsAreDone(md5, site, old(Value()))
          ==> failure == NoFailure && initDone && progress.migrated
      ensures progress == old(progress).(databasesInitialised := progress.databasesInitialised,
          migrated := progress.migrated)
      ensures failure == NoFailure ==> initDone == progress.databasesInitialised
    {
      hide InitIsDone, MigrationsAreDone, NothingFails;
      ghost var before := Value();
      changed, failure := EnsureDatabasesAreInitialised(api);
      initDone := failure == NoFailure && progress.databasesInitialised;
      changed := failure == NoFailure && changed;
      if !initDone {
        return;
      }
      assert init == before.init;
      var stageChanged: bool;
      stageChanged, failure := EnsureDatabaseMigrationJobsAreCreated(api);
      changed := changed || (failure == NoFailure && stageChanged);
    }

    method Stages(api: Api) returns (reached: Reached, failure: Failure, changed: bool)
      requires IsDigest(md5) && api.redisFailure != NoFailure
      modifies this`mysql, this`mongo, this`redis, this`init, this`migrations, this`progress
      ensures reached.workloads ==>
          GateIsOpen(md5, site, old(Value())) && OnlyRetags(md5, site, old(Value()), Value())
          && api.configs == NoFailure
      ensures NothingFails(api) && site.ConfigsExist() ==> (reached.workloads <==> GateIsOpen(md5, site, old(Value())))
      ensures reached.networking <==> reached.workloads && api.workloads == NoFailure
      ensures reached.workloads ==> reached.configs && reached.init && reached.migrations
      ensures failure == NoFailure && (progress.IsAll() || reached.networking)
          ==> reached.networking && progress.IsAll()
      ensures failure == NoFailure && reached.networking ==> api.networking == NoFailure
      ensures reached.networking && api.networking == NoFailure ==> failure == NoFailure
    {
      hide DatabasesAreCreated, DatabasesAreReady, InitIsDone, MigrationsAreDone, OnlyRetags, ErrorFree;
      reached := Reached(false, false, false, false, false);
      ghost var before := Value();
      changed, failure := EnsureDatabasesAreCreated(api);
      if failure != NoFailure {
        return;
      }
      reached := reached.(configs := true);
      if api.configs != NoFailure {
        failure := api.configs;
        return;
      }
      changed := changed || !progress.configsCreated;
      progress := progress.(configsCreated := true);
      if !progress.databasesCreated {
        return;
      }
      var stageChanged, initDone: bool;
      stageChanged, initDone, failure := JobStages(api);
      reached := reached.(init := true, migrations := initDone);
      changed := changed || stageChanged;
      if failure != NoFailure || !initDone || !progress.migrated {
        return;
      }
      reached := reached.(workloads := true, networking := api.workloads == NoFailure);
      failure, stageChanged := LastStages(api);
      changed := changed || stageChanged;
    }

    method LastStages(api: Api) returns (failure: Failure, changed: bool)
      modifies this`progress
      ensures failure == if api.workloads != NoFailure then api.workloads else api.networking
      ensures progress == old(progress).(workloadsCreated := progress.workloadsCreated,
          networkingCreated := progress.networkingCreated)
      ensures failure == NoFailure ==> progress.workloadsCreated && progress.networkingCreated
    {
      changed := false;
      if api.workloads != NoFailure {
        return api.workloads, false;
      }
      changed := !progress.workloadsCreated || api.healthChanged;
      progress := progress.(workloadsCreated := true);
      if api.networking != NoFailure {
        return api.networking, changed;
      }
      changed := changed || !progress.networkingCreated;
      progress := progress.(networkingCreated := true);
      failure := NoFailure;
    }

    /** The end of a pass that got through all stages. */
    method Finish(now: int, create: Call, changed: bool) returns (backedUp: bool, failure: Failure, stillChanged: bool)
      modifies this`state, this`next
      ensures state == StateComplete
      ensures Next(next, failure != NoFailure) == HandleBackup(fnv, site.name, site.spec.backupHour, old(next), now,
          create)
      ensures failure != Final && (backedUp <==> IsDue(old(next), now) && create != Rejected)
      ensures stillChanged || (state == old(state) && next == old(next) && !changed)
      ensures changed ==> stillChanged
    {
      stillChanged, backedUp, failure := changed, false, NoFailure;
      if state != StateComplete {
        state := StateComplete;
        stillChanged := true;
      }
      if next != None && next.value < now {
        backedUp := create != Rejected;
        if create != Ok {
          failure := Transient;
          return;
        }
        var later := GetNextBackupTimeForSite(fnv, site.name, site.spec.backupHour, now);
        next := later.time;
        failure := if later.failed then Transient else NoFailure;
        stillChanged := true;
      }
    }

    predicate IsExpired(now: int) { site.deleteAt.Some? && site.deleteAt.value < now }

    /** The pass, after the status pass has found nothing to change. */
    method DoReconcile(now: int, api: Api) returns (reached: Reached, failure: Failure, backedUp: bool)
      requires IsDigest(md5) && api.redisFailure != NoFailure
      modifies this
      ensures site.deleteAt.Some? && site.deleteAt.value < now ==>
                && reached == Reached(false, false, false, false, false) && !backedUp && Value() == old(Value())
                    && stored == old(stored)
                && (deleting <==> old(deleting) || api.delete != Rejected)
      ensures !(site.deleteAt.Some? && site.deleteAt.value < now) ==> deleting == old(deleting)
      ensures reached.workloads ==>
          GateIsOpen(md5, site, old(Value())) && OnlyRetags(md5, site, old(Value()), Value())
          && api.configs == NoFailure
      ensures NothingFails(api) && site.ConfigsExist() && !IsExpired(now)
          ==> (reached.workloads <==> GateIsOpen(md5, site, old(Value())))
      ensures reached.networking <==> reached.workloads && api.workloads == NoFailure
      ensures backedUp <==>
          reached.networking && api.networking == NoFailure
          && old(stored).next.Some? && old(stored).next.value < now && api.backup != Rejected
      ensures stored.next == if reached.networking && api.networking == NoFailure
          then Attempt(fnv, site.name, site.spec.backupHour, old(stored).next, now, api.backup, api.save)
          else old(stored).next
      ensures api.save == Rejected ==> stored == old(stored)
      ensures failure == Final && api.save != Rejected ==> stored.state == StateFailed
      ensures !IsExpired(now) && failure == NoFailure && api.save == Ok ==>
                (reached.networking ==> stored.state == StateComplete
                                        && stored.next == HandleBackup(fnv, site.name, site.spec.backupHour,
                                            old(stored).next, now, api.backup).time)
      ensures failure == NoFailure && stored != old(stored) && stored.state == StateComplete ==> reached.networking
    {
      hide GateIsOpen, OnlyRetags, NothingFails, HandleBackup;
      state, progress, next := stored.state, stored.progress, stored.next;
      reached, failure, backedUp := Reached(false, false, false, false, false), NoFailure, false;
      if state == StateFailed {
        state := StatePending;
      }
      if site.deleteAt.Some? && site.deleteAt.value < now {
        deleting := deleting || api.delete != Rejected;
        failure := if api.delete == Ok then NoFailure else Transient;
        return;
      }
      var changed: bool;
      reached, failure, changed := Stages(api);
      if reached.networking && failure == NoFailure {
        backedUp, failure, changed := Finish(now, api.backup, changed);
      }
      SaveStatusUpdatesIfObjectChanged(changed, failure, api.save);
    }
  }

  /** All that has to hold before workloads are touched. */
  ghost predicate GateIsOpen(md5: string -> string, site: Site, c: Cluster)
    requires IsDigest(md5)
  {
    && DatabasesAreCreated(md5, site, c) && DatabasesAreReady(site, c)
    && InitIsDone(md5, site, c) && MigrationsAreDone(md5, site, c)
  }

  /** Nothing changes but the tags of migration jobs, which are the wanted ones afterwards. */
  ghost predicate OnlyRetags(md5: string -> string, site: Site, c: Cluster, c': Cluster)
    requires IsDigest(md5)
  {
    && c' == c.(migrations := c'.migrations) && SameStates(c.migrations, c'.migrations)
    && AllMatch(MigrationJobs, c'.migrations, site.name, WantedMigrationJobs(md5, site))
  }

  lemma StatesDecideCompleteness(before: Store, after: Store, site: string)
    requires SameStates(before, after)
    ensures AllComplete(before, site) <==> AllComplete(after, site)
  {
    assert OfSite(before, site) == OfSite(after, site);
  }

  /** Whether the gate is open does not depend on the tags of the migration jobs: a pass that retags a
      complete job goes on to the workloads although the new tag has not been migrated. */
  lemma GateIgnoresTags(md5: string -> string, site: Site, c: Cluster, migrations: Store)
    requires IsDigest(md5) && SameStates(c.migrations, migrations)
    ensures GateIsOpen(md5, site, c) <==> GateIsOpen(md5, site, c.(migrations := migrations))
  {
    var wanted := WantedMigrationJobs(md5, site);
    StatesDecideCompleteness(c.migrations, migrations, site.name);
    hide WantedMigrationJobs, DatabasesAreCreated, DatabasesAreReady, AllComplete;
    assert OfSite(c.migrations, site.name) == OfSite(migrations, site.name);
    assert Corresponds(MigrationJobs, c.migrations, site.name, wanted)
        <==> Corresponds(MigrationJobs, migrations, site.name, wanted) by {
      assert forall n | n in c.migrations :: migrations[n].service == c.migrations[n].service;
    }
    var c' := c.(migrations := migrations);
    assert DatabasesAreCreated(md5, site, c) == DatabasesAreCreated(md5, site,
        c') by { SameDatabases(md5, site, c, c'); }
    assert DatabasesAreReady(site, c) == DatabasesAreReady(site, c') by { SameDatabases(md5, site, c, c'); }
  }

  lemma SameDatabases(md5: string -> string, site: Site, c: Cluster, c': Cluster)
    requires IsDigest(md5) && c' == c.(migrations := c'.migrations)
    ensures DatabasesAreCreated(md5, site, c) == DatabasesAreCreated(md5, site, c')
    ensures DatabasesAreReady(site, c) == DatabasesAreReady(site, c')
  {
    hide Corresponds, AllComplete, WantedDatabases;
  }
}
