/** The gate before the workloads (`controllers/site/stagingsite_controller.go:141-209, 591-668`) in the
    fields of the site spec and the records of the store, and what the handlers behind it make. */
module GateRecords {
  import opened Iteration
  import opened Jobs
  import opened Names
  import opened Apis
  import opened TaskDiff
  import opened TaskConvergence
  import opened TaskOutcomes
  import opened SiteGating
  import R = Redis

  // Corresponding lists, record by record

  /** The record of this name is the one and only of the service, with this content, and Complete. */
  ghost predicate IsCompleteAs(store: Store, site: string, s: string, name: string, content: seq<string>) {
    IsTheRecord(store, site, s, name) && store[name].content == content && store[name].state == Complete
  }

  /** Exactly one record of the site is for the service, and it is Complete. */
  ghost predicate HasOneComplete(store: Store, site: string, s: string) {
    exists n :: IsTheRecord(store, site, s, n) && store[n].state == Complete
  }

  ghost predicate DatabaseAt(store: Store, site: string, wanted: Wanted, s: string) {
    if s in wanted then IsCompleteAs(store, site, s, wanted[s].name, wanted[s].content)
    else HasNoRecord(store, site, s)
  }

  ghost predicate JobAt(store: Store, site: string, wanted: Wanted, s: string) {
    if s in wanted then HasOneComplete(store, site, s) else HasNoRecord(store, site, s)
  }

  lemma DatabasesByRecord(store: Store, site: string, wanted: Wanted)
    ensures Corresponds(Databases, store, site, wanted) && AllComplete(store, site) <==>
            forall s :: DatabaseAt(store, site, wanted, s)
  {
    if Corresponds(Databases, store, site, wanted) && AllComplete(store, site) {
      forall s ensures DatabaseAt(store, site, wanted, s) {
        RecordIsThere(Databases, store, site, wanted, s);
      }
    }
    if forall s :: DatabaseAt(store, site, wanted, s) {
      forall s | s !in wanted ensures HasNoRecord(store, site, s) {
        assert DatabaseAt(store, site, wanted, s);
      }
      EveryRecordIsWanted(store, site, wanted);
      forall n | n in OfSite(store, site)
        ensures store[n].state == Complete && n == wanted[store[n].service].name
            && store[n].content == wanted[store[n].service].content
      {
        assert DatabaseAt(store, site, wanted, store[n].service);
      }
      forall s | s in wanted ensures exists n :: n in OfSite(store, site) && store[n].service == s {
        assert DatabaseAt(store, site, wanted, s);
        assert wanted[s].name in OfSite(store, site);
      }
    }
  }

  lemma RecordIsThere(kind: Kind, store: Store, site: string, wanted: Wanted, s: string)
    requires Corresponds(kind, store, site, wanted) && AllComplete(store, site)
    ensures s !in wanted ==> HasNoRecord(store, site, s)
    ensures s in wanted ==> exists n :: IsTheRecord(store, site, s, n) && store[n].state == Complete
    ensures s in wanted && kind == Databases ==>
              IsCompleteAs(store, site, s, wanted[s].name, wanted[s].content)
  {
    assert forall n | n in store && store[n].site == site :: n in OfSite(store, site);
    if s in wanted {
      var n :| n in OfSite(store, site) && store[n].service == s;
      assert IsTheRecord(store, site, s, n);
    }
  }

  lemma EveryRecordIsWanted(store: Store, site: string, wanted: Wanted)
    requires forall s | s !in wanted :: HasNoRecord(store, site, s)
    ensures forall n | n in OfSite(store, site) :: store[n].service in wanted
  {
    forall n | n in OfSite(store, site) ensures store[n].service in wanted {
      assert !HasNoRecord(store, site, store[n].service);
    }
  }

  lemma JobsByRecord(kind: Kind, store: Store, site: string, wanted: Wanted)
    requires kind != Databases
    ensures IsDone(kind, store, site, wanted) <==> forall s :: JobAt(store, site, wanted, s)
  {
    if IsDone(kind, store, site, wanted) {
      forall s ensures JobAt(store, site, wanted, s) {
        RecordIsThere(kind, store, site, wanted, s);
      }
    }
    if forall s :: JobAt(store, site, wanted, s) {
      forall s ensures s in wanted ==> HasOneComplete(store, site, s)
        ensures s !in wanted ==> HasNoRecord(store, site, s)
      {
        assert JobAt(store, site, wanted, s);
      }
      EveryRecordIsWanted(store, site, wanted);
      RecordsMakeDone(kind, store, site, wanted);
    }
  }

  lemma RecordsMakeDone(kind: Kind, store: Store, site: string, wanted: Wanted)
    requires kind != Databases && forall n | n in OfSite(store, site) :: store[n].service in wanted
    requires forall s | s in wanted :: HasOneComplete(store, site, s)
    ensures IsDone(kind, store, site, wanted)
  {
    forall n | n in OfSite(store, site) ensures store[n].state == Complete {
      assert HasOneComplete(store, site, store[n].service);
    }
    forall a, b | a in OfSite(store, site) && b in OfSite(store, site) && store[a].service == store[b].service
      ensures a == b
    {
      assert HasOneComplete(store, site, store[a].service);
    }
    forall s | s in wanted ensures exists n :: n in OfSite(store, site) && store[n].service == s {
      var n :| IsTheRecord(store, site, s, n) && store[n].state == Complete;
      assert n in OfSite(store, site);
    }
  }

  // The gate, in the fields of the spec

  /** The database tasks of one engine, for a service that names this environment. */
  ghost predicate DatabaseIsRight(md5: string -> string, site: Site, store: Store, s: string, environment: string)
    requires IsDigest(md5)
  {
    if environment == "" then HasNoRecord(store, site.name, s)
    else
      && s in site.configs
      && var shortName := site.configs[s].shortName;
         IsCompleteAs(store, site.name, s, RecordName(md5, site.name, shortName),
           [environment, MakeDatabaseName(md5, site.spec.dbName, shortName),
            MakeUsername(md5, site.spec.username, shortName), site.spec.password])
  }

  ghost predicate HasNoReservation(r: R.Reservations, site: string, s: string) {
    forall n | n in r && r[n].site == site :: r[n].service != s
  }

  /** The Redis task of a service that names this environment. */
  ghost predicate RedisIsRight(md5: string -> string, site: Site, r: R.Reservations, s: string, environment: string)
    requires IsDigest(md5)
  {
    if environment == "" then HasNoReservation(r, site.name, s)
    else
      && s in site.configs
      && var name := RecordName(md5, site.name, site.configs[s].shortName);
         && name in r && r[name].site == site.name && r[name].service == s && r[name].environment == environment
         && r[name].state == Complete
         && forall n | n in r && r[n].site == site.name && r[n].service == s :: n == name
  }

  /** The service needs a database to be initialised, or migrated. */
  ghost predicate HasSql(site: Site, s: string) {
    && s in site.spec.services
    && (site.spec.services[s].mysqlEnvironment != "" || site.spec.services[s].mongoEnvironment != "")
  }

  ghost predicate InitIsRight(site: Site, store: Store, s: string) {
    if HasSql(site, s) && s in site.configs && site.configs[s].dbInit.Some? then HasOneComplete(store, site.name, s)
    else HasNoRecord(store, site.name, s)
  }

  ghost predicate MigrationIsRight(site: Site, store: Store, s: string) {
    if site.enabled && HasSql(site, s) && s in site.configs && site.configs[s].migration.Some?
    then HasOneComplete(store, site.name, s)
    else HasNoRecord(store, site.name, s)
  }

  /** Everything the gate asks for, service by service; a name that is no service of the spec is one
      without environments. */
  ghost predicate RecordsAreRight(md5: string -> string, site: Site, c: Cluster, s: string)
    requires IsDigest(md5)
  {
    var service := if s in site.spec.services then site.spec.services[s] else SiteService("", "", "", "", "", map[]);
    && DatabaseIsRight(md5, site, c.mysql, s, service.mysqlEnvironment)
    && DatabaseIsRight(md5, site, c.mongo, s, service.mongoEnvironment)
    && RedisIsRight(md5, site, c.redis, s, service.redisEnvironment)
    && InitIsRight(site, c.init, s) && MigrationIsRight(site, c.migrations, s)
  }

  ghost predicate EngineIsRight(md5: string -> string, site: Site, store: Store, engine: Engine, s: string)
    requires IsDigest(md5)
  {
    match engine
    case Mysql => DatabaseIsRight(md5, site, store, s,
        if s in site.spec.services then site.spec.services[s].mysqlEnvironment else "")
    case Mongo => DatabaseIsRight(md5, site, store, s,
        if s in site.spec.services then site.spec.services[s].mongoEnvironment else "")
    case RedisEngine => true
  }

  lemma EngineAt(md5: string -> string, site: Site, store: Store, engine: Engine, s: string)
    requires IsDigest(md5) && engine != RedisEngine
    ensures var wanted := WantedDatabases(md5, site, engine);
            EngineIsRight(md5, site, store, engine, s) <==>
              DatabaseAt(store, site.name, wanted, s) && (s in wanted ==> s in site.configs)
  {
    hide IsCompleteAs, HasNoRecord, RecordName, MakeDatabaseName, MakeUsername;
  }

  lemma ConfigsOfWanted(md5: string -> string, site: Site, engine: Engine)
    requires IsDigest(md5)
    ensures site.ConfigsExistFor(engine) <==> forall s | s in WantedDatabases(md5, site, engine) :: s in site.configs
  {
    hide RecordName, MakeDatabaseName, MakeUsername;
    assert forall s :: s in WantedDatabases(md5, site, engine) <==> s in site.spec.services && site.Uses(s, engine);
  }

  lemma EngineByRecord(md5: string -> string, site: Site, store: Store, engine: Engine)
    requires IsDigest(md5) && engine != RedisEngine
    ensures site.ConfigsExistFor(engine) && Corresponds(Databases, store, site.name, WantedDatabases(md5, site, engine))
            && AllComplete(store, site.name)
            <==> forall s :: EngineIsRight(md5, site, store, engine, s)
  {
    hide WantedDatabases, EngineIsRight, DatabaseAt, Corresponds, AllComplete;
    DatabasesByRecord(store, site.name, WantedDatabases(md5, site, engine));
    ConfigsOfWanted(md5, site, engine);
    forall s ensures EngineIsRight(md5, site, store, engine, s) <==>
                && DatabaseAt(store, site.name, WantedDatabases(md5, site, engine), s)
                && (s in WantedDatabases(md5, site, engine) ==> s in site.configs)
    {
      EngineAt(md5, site, store, engine, s);
    }
  }

  ghost predicate RedisAt(md5: string -> string, site: Site, r: R.Reservations, s: string)
    requires IsDigest(md5)
  {
    RedisIsRight(md5, site, r, s, if s in site.spec.services then site.spec.services[s].redisEnvironment else "")
  }

  lemma ViewOf(r: R.Reservations, site: string, s: string, name: string, environment: string)
    ensures HasNoRecord(R.View(r), site, s) <==> HasNoReservation(r, site, s)
    ensures IsCompleteAs(R.View(r), site, s, name, [environment]) <==>
              && name in r && r[name].site == site && r[name].service == s && r[name].environment == environment
              && r[name].state == Complete
              && forall n | n in r && r[n].site == site && r[n].service == s :: n == name
  {
    var view := R.View(r);
    assert forall n :: n in view <==> n in r;
    assert forall n | n in r :: view[n].site == r[n].site && view[n].service == r[n].service;
  }

  lemma RedisAtOne(md5: string -> string, site: Site, r: R.Reservations, s: string)
    requires IsDigest(md5)
    ensures var wanted := WantedDatabases(md5, site, RedisEngine);
            RedisAt(md5, site, r, s) <==>
              DatabaseAt(R.View(r), site.name, wanted, s) && (s in wanted ==> s in site.configs)
  {
    var wanted := WantedDatabases(md5, site, RedisEngine);
    if s in wanted {
      ViewOf(r, site.name, s, wanted[s].name, site.spec.services[s].redisEnvironment);
    } else {
      ViewOf(r, site.name, s, "", "");
    }
    hide IsCompleteAs, R.View, HasNoRecord, RecordName;
  }

  lemma RedisByRecord(md5: string -> string, site: Site, r: R.Reservations)
    requires IsDigest(md5)
    ensures site.ConfigsExistFor(RedisEngine)
            && Corresponds(Databases, R.View(r), site.name, WantedDatabases(md5, site, RedisEngine))
            && AllComplete(R.View(r), site.name)
            <==> forall s :: RedisAt(md5, site, r, s)
  {
    hide WantedDatabases, RedisAt, DatabaseAt, Corresponds, AllComplete, R.View;
    DatabasesByRecord(R.View(r), site.name, WantedDatabases(md5, site, RedisEngine));
    ConfigsOfWanted(md5, site, RedisEngine);
    forall s ensures RedisAt(md5, site, r, s) <==>
                && DatabaseAt(R.View(r), site.name, WantedDatabases(md5, site, RedisEngine), s)
                && (s in WantedDatabases(md5, site, RedisEngine) ==> s in site.configs)
    {
      RedisAtOne(md5, site, r, s);
    }
  }

  lemma InitByRecord(md5: string -> string, site: Site, c: Cluster)
    requires IsDigest(md5)
    ensures InitIsDone(md5, site, c) <==> forall s :: InitIsRight(site, c.init, s)
  {
    var wanted := WantedInitJobs(md5, site);
    JobsByRecord(InitJobs, c.init, site.name, wanted);
    hide IsDone, HasOneComplete, HasNoRecord, RecordName;
    assert forall s :: JobAt(c.init, site.name, wanted, s) <==> InitIsRight(site, c.init, s);
  }

  lemma MigrationsByRecord(md5: string -> string, site: Site, c: Cluster)
    requires IsDigest(md5)
    ensures MigrationsAreDone(md5, site, c) <==> forall s :: MigrationIsRight(site, c.migrations, s)
  {
    var wanted := WantedMigrationJobs(md5, site);
    JobsByRecord(MigrationJobs, c.migrations, site.name, wanted);
    hide IsDone, HasOneComplete, HasNoRecord, RecordName;
    assert forall s :: JobAt(c.migrations, site.name, wanted, s) <==> MigrationIsRight(site, c.migrations, s);
  }

  lemma AllEngines(site: Site)
    ensures (forall engine :: site.ConfigsExistFor(engine)) <==>
            site.ConfigsExistFor(Mysql) && site.ConfigsExistFor(Mongo) && site.ConfigsExistFor(RedisEngine)
  {
    forall engine
      ensures site.ConfigsExistFor(Mysql) && site.ConfigsExistFor(Mongo) && site.ConfigsExistFor(RedisEngine)
              ==> site.ConfigsExistFor(engine)
    {
      match engine
      case Mysql =>
      case Mongo =>
      case RedisEngine =>
    }
  }

  lemma RightByPart(md5: string -> string, site: Site, c: Cluster, s: string)
    requires IsDigest(md5)
    ensures RecordsAreRight(md5, site, c, s) <==>
              && EngineIsRight(md5, site, c.mysql, Mysql, s) && EngineIsRight(md5, site, c.mongo, Mongo, s)
              && RedisAt(md5, site, c.redis, s)
              && InitIsRight(site, c.init, s) && MigrationIsRight(site, c.migrations, s)
  {
    hide DatabaseIsRight, RedisIsRight, InitIsRight, MigrationIsRight;
  }

  /** Exactly when the gate is open, record by record: for every service and engine with an environment
      there is exactly one task of the site, under the generated name, with that environment and the
      generated names and the password, and Complete; exactly one Complete init job for every service with
      a MySQL or Mongo environment and an init pod spec; the same for migration jobs while the site is
      enabled; and no record of the site for anything else. */
  lemma GateByRecords(md5: string -> string, site: Site, c: Cluster)
    requires IsDigest(md5)
    ensures GateIsOpen(md5, site, c) <==> forall s :: RecordsAreRight(md5, site, c, s)
  {
    GateByPart(md5, site, c);
    hide GateIsOpen, RecordsAreRight, EngineIsRight, RedisAt, InitIsRight, MigrationIsRight;
    forall s ensures RecordsAreRight(md5, site, c, s) <==>
                && EngineIsRight(md5, site, c.mysql, Mysql, s) && EngineIsRight(md5, site, c.mongo, Mongo, s)
                && RedisAt(md5, site, c.redis, s)
                && InitIsRight(site, c.init, s) && MigrationIsRight(site, c.migrations, s)
    {
      RightByPart(md5, site, c, s);
    }
  }

  lemma GateByPart(md5: string -> string, site: Site, c: Cluster)
    requires IsDigest(md5)
    ensures GateIsOpen(md5, site, c) <==>
              && (forall s :: EngineIsRight(md5, site, c.mysql, Mysql, s))
              && (forall s :: EngineIsRight(md5, site, c.mongo, Mongo, s))
              && (forall s :: RedisAt(md5, site, c.redis, s))
              && (forall s :: InitIsRight(site, c.init, s)) && (forall s :: MigrationIsRight(site, c.migrations, s))
  {
    EngineByRecord(md5, site, c.mysql, Mysql);
    EngineByRecord(md5, site, c.mongo, Mongo);
    RedisByRecord(md5, site, c.redis);
    InitByRecord(md5, site, c);
    MigrationsByRecord(md5, site, c);
    AllEngines(site);
    hide Corresponds, AllComplete, EngineIsRight, RedisAt, InitIsRight, MigrationIsRight, InitIsDone,
        MigrationsAreDone, WantedDatabases, R.View;
  }

  /** After a pass that gets through the gate, the records are as it found them, and every migration job
      asks for the image tag of the spec. */
  lemma ThroughTheGate(md5: string -> string, site: Site, before: Cluster, after: Cluster, n: string)
    requires IsDigest(md5) && GateIsOpen(md5, site, before) && OnlyRetags(md5, site, before, after)
    ensures forall s :: RecordsAreRight(md5, site, before, s) && RecordsAreRight(md5, site, after, s)
    ensures n in after.migrations && after.migrations[n].site == site.name ==>
              && after.migrations[n].service in site.spec.services
              && after.migrations[n].content == [site.spec.services[after.migrations[n].service].imageTag]
  {
    GateByRecords(md5, site, before);
    GateByRecords(md5, site, after);
    GateIgnoresTags(md5, site, before, after.migrations);
    assert after == before.(migrations := after.migrations);
    if n in after.migrations && after.migrations[n].site == site.name {
      assert n in OfSite(after.migrations, site.name);
    }
    hide GateIsOpen, RecordsAreRight;
  }

  // What the handlers make

  /** The record as the handler makes it. */
  ghost predicate IsNew(store: Store, site: string, s: string, name: string, content: seq<string>) {
    name in store && store[name] == Record(site, s, content, Unset)
  }

  /** A database task that is missing is made by a pass that does not fail, with the fields of the spec. */
  lemma MissingDatabaseIsMade(md5: string -> string, site: Site, engine: Engine, store: Store, listing: seq<string>,
                              o: Orders, api: TaskDiff.Api, s: string)
    requires IsDigest(md5) && engine != RedisEngine && s in site.spec.services && s in site.configs
    requires var wanted := WantedDatabases(md5, site, engine);
             && IsPass(Databases, store, site.name, wanted, listing, o)
             && !EnsureCreated(Databases, store, site.name, wanted, listing, o, api).failed
    requires HasNoRecord(store, site.name, s)
    ensures var after := EnsureCreated(Databases, store, site.name, WantedDatabases(md5, site, engine), listing, o,
                api).store;
            var environment, shortName := if engine == Mysql then site.spec.services[s].mysqlEnvironment
                else site.spec.services[s].mongoEnvironment, site.configs[s].shortName;
            environment != "" ==>
              IsNew(after, site.name, s, RecordName(md5, site.name, shortName),
                [environment, MakeDatabaseName(md5, site.spec.dbName, shortName),
                 MakeUsername(md5, site.spec.username, shortName), site.spec.password])
  {
    hide EnsureCreated, IsPass, HasNoRecord, RecordName, MakeDatabaseName, MakeUsername;
    PassLeavesRecords(Databases, store, site.name, WantedDatabases(md5, site, engine), listing, o, api, s);
  }

  lemma MissingInitJobIsMade(md5: string -> string, site: Site, store: Store, listing: seq<string>, o: Orders,
                             api: TaskDiff.Api, s: string)
    requires IsDigest(md5) && s in site.configs && HasSql(site, s) && site.configs[s].dbInit.Some?
    requires var wanted := WantedInitJobs(md5, site);
             && IsPass(InitJobs, store, site.name, wanted, listing, o)
             && !EnsureCreated(InitJobs, store, site.name, wanted, listing, o, api).failed
    requires HasNoRecord(store, site.name, s)
    ensures var after := EnsureCreated(InitJobs, store, site.name, WantedInitJobs(md5, site), listing, o, api).store;
            var service := site.spec.services[s];
            IsNew(after, site.name, s, RecordName(md5, site.name, site.configs[s].shortName),
              [service.mysqlEnvironment, service.mongoEnvironment, service.initSource])
  {
    hide EnsureCreated, IsPass, HasNoRecord, RecordName;
    PassLeavesRecords(InitJobs, store, site.name, WantedInitJobs(md5, site), listing, o, api, s);
  }

  lemma MissingMigrationIsMade(md5: string -> string, site: Site, store: Store, listing: seq<string>, o: Orders,
                               api: TaskDiff.Api, s: string)
    requires IsDigest(md5) && site.enabled && s in site.configs && HasSql(site, s) && site.configs[s].migration.Some?
    requires var wanted := WantedMigrationJobs(md5, site);
             && IsPass(MigrationJobs, store, site.name, wanted, listing, o)
             && !EnsureCreated(MigrationJobs, store, site.name, wanted, listing, o, api).failed
    requires HasNoRecord(store, site.name, s)
    ensures var after := EnsureCreated(MigrationJobs, store, site.name, WantedMigrationJobs(md5, site), listing, o,
                api).store;
            IsNew(after, site.name, s, RecordName(md5, site.name, site.configs[s].shortName),
              [site.spec.services[s].imageTag])
  {
    hide EnsureCreated, IsPass, HasNoRecord, RecordName;
    PassLeavesRecords(MigrationJobs, store, site.name, WantedMigrationJobs(md5, site), listing, o, api, s);
  }
}
