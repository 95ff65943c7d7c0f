/** The API types the handlers read (`apis/site/v1`, `apis/config/v1`).  A pod, service or ingress
    spec is its marshalled text; a port is its decimal text. */
module Apis {
  import opened Jobs

  datatype TimeInterval = TimeInterval(never: bool, days: int, hours: int, minutes: int) {
    /** In seconds. */
    function ToDuration(): int {
      minutes * 60 + hours * 3600 + days * 24 * 3600
    }
  }

  datatype SiteState = NoState | StatePending | StateFailed | StateComplete

  datatype SiteService = SiteService(
    imageTag: string,
    mysqlEnvironment: string,
    mongoEnvironment: string,
    redisEnvironment: string,
    initSource: string,
    customValues: map<string, string>)

  /** What Go reads for a key that is not in the map. */
  const NO_SERVICE := SiteService("", "", "", "", "", map[])

  datatype SiteSpec = SiteSpec(
    domainPrefix: string,
    dbName: string,
    username: string,
    password: string,
    enabled: bool,
    disableAfter: TimeInterval,
    deleteAfter: TimeInterval,
    backupBeforeDelete: bool,
    backupHour: Option<int>,
    services: map<string, SiteService>,
    includeAllServices: bool)

  datatype Engine = Mysql | Mongo | RedisEngine

  function EnvironmentOf(service: SiteService, engine: Engine): string {
    match engine
    case Mysql => service.mysqlEnvironment
    case Mongo => service.mongoEnvironment
    case RedisEngine => service.redisEnvironment
  }

  datatype ServiceStatus = ServiceStatus(username: string, dbName: string, redisNumber: string)

  const NO_STATUS := ServiceStatus("", "", "0")

  datatype ServiceConfig = ServiceConfig(
    shortName: string,
    configMaps: map<string, map<string, string>>,
    customValues: map<string, string>,
    deployment: string,
    dbInit: Option<string>,
    migration: Option<string>,
    backup: Option<string>,
    service: Option<string>,
    ingress: Option<string>,
    defaultMysql: string,
    defaultMongo: string,
    defaultRedis: string)
  {
    function DefaultOf(engine: Engine): string {
      match engine
      case Mysql => defaultMysql
      case Mongo => defaultMongo
      case RedisEngine => defaultRedis
    }
  }

  datatype MysqlConfig = MysqlConfig(host: string, port: string)
  datatype MongoConfig = MongoConfig(host1: string, host2: string, host3: string, port: string)
  datatype RedisConfig = RedisConfig(host: string, port: string, password: string, tls: bool, databaseCount: nat)

  function Lookup<V>(m: map<string, V>, key: string, zero: V): V {
    if key in m then m[key] else zero
  }
}
