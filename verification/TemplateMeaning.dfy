/** What a template reads under each key (`handlers/template/site.go:167-304`), in the fields of the site,
    its status and the configs. */
module TemplateMeaning {
  import opened Jobs
  import opened Apis
  import opened Names
  import opened TemplateValues

  ghost predicate Reads(values: map<string, string>, key: string, value: string) {
    key in values && values[key] == value
  }

  /** The spec and the status of a service; Go reads zero values where there is none. */
  ghost function SpecOf(h: Handler, name: string): SiteService {
    if name in h.spec.services then h.spec.services[name] else SiteService("", "", "", "", "", map[])
  }

  ghost function StatusOf(h: Handler, name: string): ServiceStatus {
    if name in h.statuses then h.statuses[name] else ServiceStatus("", "", "0")
  }

  /** The environment that is named for the service, or the default of its config. */
  ghost predicate IsChosen(environment: string, named: string, default: string) {
    environment == if named != "" then named else default
  }

  // The four builders, each value under its key with a prefix

  ghost predicate ReadsCommon(h: Handler, name: string, prefix: string, values: map<string, string>) {
    && Reads(values, prefix + "database.username", StatusOf(h, name).username)
    && Reads(values, prefix + "database.name", StatusOf(h, name).dbName)
    && Reads(values, prefix + "database.password", h.spec.password)
    && Reads(values, prefix + "database.redis.database", StatusOf(h, name).redisNumber)
    && Reads(values, prefix + "database.initSource", SpecOf(h, name).initSource)
  }

  ghost predicate ReadsMysql(h: Handler, e: string, prefix: string, values: map<string, string>) {
    e != "" && e in h.mysql ==>
      && Reads(values, prefix + "database.mysql.host", h.mysql[e].host)
      && Reads(values, prefix + "database.mysql.port", h.mysql[e].port)
  }

  ghost predicate ReadsMongo(h: Handler, e: string, prefix: string, values: map<string, string>) {
    e != "" && e in h.mongo ==>
      && Reads(values, prefix + "database.mongo.host1", h.mongo[e].host1)
      && Reads(values, prefix + "database.mongo.host2", h.mongo[e].host2)
      && Reads(values, prefix + "database.mongo.host3", h.mongo[e].host3)
      && Reads(values, prefix + "database.mongo.port", h.mongo[e].port)
  }

  ghost predicate ReadsRedis(h: Handler, e: string, prefix: string, values: map<string, string>) {
    e != "" && e in h.redis ==>
      && Reads(values, prefix + "database.redis.host", h.redis[e].host)
      && Reads(values, prefix + "database.redis.port", h.redis[e].port)
      && Reads(values, prefix + "database.redis.password", h.redis[e].password)
      && Reads(values, prefix + "database.redis.scheme", if h.redis[e].tls then "tls" else "tcp")
  }

  /** All database values of a service, with the environment that is named for it or else the default. */
  ghost predicate ReadsDatabases(h: Handler, name: string, config: ServiceConfig, prefix: string,
                                 values: map<string, string>) {
    && ReadsCommon(h, name, prefix, values)
    && (forall e | IsChosen(e, SpecOf(h, name).mysqlEnvironment, config.defaultMysql) ::
          ReadsMysql(h, e, prefix, values))
    && (forall e | IsChosen(e, SpecOf(h, name).mongoEnvironment, config.defaultMongo) ::
          ReadsMongo(h, e, prefix, values))
    && (forall e | IsChosen(e, SpecOf(h, name).redisEnvironment, config.defaultRedis) ::
          ReadsRedis(h, e, prefix, values))
  }

  /** Which builder a key belongs to. */
  predicate IsMysqlKey(k: string) { |k| > 15 && k[9] == 'm' && k[10] == 'y' }

  predicate IsMongoKey(k: string) { |k| > 15 && k[9] == 'm' && k[10] == 'o' }

  predicate IsRedisKey(k: string) { |k| > 15 && k[9] == 'r' && k[15] != 'd' }

  ghost predicate IsCommonKey(k: string) { !IsMysqlKey(k) && !IsMongoKey(k) && !IsRedisKey(k) }

  lemma BuilderKeys(h: Handler, status: ServiceStatus, service: SiteService, e: string)
    ensures forall k | k in CommonValues(h, status, service) :: IsCommonKey(k)
    ensures forall k | k in MysqlValues(h, e) :: IsMysqlKey(k)
    ensures forall k | k in MongoValues(h, e) :: IsMongoKey(k)
    ensures forall k | k in RedisValues(h, e) :: IsRedisKey(k)
  {
  }

  lemma CommonReads(h: Handler, name: string)
    ensures ReadsCommon(h, name, "", CommonValues(h, StatusOf(h, name), SpecOf(h, name)))
  {
    assert forall key: string :: "" + key == key;
  }

  lemma MysqlReads(h: Handler, e: string)
    ensures ReadsMysql(h, e, "", MysqlValues(h, e))
  {
    assert forall key: string :: "" + key == key;
  }

  lemma MongoReads(h: Handler, e: string)
    ensures ReadsMongo(h, e, "", MongoValues(h, e))
  {
    assert forall key: string :: "" + key == key;
  }

  lemma RedisReads(h: Handler, e: string)
    ensures ReadsRedis(h, e, "", RedisValues(h, e))
  {
    assert forall key: string :: "" + key == key;
  }

  /** A map whose values are those of another one, as far as this one goes. */
  ghost predicate Extends(values: map<string, string>, prefix: string, part: map<string, string>) {
    forall k | k in part :: Reads(values, prefix + k, part[k])
  }

  lemma ReadsAtPrefix(values: map<string, string>, prefix: string, part: map<string, string>, k: string, v: string)
    requires Extends(values, prefix, part) && Reads(part, "" + k, v)
    ensures Reads(values, prefix + k, v)
  {
    assert "" + k == k;
  }

  lemma CommonAtPrefix(h: Handler, name: string, values: map<string, string>, prefix: string)
    requires Extends(values, prefix, CommonValues(h, StatusOf(h, name), SpecOf(h, name)))
    ensures ReadsCommon(h, name, prefix, values)
  {
    var part := CommonValues(h, StatusOf(h, name), SpecOf(h, name));
    CommonReads(h, name);
    hide Extends, Reads, CommonValues;
    ReadsAtPrefix(values, prefix, part, "database.username", StatusOf(h, name).username);
    ReadsAtPrefix(values, prefix, part, "database.name", StatusOf(h, name).dbName);
    ReadsAtPrefix(values, prefix, part, "database.password", h.spec.password);
    ReadsAtPrefix(values, prefix, part, "database.redis.database", StatusOf(h, name).redisNumber);
    ReadsAtPrefix(values, prefix, part, "database.initSource", SpecOf(h, name).initSource);
  }

  lemma MysqlAtPrefix(h: Handler, e: string, values: map<string, string>, prefix: string)
    requires Extends(values, prefix, MysqlValues(h, e))
    ensures ReadsMysql(h, e, prefix, values)
  {
    MysqlReads(h, e);
    hide Extends, Reads, MysqlValues;
    if e != "" && e in h.mysql {
      ReadsAtPrefix(values, prefix, MysqlValues(h, e), "database.mysql.host", h.mysql[e].host);
      ReadsAtPrefix(values, prefix, MysqlValues(h, e), "database.mysql.port", h.mysql[e].port);
    }
  }

  lemma MongoAtPrefix(h: Handler, e: string, values: map<string, string>, prefix: string)
    requires Extends(values, prefix, MongoValues(h, e))
    ensures ReadsMongo(h, e, prefix, values)
  {
    MongoReads(h, e);
    hide Extends, Reads, MongoValues;
    if e != "" && e in h.mongo {
      ReadsAtPrefix(values, prefix, MongoValues(h, e), "database.mongo.host1", h.mongo[e].host1);
      ReadsAtPrefix(values, prefix, MongoValues(h, e), "database.mongo.host2", h.mongo[e].host2);
      ReadsAtPrefix(values, prefix, MongoValues(h, e), "database.mongo.host3", h.mongo[e].host3);
      ReadsAtPrefix(values, prefix, MongoValues(h, e), "database.mongo.port", h.mongo[e].port);
    }
  }

  lemma RedisAtPrefix(h: Handler, e: string, values: map<string, string>, prefix: string)
    requires Extends(values, prefix, RedisValues(h, e))
    ensures ReadsRedis(h, e, prefix, values)
  {
    RedisReads(h, e);
    hide Extends, Reads, RedisValues;
    if e != "" && e in h.redis {
      ReadsAtPrefix(values, prefix, RedisValues(h, e), "database.redis.host", h.redis[e].host);
      ReadsAtPrefix(values, prefix, RedisValues(h, e), "database.redis.port", h.redis[e].port);
      ReadsAtPrefix(values, prefix, RedisValues(h, e), "database.redis.password", h.redis[e].password);
      ReadsAtPrefix(values, prefix, RedisValues(h, e), "database.redis.scheme",
          if h.redis[e].tls then "tls" else "tcp");
    }
  }

  /** The builders do not overwrite each other's keys. */
  lemma PartsExtend(h: Handler, name: string, config: ServiceConfig)
    ensures var all, spec := DatabaseValues(h, name, config), SpecOf(h, name);
            && Extends(all, "", CommonValues(h, StatusOf(h, name), spec))
            && Extends(all, "", MysqlValues(h, Environment(spec.mysqlEnvironment, config.defaultMysql)))
            && Extends(all, "", MongoValues(h, Environment(spec.mongoEnvironment, config.defaultMongo)))
            && Extends(all, "", RedisValues(h, Environment(spec.redisEnvironment, config.defaultRedis)))
  {
    var spec := SpecOf(h, name);
    assert forall key: string :: "" + key == key;
    BuilderKeys(h, StatusOf(h, name), spec, Environment(spec.mysqlEnvironment, config.defaultMysql));
    BuilderKeys(h, StatusOf(h, name), spec, Environment(spec.mongoEnvironment, config.defaultMongo));
    BuilderKeys(h, StatusOf(h, name), spec, Environment(spec.redisEnvironment, config.defaultRedis));
    hide CommonValues, MysqlValues, MongoValues, RedisValues, Environment;
  }

  /** Every map that has these values under a prefix reads as it should. */
  lemma DatabasesAtPrefix(h: Handler, name: string, config: ServiceConfig, values: map<string, string>, prefix: string)
    requires Extends(values, prefix, DatabaseValues(h, name, config))
    ensures ReadsDatabases(h, name, config, prefix, values)
  {
    var all, spec := DatabaseValues(h, name, config), SpecOf(h, name);
    PartsExtend(h, name, config);
    ExtendsPart(values, prefix, all, CommonValues(h, StatusOf(h, name), spec));
    ExtendsPart(values, prefix, all, MysqlValues(h, Environment(spec.mysqlEnvironment, config.defaultMysql)));
    ExtendsPart(values, prefix, all, MongoValues(h, Environment(spec.mongoEnvironment, config.defaultMongo)));
    ExtendsPart(values, prefix, all, RedisValues(h, Environment(spec.redisEnvironment, config.defaultRedis)));
    hide Extends, DatabaseValues, CommonValues, MysqlValues, MongoValues, RedisValues, ReadsCommon, ReadsMysql,
        ReadsMongo, ReadsRedis;
    CommonAtPrefix(h, name, values, prefix);
    MysqlAtPrefix(h, Environment(spec.mysqlEnvironment, config.defaultMysql), values, prefix);
    MongoAtPrefix(h, Environment(spec.mongoEnvironment, config.defaultMongo), values, prefix);
    RedisAtPrefix(h, Environment(spec.redisEnvironment, config.defaultRedis), values, prefix);
  }

  lemma ExtendsPart(values: map<string, string>, prefix: string, all: map<string, string>, part: map<string, string>)
    requires Extends(values, prefix, all) && Extends(all, "", part)
    ensures Extends(values, prefix, part)
  {
    forall k | k in part ensures Reads(values, prefix + k, part[k]) {
      assert "" + k == k;
    }
  }

  // The result of the handler

  /** The map that the handler returns, as its contract says. */
  ghost predicate IsResult(md5: string -> string, h: Handler, result: map<string, string>)
    requires IsDigest(md5)
  {
    result.Keys == Keys(md5, h) && forall key | key in result :: IsValue(md5, h, key, result[key])
  }

  lemma ResultHas(md5: string -> string, h: Handler, g: nat, name: string, k: string, key: string, value: string,
                  result: map<string, string>)
    requires IsDigest(md5) && IsResult(md5, h, result) && key in Keys(md5, h)
    requires IsValueOfGroup(md5, h, g, name, k, key, value)
    ensures Reads(result, key, value)
  {
    SetsValue(md5, h, g, name, k, key, value);
    hide IsValue, IsValueOfGroup, Keys;
    ValuesAreFunctional(md5, h, key, value, result[key]);
  }

  lemma SiteExtends(md5: string -> string, h: Handler, result: map<string, string>)
    requires IsDigest(md5) && IsResult(md5, h, result)
    ensures Extends(result, "", SiteValues(h))
  {
    hide SiteValues, IsResult;
    forall key | key in SiteValues(h) ensures Reads(result, "" + key, SiteValues(h)[key]) {
      assert "" + key == key;
      assert key in Keys(md5, h);
      hide Keys;
      ResultHas(md5, h, 0, "", "", key, SiteValues(h)[key], result);
    }
  }

  lemma ServiceExtends(md5: string -> string, h: Handler, result: map<string, string>, name: string)
    requires IsDigest(md5) && IsResult(md5, h, result) && name in h.serviceConfigs
    ensures Extends(result, "service." + name + ".", ServiceValues(md5, h, name))
  {
    hide ServiceValues, IsResult;
    forall k | k in ServiceValues(md5, h, name)
      ensures Reads(result, "service." + name + "." + k, ServiceValues(md5, h, name)[k])
    {
      assert ServiceKey(name, k) in ServiceKeys(md5, h, h.serviceConfigs.Keys);
      assert ServiceKey(name, k) in Keys(md5, h);
      assert ServiceKey(name, k) == "service." + name + "." + k;
      hide Keys, ServiceKey;
      ResultHas(md5, h, 3, name, k, ServiceKey(name, k), ServiceValues(md5, h, name)[k], result);
    }
  }

  lemma SiteParts(h: Handler)
    ensures Extends(SiteValues(h), "", DatabaseValues(h, h.configName, h.config))
    ensures Reads(SiteValues(h), "site.name", h.siteName)
    ensures Reads(SiteValues(h), "site.domainPrefix", h.spec.domainPrefix)
    ensures Reads(SiteValues(h), "site.imageTag", SpecOf(h, h.configName).imageTag)
  {
    DatabaseKeysBegin(h, h.configName, h.config);
    hide DatabaseValues;
    assert forall key: string :: "" + key == key;
  }

  lemma DatabaseKeysBegin(h: Handler, name: string, config: ServiceConfig)
    ensures forall k | k in DatabaseValues(h, name, config) :: k != "" && k[0] == 'd'
  {
    hide DatabaseValues;
    forall k | k in DatabaseValues(h, name, config) ensures k != "" && k[0] == 'd' {
      DatabaseValuesKeys(h, name, config, k);
      DatabaseKeys(k);
    }
  }

  lemma ServiceParts(md5: string -> string, h: Handler, name: string)
    requires IsDigest(md5) && name in h.serviceConfigs
    ensures Extends(ServiceValues(md5, h, name), "", DatabaseValues(h, name, h.serviceConfigs[name]))
    ensures Reads(ServiceValues(md5, h, name), "clusterUrl",
        ObjectName(md5, h.siteName, [h.serviceConfigs[name].shortName]) + "." + h.namespace + ".svc.cluster.local")
  {
    DatabaseKeysBegin(h, name, h.serviceConfigs[name]);
    hide DatabaseValues, ObjectName;
    assert forall key: string :: "" + key == key;
  }

  /** What a template reads of the site itself. */
  lemma SiteReads(md5: string -> string, h: Handler, result: map<string, string>)
    requires IsDigest(md5) && IsResult(md5, h, result)
    ensures Reads(result, "site.name", h.siteName) && Reads(result, "site.domainPrefix", h.spec.domainPrefix)
    ensures Reads(result, "site.imageTag", SpecOf(h, h.configName).imageTag)
    ensures ReadsDatabases(h, h.configName, h.config, "", result)
  {
    SiteExtends(md5, h, result);
    SiteParts(h);
    hide *;
    ExtendsPart(result, "", SiteValues(h), DatabaseValues(h, h.configName, h.config));
    DatabasesAtPrefix(h, h.configName, h.config, result, "");
    ReadsItself(result, SiteValues(h), "site.name", h.siteName);
    ReadsItself(result, SiteValues(h), "site.domainPrefix", h.spec.domainPrefix);
    ReadsItself(result, SiteValues(h), "site.imageTag", SpecOf(h, h.configName).imageTag);
  }

  lemma ReadsItself(values: map<string, string>, part: map<string, string>, k: string, v: string)
    requires Extends(values, "", part) && Reads(part, k, v)
    ensures Reads(values, k, v)
  {
    assert "" + k == k;
  }

  lemma ReadsPart(values: map<string, string>, prefix: string, part: map<string, string>, k: string, v: string)
    requires Extends(values, prefix, part) && Reads(part, k, v)
    ensures Reads(values, prefix + k, v)
  {
  }

  /** What a template reads of each service of the namespace, under its prefix. */
  lemma ServiceReads(md5: string -> string, h: Handler, result: map<string, string>, name: string)
    requires IsDigest(md5) && IsResult(md5, h, result) && name in h.serviceConfigs
    ensures ReadsDatabases(h, name, h.serviceConfigs[name], "service." + name + ".", result)
    ensures Reads(result, "service." + name + "." + "clusterUrl",
        ObjectName(md5, h.siteName, [h.serviceConfigs[name].shortName]) + "." + h.namespace + ".svc.cluster.local")
  {
    var prefix, config := "service." + name + ".", h.serviceConfigs[name];
    ServiceExtends(md5, h, result, name);
    ServiceParts(md5, h, name);
    ExtendsPart(result, prefix, ServiceValues(md5, h, name), DatabaseValues(h, name, config));
    hide IsResult, ServiceValues, DatabaseValues, ReadsDatabases, ObjectName;
    DatabasesAtPrefix(h, name, config, result, prefix);
    ReadsPart(result, prefix, ServiceValues(md5, h, name), "clusterUrl",
        ObjectName(md5, h.siteName, [config.shortName]) + "." + h.namespace + ".svc.cluster.local");
  }

  /** Config maps under their generated names, and custom values, those of the site before the config's. */
  lemma CustomReads(md5: string -> string, h: Handler, result: map<string, string>, name: string)
    requires IsDigest(md5) && IsResult(md5, h, result)
    ensures name in h.config.configMaps ==>
              Reads(result, "site.configmap." + name, ObjectName(md5, h.siteName, [h.config.shortName, name]))
    ensures name in SpecOf(h, h.configName).customValues ==>
              Reads(result, "site.custom." + name, SpecOf(h, h.configName).customValues[name])
    ensures name in h.config.customValues && name !in SpecOf(h, h.configName).customValues ==>
              Reads(result, "site.custom." + name, h.config.customValues[name])
  {
    hide IsResult, SiteValues, ServiceKeys, ObjectName;
    if name in h.config.configMaps {
      var key := "site.configmap." + name;
      assert key in Prefixed("site.configmap.", h.config.configMaps.Keys) && key in Keys(md5, h);
      ResultHas(md5, h, 1, name, "", key, ObjectName(md5, h.siteName, [h.config.shortName, name]), result);
    }
    if name in CustomValues(h) {
      var key := "site.custom." + name;
      assert key in Prefixed("site.custom.", CustomValues(h).Keys) && key in Keys(md5, h);
      ResultHas(md5, h, 2, name, "", key, CustomValues(h)[name], result);
    }
    hide Keys;
  }
}
