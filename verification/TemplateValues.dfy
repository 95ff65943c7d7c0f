/** The values a template can use (`handlers/template/site.go`), and the check a service config
    passes before it is admitted (`handlers/webhook/serviceconfig_create_or_update.go`). */
module TemplateValues {
  import opened Jobs
  import opened Apis
  import opened Names
  import opened Template

  datatype Handler = Handler(
    siteName: string,
    namespace: string,
    spec: SiteSpec,
    statuses: map<string, ServiceStatus>,
    configName: string,
    config: ServiceConfig,
    serviceConfigs: map<string, ServiceConfig>,
    mysql: map<string, MysqlConfig>,
    mongo: map<string, MongoConfig>,
    redis: map<string, RedisConfig>)

  // The per-database builders

  function Environment(siteEnvironment: string, defaultEnvironment: string): string {
    if siteEnvironment == "" then defaultEnvironment else siteEnvironment
  }

  function MysqlValues(h: Handler, environment: string): map<string, string> {
    if environment == "" then map[]
    else
      var c := Lookup(h.mysql, environment, MysqlConfig("", "0"));
      map["database.mysql.host" := c.host, "database.mysql.port" := c.port]
  }

  function MongoValues(h: Handler, environment: string): map<string, string> {
    if environment == "" then map[]
    else
      var c := Lookup(h.mongo, environment, MongoConfig("", "", "", "0"));
      map["database.mongo.host1" := c.host1, "database.mongo.host2" := c.host2, "database.mongo.host3" := c.host3,
          "database.mongo.port" := c.port]
  }

  function RedisValues(h: Handler, environment: string): map<string, string> {
    if environment == "" then map[]
    else
      var c := Lookup(h.redis, environment, RedisConfig("", "0", "", false, 0));
      map["database.redis.scheme" := if c.tls then "tls" else "tcp", "database.redis.host" := c.host,
          "database.redis.port" := c.port, "database.redis.password" := c.password]
  }

  function CommonValues(h: Handler, status: ServiceStatus, service: SiteService): map<string, string> {
    map["database.username" := status.username, "database.name" := status.dbName,
        "database.password" := h.spec.password,
        "database.redis.database" := status.redisNumber, "database.initSource" := service.initSource]
  }

  /** The database values of service `name`, whose defaults are those of `config`. */
  function DatabaseValues(h: Handler, name: string, config: ServiceConfig): map<string, string> {
    var service := Lookup(h.spec.services, name, NO_SERVICE);
    CommonValues(h, Lookup(h.statuses, name, NO_STATUS), service)
    + MysqlValues(h, Environment(service.mysqlEnvironment, config.defaultMysql))
    + MongoValues(h, Environment(service.mongoEnvironment, config.defaultMongo))
    + RedisValues(h, Environment(service.redisEnvironment, config.defaultRedis))
  }

  function ServiceUrl(md5: string -> string, h: Handler, shortName: string): string
    requires IsDigest(md5)
  {
    ObjectName(md5, h.siteName, [shortName]) + "." + h.namespace + ".svc.cluster.local"
  }

  /** What other templates see of one service, under its prefix. */
  function ServiceValues(md5: string -> string, h: Handler, name: string): map<string, string>
    requires IsDigest(md5) && name in h.serviceConfigs
  {
    map["clusterUrl" := ServiceUrl(md5, h, h.serviceConfigs[name].shortName)]
        + DatabaseValues(h, name, h.serviceConfigs[name])
  }

  function SiteValues(h: Handler): map<string, string> {
    map["site.name" := h.siteName, "site.domainPrefix" := h.spec.domainPrefix,
        "site.imageTag" := Lookup(h.spec.services, h.configName, NO_SERVICE).imageTag]
    + DatabaseValues(h, h.configName, h.config)
  }

  function CustomValues(h: Handler): map<string, string> {
    h.config.customValues + OwnCustomValues(h)
  }

  function ServiceKey(name: string, key: string): string { "service." + name + "." + key }

  // Keys never clash

  const SITE_KEYS := ["site.name", "site.domainPrefix", "site.imageTag"]
  const DATABASE_KEYS := [
    "database.username", "database.name", "database.password", "database.redis.database", "database.initSource",
    "database.mysql.host", "database.mysql.port",
    "database.mongo.host1", "database.mongo.host2", "database.mongo.host3", "database.mongo.port",
    "database.redis.scheme", "database.redis.host", "database.redis.port", "database.redis.password"]

  predicate IsDatabaseKey(k: string) {
    && |k| > 9 && k[0] == 'd' && k[5] == 'a' && k[8] == '.' && k[|k| - 1] != 'l'
    && forall i | 0 <= i < |k| && k[i] == '.' :: i == 8 || i == 14
  }

  lemma DatabaseKeys(k: string)
    requires k in DATABASE_KEYS
    ensures IsDatabaseKey(k)
  {
  }

  predicate IsServiceKey(k: string) { k == "clusterUrl" || IsDatabaseKey(k) }

  /** No service key ends in a dot and another one, so a prefixed key names one service. */
  lemma NoDottedSuffix(k: string, long: string)
    requires IsServiceKey(k) && IsServiceKey(long) && |k| < |long|
    requires forall i | 0 <= i < |k| :: long[|long| - |k| + i] == k[i]
    ensures long[|long| - |k| - 1] != '.'
  {
    assert |k| > 0 && long[|long| - 1] == k[|k| - 1];
    assert k != "clusterUrl" ==> long[|long| - |k| + 8] == k[8];
  }

  lemma ServiceKeyChars(n: string, k: string)
    ensures var s := ServiceKey(n, k);
            && |s| == 9 + |n| + |k| && s[8 + |n|] == '.'
            && (forall i | 0 <= i < |n| :: s[8 + i] == n[i])
            && (forall i | 0 <= i < |k| :: s[9 + |n| + i] == k[i])
  {
  }

  lemma ServiceKeysAreInjective(n1: string, k1: string, n2: string, k2: string)
    requires IsServiceKey(k1) && IsServiceKey(k2) && ServiceKey(n1, k1) == ServiceKey(n2, k2)
    ensures n1 == n2 && k1 == k2
  {
    SameLengthKeys(n1, k1, n2, k2);
    SameLengthKeys(n2, k2, n1, k1);
    var s := ServiceKey(n1, k1);
    assert s[8..8 + |n1|] == n1 && s[8..8 + |n2|] == n2;
    assert s[9 + |n1|..] == k1 && s[9 + |n2|..] == k2;
  }

  lemma SameLengthKeys(n1: string, k1: string, n2: string, k2: string)
    requires IsServiceKey(k1) && IsServiceKey(k2) && ServiceKey(n1, k1) == ServiceKey(n2, k2)
    ensures |k1| >= |k2|
  {
    hide ServiceKey, IsServiceKey;
    ServiceKeyChars(n1, k1);
    ServiceKeyChars(n2, k2);
    if |k1| < |k2| {
      var s := ServiceKey(n1, k1);
      var p := |k2| - |k1|;
      assert forall i | 0 <= i < |k1| :: k2[p + i] == s[9 + |n2| + p + i] == k1[i];
      assert k2[p - 1] == s[9 + |n2| + p - 1] == '.';
      NoDottedSuffix(k1, k2);
    }
  }

  lemma DatabaseValuesKeys(h: Handler, name: string, config: ServiceConfig, k: string)
    requires k in DatabaseValues(h, name, config)
    ensures k in DATABASE_KEYS
  {
  }

  lemma ServiceValuesKeys(md5: string -> string, h: Handler, name: string, k: string)
    requires IsDigest(md5) && name in h.serviceConfigs && k in ServiceValues(md5, h, name)
    ensures IsServiceKey(k)
  {
    if k != "clusterUrl" {
      DatabaseValuesKeys(h, name, h.serviceConfigs[name], k);
      DatabaseKeys(k);
    }
  }

  /** Which of the four groups a key belongs to. */
  function Group(key: string): nat {
    if |key| > 6 && key[0] == 's' && key[1] == 'i' && key[5] == 'c' then if key[6] == 'o' then 1 else 2
    else if |key| > 1 && key[0] == 's' && key[1] == 'e' then 3
    else 0
  }

  lemma SiteValuesGroup(h: Handler, k: string)
    requires k in SiteValues(h)
    ensures Group(k) == 0
  {
    hide DatabaseValues;
    if k in DatabaseValues(h, h.configName, h.config) {
      DatabaseValuesKeys(h, h.configName, h.config, k);
      DatabaseKeys(k);
    }
  }

  lemma PrefixedGroups(n: string, k: string)
    ensures Group("site.configmap." + n) == 1 && Group("site.custom." + n) == 2 && Group(ServiceKey(n, k)) == 3
  {
  }

  lemma PrefixIsInjective(p: string, n1: string, n2: string)
    requires p + n1 == p + n2
    ensures n1 == n2
  {
    assert (p + n1)[|p|..] == n1 && (p + n2)[|p|..] == n2;
  }

  ghost predicate IsValueOfGroup(md5: string -> string, h: Handler, group: nat, name: string, k: string, key: string,
                                 value: string)
    requires IsDigest(md5)
  {
    match group
    case 0 => key in SiteValues(h) && value == SiteValues(h)[key]
    case 1 => name in h.config.configMaps && key == "site.configmap." + name
        && value == ObjectName(md5, h.siteName, [h.config.shortName, name])
    case 2 => name in CustomValues(h) && key == "site.custom." + name && value == CustomValues(h)[name]
    case _ =>
      && name in h.serviceConfigs && k in ServiceValues(md5, h, name)
      && key == ServiceKey(name, k) && value == ServiceValues(md5, h, name)[k]
  }

  /** The value of every key, whatever order the maps are walked in. */
  ghost predicate IsValue(md5: string -> string, h: Handler, key: string, value: string)
    requires IsDigest(md5)
  {
    exists name, k :: IsValueOfGroup(md5, h, Group(key), name, k, key, value)
  }

  lemma GroupValuesAreFunctional(md5: string -> string, h: Handler, g: nat, n1: string, k1: string, n2: string,
                                 k2: string, key: string, v1: string, v2: string)
    requires IsDigest(md5)
    requires IsValueOfGroup(md5, h, g, n1, k1, key, v1) && IsValueOfGroup(md5, h, g, n2, k2, key, v2)
    ensures v1 == v2
  {
    hide SiteValues, CustomValues, ServiceValues;
    if g == 1 {
      PrefixIsInjective("site.configmap.", n1, n2);
    } else if g == 2 {
      PrefixIsInjective("site.custom.", n1, n2);
    } else if g > 2 {
      ServiceValuesKeys(md5, h, n1, k1);
      ServiceValuesKeys(md5, h, n2, k2);
      ServiceKeysAreInjective(n1, k1, n2, k2);
    }
  }

  /** Every key has one value, so the order in which the maps are walked cannot matter. */
  lemma ValuesAreFunctional(md5: string -> string, h: Handler, key: string, v1: string, v2: string)
    requires IsDigest(md5) && IsValue(md5, h, key, v1) && IsValue(md5, h, key, v2)
    ensures v1 == v2
  {
    hide IsValueOfGroup;
    var n1, k1 :| IsValueOfGroup(md5, h, Group(key), n1, k1, key, v1);
    var n2, k2 :| IsValueOfGroup(md5, h, Group(key), n2, k2, key, v2);
    GroupValuesAreFunctional(md5, h, Group(key), n1, k1, n2, k2, key, v1, v2);
  }

  /** Each way of setting a key sets the value of that key. */
  lemma SetsValue(md5: string -> string, h: Handler, g: nat, name: string, k: string, key: string, value: string)
    requires IsDigest(md5) && IsValueOfGroup(md5, h, g, name, k, key, value)
    ensures IsValue(md5, h, key, value)
  {
    PrefixedGroups(name, k);
    if g == 0 {
      SiteValuesGroup(h, key);
    }
    assert IsValueOfGroup(md5, h, Group(key), name, k, key, value);
  }

  ghost function Prefixed(prefix: string, names: set<string>): set<string> {
    set n | n in names :: prefix + n
  }

  lemma PrefixedAdd(prefix: string, names: set<string>, n: string)
    ensures Prefixed(prefix, names + {n}) == Prefixed(prefix, names) + {prefix + n}
  {
  }

  ghost function ServiceKeys(md5: string -> string, h: Handler, names: set<string>): set<string>
    requires IsDigest(md5) && names <= h.serviceConfigs.Keys
  {
    set n, k | n in names && k in ServiceValues(md5, h, n) :: ServiceKey(n, k)
  }

  lemma NoServiceKeys(md5: string -> string, h: Handler)
    requires IsDigest(md5)
    ensures ServiceKeys(md5, h, {}) == {}
  {
  }

  lemma ServiceKeysAdd(md5: string -> string, h: Handler, names: set<string>, name: string)
    requires IsDigest(md5) && names <= h.serviceConfigs.Keys && name in h.serviceConfigs
    ensures ServiceKeys(md5, h, names + {name}) ==
            ServiceKeys(md5, h, names) + KeysUnder(name, ServiceValues(md5, h, name).Keys)
  {
    hide ServiceValues;
  }

  lemma CustomKeys(h: Handler)
    ensures Prefixed("site.custom.", CustomValues(h).Keys) ==
            Prefixed("site.custom.", h.config.customValues.Keys) + Prefixed("site.custom.", OwnCustomValues(h).Keys)
  {
  }

  ghost function Keys(md5: string -> string, h: Handler): set<string>
    requires IsDigest(md5)
  {
    SiteValues(h).Keys
    + Prefixed("site.configmap.", h.config.configMaps.Keys)
    + Prefixed("site.custom.", CustomValues(h).Keys)
    + ServiceKeys(md5, h, h.serviceConfigs.Keys)
  }

  ghost function KeysUnder(name: string, keys: set<string>): set<string> {
    set k | k in keys :: ServiceKey(name, k)
  }

  lemma NoKeysUnder(name: string)
    ensures KeysUnder(name, {}) == {}
  {
  }

  lemma KeysUnderAdd(name: string, keys: set<string>, k: string)
    ensures KeysUnder(name, keys + {k}) == KeysUnder(name, keys) + {ServiceKey(name, k)}
  {
    hide ServiceKey;
  }

  /** The copying loop of one service, under its prefix. */
  method AddServiceValues(md5: string -> string, h: Handler, name: string, values: map<string, string>)
    returns (result: map<string, string>)
    requires IsDigest(md5) && name in h.serviceConfigs
    requires forall key | key in values :: IsValue(md5, h, key, values[key])
    ensures result.Keys == values.Keys + KeysUnder(name, ServiceValues(md5, h, name).Keys)
    ensures forall key | key in result :: IsValue(md5, h, key, result[key])
  {
    hide IsValue, IsDigest, ServiceValues, KeysUnder, ServiceKey;
    NoKeysUnder(name);
    var service := ServiceValues(md5, h, name);
    result := values;
    var keys := service.Keys;
    ghost var done: set<string> := {};
    while keys != {}
      invariant keys <= service.Keys && done == service.Keys - keys
      invariant result.Keys == values.Keys + KeysUnder(name, done)
      invariant forall key | key in result :: IsValue(md5, h, key, result[key])
    {
      var k :| k in keys;
      SetsServiceValue(md5, h, name, k);
      KeysUnderAdd(name, done, k);
      result := result[ServiceKey(name, k) := service[k]];
      keys, done := keys - {k}, done + {k};
    }
    assert done == service.Keys;
  }

  lemma SetsServiceValue(md5: string -> string, h: Handler, name: string, k: string)
    requires IsDigest(md5) && name in h.serviceConfigs && k in ServiceValues(md5, h, name)
    ensures IsValue(md5, h, ServiceKey(name, k), ServiceValues(md5, h, name)[k])
  {
    hide IsValue, ServiceValues;
    SetsValue(md5, h, 3, name, k, ServiceKey(name, k), ServiceValues(md5, h, name)[k]);
  }

  /** `GetTemplateValues`: the site's own values, config map names, custom values (the site's
      override the config's), and every service of the namespace under its prefix. */
  method GetTemplateValues(md5: string -> string, h: Handler) returns (result: map<string, string>)
    requires IsDigest(md5)
    ensures result.Keys == Keys(md5, h)
    ensures forall key | key in result :: IsValue(md5, h, key, result[key])
  {
    CustomKeys(h);
    hide IsValue, SiteValues, Prefixed, CustomValues, ServiceKeys, ServiceValues;
    result := SiteValues(h);
    forall key | key in result ensures IsValue(md5, h, key, result[key]) {
      SetsValue(md5, h, 0, "", "", key, result[key]);
    }
    result := AddConfigMapNames(md5, h, result);
    result := AddConfigCustomValues(md5, h, result);
    result := AddSiteCustomValues(md5, h, result);
    result := AddAllServices(md5, h, result);
  }

  method AddAllServices(md5: string -> string, h: Handler, values: map<string, string>)
    returns (result: map<string, string>)
    requires IsDigest(md5)
    requires forall key | key in values :: IsValue(md5, h, key, values[key])
    ensures result.Keys == values.Keys + ServiceKeys(md5, h, h.serviceConfigs.Keys)
    ensures forall key | key in result :: IsValue(md5, h, key, result[key])
  {
    result := values;
    var names := h.serviceConfigs.Keys;
    ghost var done: set<string> := {};
    hide IsValue, IsDigest, ServiceKeys, KeysUnder, ServiceValues;
    NoServiceKeys(md5, h);
    while names != {}
      invariant names <= h.serviceConfigs.Keys && done == h.serviceConfigs.Keys - names
      invariant result.Keys == values.Keys + ServiceKeys(md5, h, done)
      invariant forall key | key in result :: IsValue(md5, h, key, result[key])
    {
      var name :| name in names;
      ServiceKeysAdd(md5, h, done, name);
      result := AddServiceValues(md5, h, name, result);
      names, done := names - {name}, done + {name};
    }
    assert done == h.serviceConfigs.Keys;
  }

  method AddConfigMapNames(md5: string -> string, h: Handler, values: map<string, string>)
    returns (result: map<string, string>)
    requires IsDigest(md5)
    requires forall key | key in values :: IsValue(md5, h, key, values[key])
    ensures result.Keys == values.Keys + Prefixed("site.configmap.", h.config.configMaps.Keys)
    ensures forall key | key in result :: IsValue(md5, h, key, result[key])
  {
    result := values;
    var names := h.config.configMaps.Keys;
    ghost var done: set<string> := {};
    hide IsValue;
    while names != {}
      invariant names <= h.config.configMaps.Keys && done == h.config.configMaps.Keys - names
      invariant result.Keys == values.Keys + Prefixed("site.configmap.", done)
      invariant forall key | key in result :: IsValue(md5, h, key, result[key])
    {
      var n :| n in names;
      var value := ObjectName(md5, h.siteName, [h.config.shortName, n]);
      SetsValue(md5, h, 1, n, "", "site.configmap." + n, value);
      PrefixedAdd("site.configmap.", done, n);
      result := result["site.configmap." + n := value];
      names, done := names - {n}, done + {n};
    }
    assert done == h.config.configMaps.Keys;
  }

  function OwnCustomValues(h: Handler): map<string, string> {
    Lookup(h.spec.services, h.configName, NO_SERVICE).customValues
  }

  /** The config's custom values; those the site has too are still to be overridden. */
  method AddConfigCustomValues(md5: string -> string, h: Handler, values: map<string, string>)
    returns (result: map<string, string>)
    requires IsDigest(md5)
    requires forall key | key in values :: IsValue(md5, h, key, values[key])
    ensures result.Keys == values.Keys + Prefixed("site.custom.", h.config.customValues.Keys)
    ensures forall key | key in result ::
        IsValue(md5, h, key, result[key])
        || key in Prefixed("site.custom.", OwnCustomValues(h).Keys)
  {
    result := values;
    var custom := h.config.customValues;
    var names := custom.Keys;
    ghost var done: set<string> := {};
    hide IsValue;
    while names != {}
      invariant names <= custom.Keys && done == custom.Keys - names
      invariant result.Keys == values.Keys + Prefixed("site.custom.", done)
      invariant forall key | key in result ::
          IsValue(md5, h, key, result[key])
          || key in Prefixed("site.custom.", OwnCustomValues(h).Keys)
    {
      var n :| n in names;
      if n !in OwnCustomValues(h) {
        SetsValue(md5, h, 2, n, "", "site.custom." + n, custom[n]);
      }
      PrefixedAdd("site.custom.", done, n);
      result := result["site.custom." + n := custom[n]];
      names, done := names - {n}, done + {n};
    }
    assert done == custom.Keys;
  }

  /** The site's custom values, over the config's. */
  method AddSiteCustomValues(md5: string -> string, h: Handler, values: map<string, string>)
    returns (result: map<string, string>)
    requires IsDigest(md5)
    requires forall key | key in values ::
        IsValue(md5, h, key, values[key])
        || key in Prefixed("site.custom.", OwnCustomValues(h).Keys)
    ensures result.Keys == values.Keys + Prefixed("site.custom.", OwnCustomValues(h).Keys)
    ensures forall key | key in result :: IsValue(md5, h, key, result[key])
  {
    result := values;
    var own := OwnCustomValues(h);
    var names := own.Keys;
    ghost var done: set<string> := {};
    hide IsValue;
    while names != {}
      invariant names <= own.Keys && done == own.Keys - names
      invariant result.Keys == values.Keys + Prefixed("site.custom.", done)
      invariant forall key | key in result ::
          IsValue(md5, h, key, result[key])
          || key in Prefixed("site.custom.", names)
    {
      var n :| n in names;
      SetsValue(md5, h, 2, n, "", "site.custom." + n, own[n]);
      PrefixedAdd("site.custom.", done, n);
      assert Prefixed("site.custom.", names) == Prefixed("site.custom.", names - {n}) + {"site.custom." + n};
      result := result["site.custom." + n := own[n]];
      names, done := names - {n}, done + {n};
    }
    assert done == own.Keys;
  }
}
